/**
 Mutual authentication over a network that may reorder, replay, drop and alter
 messages. The MAC is ideal: a proof over some bytes exists once a holder of
 the shared secret has computed it, and not before.
 */
module Handshake {
  import opened Common
  import opened Transcript

  /** A proof made with the shared secret over some bytes, or anything else. */
  datatype Proof = Mac(input: Bytes) | Forged(junk: nat)

  datatype ClientMessage =
    | HelloMessage(hello: Hello)
    | Authenticate(sessionId: Bytes, clientProof: Proof)

  datatype ServerMessage =
    | Challenge(protocolVersion: nat, serverVersion: Bytes, sessionId: Bytes, serverNonce: Bytes, serverProof: Proof)
    | Ready(sessionId: Bytes, role: Role, expiresAt: nat)
    | Rejected

  datatype SessionError = Frame | InvalidProof | UnsupportedProtocol(version: nat) | PeerRejected | UnexpectedMessage

  datatype Session = Session(sessionId: Bytes, role: Role, expiresAt: nat, peerVersion: Bytes)

  function Prove(a: Actor, t: AuthTranscript): Proof {
    Mac(Encode(a, t))
  }

  predicate Verify(a: Actor, t: AuthTranscript, p: Proof) {
    p == Prove(a, t)
  }

  // ------------------------------------------------ the two sides, message by message

  function OwnHello(role: Role, version: Bytes, nonce: Bytes): Hello {
    Hello(PROTOCOL_VERSION, version, role, nonce)
  }

  function OnChallenge(hello: Hello, m: ServerMessage): Result<AuthTranscript, SessionError> {
    match m
    case Rejected => Failure(PeerRejected)
    case Ready(_, _, _) => Failure(UnexpectedMessage)
    case Challenge(version, serverVersion, sid, nonce, proof) =>
      var t := AuthTranscript(hello, serverVersion, sid, nonce);
      if version != PROTOCOL_VERSION then Failure(UnsupportedProtocol(version))
      else if Verify(ServerSide, t, proof) then Success(t)
      else Failure(InvalidProof)
  }

  function OnReady(t: AuthTranscript, m: ServerMessage): Result<Session, SessionError> {
    match m
    case Rejected => Failure(PeerRejected)
    case Challenge(_, _, _, _, _) => Failure(UnexpectedMessage)
    case Ready(sid, role, expiresAt) =>
      if sid != t.sessionId || role != t.hello.role then Failure(UnexpectedMessage)
      else Success(Session(sid, role, expiresAt, t.serverVersion))
  }

  function OnHello(m: ClientMessage, serverVersion: Bytes, sid: Bytes, nonce: Bytes)
    : Result<AuthTranscript, SessionError>
  {
    if !m.HelloMessage? then Failure(UnexpectedMessage)
    else if m.hello.protocolVersion != PROTOCOL_VERSION then Failure(UnsupportedProtocol(m.hello.protocolVersion))
    else Success(AuthTranscript(m.hello, serverVersion, sid, nonce))
  }

  function OnAuthenticate(t: AuthTranscript, m: ClientMessage): Result<(), SessionError> {
    if !m.Authenticate? then Failure(UnexpectedMessage)
    else if m.sessionId != t.sessionId || !Verify(ClientSide, t, m.clientProof) then Failure(InvalidProof)
    else Success(())
  }

  function ChallengeFor(t: AuthTranscript): ServerMessage {
    Challenge(PROTOCOL_VERSION, t.serverVersion, t.sessionId, t.serverNonce, Prove(ServerSide, t))
  }

  function AuthenticateFor(t: AuthTranscript): ClientMessage {
    Authenticate(t.sessionId, Prove(ClientSide, t))
  }

  // ------------------------------------------------ the two sides on a stream

  /** A two-way stream as one side holds it: what is still to be read, what has been written. */
  class Stream<In, Out> {
    var inbox: seq<In>
    var outbox: seq<Out>

    method Read() returns (m: Option<In>)
      modifies this`inbox
      ensures old(inbox) == [] ==> m.None? && inbox == []
      ensures old(inbox) != [] ==> m == Some(old(inbox)[0]) && inbox == old(inbox)[1..]
    {
      if inbox == [] {
        return None;
      }
      m := Some(inbox[0]);
      inbox := inbox[1..];
    }

    method Write(m: Out)
      modifies this`outbox
      ensures outbox == old(outbox) + [m]
    {
      outbox := outbox + [m];
    }
  }

  /** What a client does on a stream, as a function of what it reads. */
  function ClientTalk(hello: Hello, inbox: seq<ServerMessage>): (seq<ClientMessage>, Result<Session, SessionError>) {
    var first := [HelloMessage(hello)];
    if inbox == [] then (first, Failure(Frame))
    else match OnChallenge(hello, inbox[0])
      case Failure(e) => (first, Failure(e))
      case Success(t) =>
        var both := first + [AuthenticateFor(t)];
        if |inbox| == 1 then (both, Failure(Frame)) else (both, OnReady(t, inbox[1]))
  }

  method AuthenticateClient(stream: Stream<ServerMessage, ClientMessage>, role: Role, version: Bytes, nonce: Bytes)
    returns (r: Result<Session, SessionError>)
    modifies stream
    ensures var talk := ClientTalk(OwnHello(role, version, nonce), old(stream.inbox));
            r == talk.1 && stream.outbox == old(stream.outbox) + talk.0
  {
    var hello := OwnHello(role, version, nonce);
    stream.Write(HelloMessage(hello));
    var m := stream.Read();
    if m.None? {
      return Failure(Frame);
    }
    var challenge := OnChallenge(hello, m.value);
    if challenge.Failure? {
      return Failure(challenge.error);
    }
    stream.Write(AuthenticateFor(challenge.value));
    m := stream.Read();
    if m.None? {
      return Failure(Frame);
    }
    r := OnReady(challenge.value, m.value);
  }

  function ServerTalk(
    serverVersion: Bytes, sid: Bytes, nonce: Bytes, expiresAt: nat, inbox: seq<ClientMessage>)
    : (seq<ServerMessage>, Result<Session, SessionError>)
  {
    if inbox == [] then ([], Failure(Frame))
    else match OnHello(inbox[0], serverVersion, sid, nonce)
      case Failure(UnsupportedProtocol(v)) => ([Rejected], Failure(UnsupportedProtocol(v)))
      case Failure(e) => ([], Failure(e))
      case Success(t) =>
        var first := [ChallengeFor(t)];
        if |inbox| == 1 then (first, Failure(Frame))
        else match OnAuthenticate(t, inbox[1])
          case Failure(InvalidProof) => (first + [Rejected], Failure(InvalidProof))
          case Failure(e) => (first, Failure(e))
          case Success(_) =>
            (first + [Ready(sid, t.hello.role, expiresAt)],
             Success(Session(sid, t.hello.role, expiresAt, t.hello.clientVersion)))
  }

  method AuthenticateServer(
    stream: Stream<ClientMessage, ServerMessage>, serverVersion: Bytes, sid: Bytes, nonce: Bytes, expiresAt: nat)
    returns (r: Result<Session, SessionError>)
    modifies stream
    ensures var talk := ServerTalk(serverVersion, sid, nonce, expiresAt, old(stream.inbox));
            r == talk.1 && stream.outbox == old(stream.outbox) + talk.0
  {
    hide Prove, Verify;
    var m := stream.Read();
    if m.None? {
      return Failure(Frame);
    }
    var hello := OnHello(m.value, serverVersion, sid, nonce);
    if hello.Failure? {
      if hello.error.UnsupportedProtocol? {
        stream.Write(Rejected);
      }
      return Failure(hello.error);
    }
    var t := hello.value;
    stream.Write(ChallengeFor(t));
    m := stream.Read();
    if m.None? {
      return Failure(Frame);
    }
    var proof := OnAuthenticate(t, m.value);
    if proof.Failure? {
      if proof.error.InvalidProof? {
        stream.Write(Rejected);
      }
      return Failure(proof.error);
    }
    stream.Write(Ready(sid, t.hello.role, expiresAt));
    r := Success(Session(sid, t.hello.role, expiresAt, t.hello.clientVersion));
  }

  /** The transcript a challenge answers to a hello makes. */
  function Answering(hello: Hello, m: ServerMessage): AuthTranscript
    requires m.Challenge?
  {
    AuthTranscript(hello, m.serverVersion, m.sessionId, m.serverNonce)
  }

  /** A message a client goes on from: a challenge of version 1, proved by the server on this very transcript. */
  predicate GoodChallenge(hello: Hello, m: ServerMessage) {
    m.Challenge? && m.protocolVersion == 1 && m.serverProof == Mac(Encode(ServerSide, Answering(hello, m)))
  }

  /**
   What a client writes and ends with, by what it is sent: a proof goes out for a
   good challenge only, and it completes exactly on a good challenge and a ready
   message for its own session and role.
   */
  lemma ClientCompletesIff(hello: Hello, inbox: seq<ServerMessage>)
    ensures var (written, r) := ClientTalk(hello, inbox);
            var challenged := |inbox| >= 1 && GoodChallenge(hello, inbox[0]);
            && written == (if challenged then
                 [HelloMessage(hello), Authenticate(inbox[0].sessionId, Mac(Encode(ClientSide, Answering(hello, inbox[0]))))]
               else [HelloMessage(hello)])
            && (r.Success? <==>
                  && challenged && |inbox| >= 2 && inbox[1].Ready?
                  && inbox[1].sessionId == inbox[0].sessionId && inbox[1].role == hello.role)
            && (r.Success? ==>
                  r.value == Session(inbox[0].sessionId, hello.role, inbox[1].expiresAt, inbox[0].serverVersion))
            && (r == Failure(Frame) <==> |inbox| == 0 || (challenged && |inbox| == 1))
            && (r == Failure(PeerRejected) <==>
                  (|inbox| >= 1 && inbox[0].Rejected?) || (challenged && |inbox| >= 2 && inbox[1].Rejected?))
            && (|inbox| >= 1 && inbox[0].Challenge? && inbox[0].protocolVersion != 1 ==>
                  r == Failure(UnsupportedProtocol(inbox[0].protocolVersion)))
            && (r == Failure(InvalidProof) <==>
                  |inbox| >= 1 && inbox[0].Challenge? && inbox[0].protocolVersion == 1 && !challenged)
  {
    hide Encode;
  }

  /**
   What a server writes and ends with: it challenges a hello of version 1 only,
   and completes exactly when the answer is for its session and proved by the
   client on the transcript of this very challenge.
   */
  lemma ServerCompletesIff(serverVersion: Bytes, sid: Bytes, nonce: Bytes, expiresAt: nat, inbox: seq<ClientMessage>)
    ensures var (written, r) := ServerTalk(serverVersion, sid, nonce, expiresAt, inbox);
            var greeted := |inbox| >= 1 && inbox[0].HelloMessage? && inbox[0].hello.protocolVersion == 1;
            var answered := greeted && |inbox| >= 2 && inbox[1].Authenticate?;
            var proved := answered && inbox[1] == Authenticate(sid,
              Mac(Encode(ClientSide, AuthTranscript(inbox[0].hello, serverVersion, sid, nonce))));
            var challenge := if greeted then
              [Challenge(1, serverVersion, sid, nonce,
                 Mac(Encode(ServerSide, AuthTranscript(inbox[0].hello, serverVersion, sid, nonce))))] else [];
            && (r.Success? <==> proved)
            && (r.Success? ==>
                  && r.value == Session(sid, inbox[0].hello.role, expiresAt, inbox[0].hello.clientVersion)
                  && written == challenge + [Ready(sid, inbox[0].hello.role, expiresAt)])
            && (r == Failure(InvalidProof) <==> answered && !proved)
            && (r == Failure(InvalidProof) ==> written == challenge + [Rejected])
            && (r == Failure(Frame) <==> |inbox| == 0 || (greeted && |inbox| == 1))
            && (r == Failure(UnexpectedMessage) <==>
                  (|inbox| >= 1 && !inbox[0].HelloMessage?) || (greeted && |inbox| >= 2 && !answered))
            && (r == Failure(Frame) || r == Failure(UnexpectedMessage) ==> written == challenge)
            && (|inbox| >= 1 && inbox[0].HelloMessage? && !greeted ==>
                  r == Failure(UnsupportedProtocol(inbox[0].hello.protocolVersion)) && written == [Rejected])
  {
    hide Encode;
  }

  /** Over a faithful network both sides complete, on the same session, role and expiry. */
  lemma FaithfulNetworkCompletes(
    role: Role, version: Bytes, clientNonce: Bytes, serverVersion: Bytes, sid: Bytes, serverNonce: Bytes, expiresAt: nat)
    ensures var hello := OwnHello(role, version, clientNonce);
            var t := AuthTranscript(hello, serverVersion, sid, serverNonce);
            var toServer := [HelloMessage(hello), AuthenticateFor(t)];
            var toClient := [ChallengeFor(t), Ready(sid, role, expiresAt)];
            && ClientTalk(hello, toClient) == (toServer, Success(Session(sid, role, expiresAt, serverVersion)))
            && ServerTalk(serverVersion, sid, serverNonce, expiresAt, toServer)
               == (toClient, Success(Session(sid, role, expiresAt, version)))
  {
    hide Encode;
    var hello := OwnHello(role, version, clientNonce);
    var t := AuthTranscript(hello, serverVersion, sid, serverNonce);
    assert OnChallenge(hello, ChallengeFor(t)) == Success(t);
    assert OnHello(HelloMessage(hello), serverVersion, sid, serverNonce) == Success(t);
    assert OnAuthenticate(t, AuthenticateFor(t)) == Success(());
    assert [HelloMessage(hello)] + [AuthenticateFor(t)] == [HelloMessage(hello), AuthenticateFor(t)];
    assert [ChallengeFor(t)] + [Ready(sid, role, expiresAt)] == [ChallengeFor(t), Ready(sid, role, expiresAt)];
  }

  // ------------------------------------------------ many sessions on a hostile network

  datatype ClientPhase =
    | AwaitingChallenge
    | AwaitingReady(transcript: AuthTranscript)
    | ClientDone(transcript: AuthTranscript, session: Session)
    | ClientFailed(proved: Option<AuthTranscript>)

  datatype ServerPhase = AwaitingProof | ServerDone(expiresAt: nat) | ServerFailed

  /** One side's run: what it has read so far, and where it stands. */
  datatype ClientRun = ClientRun(hello: Hello, inbox: seq<ServerMessage>, phase: ClientPhase)

  datatype ServerRun = ServerRun(transcript: AuthTranscript, inbox: seq<ClientMessage>, phase: ServerPhase)

  /** `issued` holds the bytes of every proof made so far; `tokens` every random token drawn. */
  datatype State = State(
    clients: seq<ClientRun>, servers: seq<ServerRun>, issued: set<Bytes>, tokens: set<Bytes>)

  datatype Step =
    | StartClient(role: Role, version: Bytes, nonce: Bytes)
    | ServerHello(hello: ClientMessage, serverVersion: Bytes, sid: Bytes, nonce: Bytes)
    | ClientChallenge(client: nat, challenge: ServerMessage)
    | ServerAuthenticate(server: nat, proof: ClientMessage, expiresAt: nat)
    | ClientReady(client: nat, ready: ServerMessage)

  /** The network can deliver any message at all, but no proof nobody has made. */
  predicate Deliverable(issued: set<Bytes>, p: Proof) {
    p.Mac? ==> p.input in issued
  }

  predicate Fits(b: Bytes) {
    |b| < U64_LIMIT
  }

  predicate Enabled(s: State, step: Step) {
    match step
    case StartClient(_, version, nonce) => nonce !in s.tokens && Fits(version) && Fits(nonce)
    case ServerHello(m, serverVersion, sid, nonce) =>
      && sid !in s.tokens && nonce !in s.tokens && sid != nonce
      && Fits(serverVersion) && Fits(sid) && Fits(nonce)
      && (m.HelloMessage? ==> m.hello.protocolVersion < 0x1_0000
                              && Fits(m.hello.clientVersion) && Fits(m.hello.clientNonce))
      && (m.Authenticate? ==> Deliverable(s.issued, m.clientProof))
    case ClientChallenge(i, m) =>
      && i < |s.clients| && s.clients[i].phase.AwaitingChallenge?
      && (m.Challenge? ==> Deliverable(s.issued, m.serverProof)
                           && Fits(m.serverVersion) && Fits(m.sessionId) && Fits(m.serverNonce))
    case ServerAuthenticate(j, m, _) =>
      && j < |s.servers| && s.servers[j].phase.AwaitingProof?
      && (m.Authenticate? ==> Deliverable(s.issued, m.clientProof))
    case ClientReady(i, m) => i < |s.clients| && s.clients[i].phase.AwaitingReady?
  }

  function AfterChallenge(c: ClientRun, m: ServerMessage): ClientPhase {
    match OnChallenge(c.hello, m)
    case Failure(_) => ClientFailed(None)
    case Success(t) => AwaitingReady(t)
  }

  function AfterReady(t: AuthTranscript, m: ServerMessage): ClientPhase {
    match OnReady(t, m)
    case Failure(_) => ClientFailed(Some(t))
    case Success(session) => ClientDone(t, session)
  }

  function Apply(s: State, step: Step): State
    requires Enabled(s, step)
  {
    match step
    case StartClient(role, version, nonce) =>
      s.(clients := s.clients + [ClientRun(OwnHello(role, version, nonce), [], AwaitingChallenge)],
         tokens := s.tokens + {nonce})
    case ServerHello(m, serverVersion, sid, nonce) =>
      (match OnHello(m, serverVersion, sid, nonce)
       case Failure(_) => s
       case Success(t) =>
         s.(servers := s.servers + [ServerRun(t, [m], AwaitingProof)],
            issued := s.issued + {Encode(ServerSide, t)}, tokens := s.tokens + {sid, nonce}))
    case ClientChallenge(i, m) =>
      var c := s.clients[i];
      var phase := AfterChallenge(c, m);
      s.(clients := s.clients[i := c.(inbox := c.inbox + [m], phase := phase)],
         issued := if phase.AwaitingReady? then s.issued + {Encode(ClientSide, phase.transcript)} else s.issued)
    case ServerAuthenticate(j, m, expiresAt) =>
      var r := s.servers[j];
      s.(servers := s.servers[j := r.(inbox := r.inbox + [m],
           phase := if OnAuthenticate(r.transcript, m).Success? then ServerDone(expiresAt) else ServerFailed)])
    case ClientReady(i, m) =>
      var c := s.clients[i];
      s.(clients := s.clients[i := c.(inbox := c.inbox + [m], phase := AfterReady(c.phase.transcript, m))])
  }

  ghost predicate Run(ss: seq<State>, steps: seq<Step>) {
    && |ss| == |steps| + 1 && ss[0] == State([], [], {}, {})
    && forall i | 0 <= i < |steps| :: Enabled(ss[i], steps[i]) && ss[i + 1] == Apply(ss[i], steps[i])
  }

  /** The transcript of the challenge a client run has verified and answered. */
  function Proved(c: ClientRun): Option<AuthTranscript> {
    match c.phase
    case AwaitingChallenge => None
    case AwaitingReady(t) => Some(t)
    case ClientDone(t, _) => Some(t)
    case ClientFailed(t) => t
  }

  ghost predicate ClientHas(s: State, t: AuthTranscript) {
    exists i | 0 <= i < |s.clients| :: Proved(s.clients[i]) == Some(t)
  }

  ghost predicate ServerHas(s: State, t: AuthTranscript) {
    exists j | 0 <= j < |s.servers| :: s.servers[j].transcript == t
  }

  /** Every proof in existence was made by the side it names, in a run on its transcript. */
  ghost predicate ProofsExplained(s: State) {
    forall x | x in s.issued ::
      || (exists t :: Representable(t) && x == Encode(ServerSide, t) && ServerHas(s, t))
      || (exists t :: Representable(t) && x == Encode(ClientSide, t) && ClientHas(s, t))
  }

  ghost predicate RunsFit(s: State) {
    && (forall i | 0 <= i < |s.clients| ::
          && s.clients[i].hello.protocolVersion == PROTOCOL_VERSION
          && Fits(s.clients[i].hello.clientVersion) && Fits(s.clients[i].hello.clientNonce)
          && s.clients[i].hello.clientNonce in s.tokens)
    && (forall j | 0 <= j < |s.servers| ::
          Representable(s.servers[j].transcript)
          && s.servers[j].transcript.sessionId in s.tokens && s.servers[j].transcript.serverNonce in s.tokens)
  }

  ghost predicate Fresh(s: State) {
    && (forall i, j | 0 <= i < j < |s.clients| :: s.clients[i].hello.clientNonce != s.clients[j].hello.clientNonce)
    && (forall i, j | 0 <= i < j < |s.servers| ::
          s.servers[i].transcript.sessionId != s.servers[j].transcript.sessionId)
  }

  ghost predicate ClientsAnswered(s: State) {
    forall i | 0 <= i < |s.clients| && Proved(s.clients[i]).Some? ::
      && Proved(s.clients[i]).value.hello == s.clients[i].hello
      && ServerHas(s, Proved(s.clients[i]).value)
  }

  ghost predicate ServersAnswered(s: State) {
    forall j | 0 <= j < |s.servers| && s.servers[j].phase.ServerDone? :: ClientHas(s, s.servers[j].transcript)
  }

  ghost predicate Inv(s: State) {
    RunsFit(s) && Fresh(s) && ProofsExplained(s) && ClientsAnswered(s) && ServersAnswered(s)
  }

  /** Runs are only ever added, and a proof given is never forgotten. */
  lemma RunsPersist(s: State, step: Step)
    requires Enabled(s, step)
    ensures forall u :: ServerHas(s, u) ==> ServerHas(Apply(s, step), u)
    ensures forall u :: ClientHas(s, u) ==> ClientHas(Apply(s, step), u)
  {
    var t := Apply(s, step);
    forall u | ServerHas(s, u) ensures ServerHas(t, u) {
      var j :| 0 <= j < |s.servers| && s.servers[j].transcript == u;
      assert t.servers[j].transcript == u;
    }
    forall u | ClientHas(s, u) ensures ClientHas(t, u) {
      var i :| 0 <= i < |s.clients| && Proved(s.clients[i]) == Some(u);
      assert Proved(t.clients[i]) == Some(u);
    }
  }

  lemma StepKeepsRunsFit(s: State, step: Step)
    requires RunsFit(s) && Fresh(s) && Enabled(s, step)
    ensures RunsFit(Apply(s, step)) && Fresh(Apply(s, step))
  {
    hide Encode;
  }

  /** A verified challenge was made by a server run on this very transcript. */
  lemma ChallengeComesFromServer(s: State, hello: Hello, m: ServerMessage)
    requires ProofsExplained(s) && OnChallenge(hello, m).Success? && Deliverable(s.issued, m.serverProof)
    requires Representable(OnChallenge(hello, m).value)
    ensures ServerHas(s, OnChallenge(hello, m).value)
  {
    hide Encode, Representable;
    var t := OnChallenge(hello, m).value;
    var x := Encode(ServerSide, t);
    assert x in s.issued;
    if u :| Representable(u) && x == Encode(ServerSide, u) && ServerHas(s, u) {
      EncodeInjective(ServerSide, t, ServerSide, u);
    } else {
      var u :| Representable(u) && x == Encode(ClientSide, u) && ClientHas(s, u);
      EncodeInjective(ServerSide, t, ClientSide, u);
    }
  }

  /** A verified answer was made by a client run on this very transcript. */
  lemma AnswerComesFromClient(s: State, t: AuthTranscript, m: ClientMessage)
    requires ProofsExplained(s) && OnAuthenticate(t, m).Success? && Deliverable(s.issued, m.clientProof)
    requires Representable(t)
    ensures ClientHas(s, t)
  {
    hide Encode, Representable;
    var x := Encode(ClientSide, t);
    assert x in s.issued;
    if u :| Representable(u) && x == Encode(ClientSide, u) && ClientHas(s, u) {
      EncodeInjective(ClientSide, t, ClientSide, u);
    } else {
      var u :| Representable(u) && x == Encode(ServerSide, u) && ServerHas(s, u);
      EncodeInjective(ClientSide, t, ServerSide, u);
    }
  }

  lemma StepKeepsProofsExplained(s: State, step: Step)
    requires RunsFit(s) && ProofsExplained(s) && Enabled(s, step)
    ensures ProofsExplained(Apply(s, step))
  {
    hide Encode, ServerHas, ClientHas;
    var t := Apply(s, step);
    RunsPersist(s, step);
    if step.ServerHello? && OnHello(step.hello, step.serverVersion, step.sid, step.nonce).Success? {
      NewServerRun(s, step);
    } else if step.ClientChallenge? && OnChallenge(s.clients[step.client].hello, step.challenge).Success? {
      NewClientProof(s, step);
    }
    forall x | x in t.issued
      ensures (exists u :: Representable(u) && x == Encode(ServerSide, u) && ServerHas(t, u))
           || (exists u :: Representable(u) && x == Encode(ClientSide, u) && ClientHas(t, u))
    {
      if x in s.issued {
        if u :| Representable(u) && x == Encode(ServerSide, u) && ServerHas(s, u) {
          assert ServerHas(t, u);
        } else {
          var u :| Representable(u) && x == Encode(ClientSide, u) && ClientHas(s, u);
          assert ClientHas(t, u);
        }
      }
    }
  }

  lemma NewServerRun(s: State, step: Step)
    requires Enabled(s, step) && step.ServerHello?
    requires OnHello(step.hello, step.serverVersion, step.sid, step.nonce).Success?
    ensures var u := OnHello(step.hello, step.serverVersion, step.sid, step.nonce).value;
            Representable(u) && ServerHas(Apply(s, step), u)
  {
    hide Encode;
    var t := Apply(s, step);
    assert t.servers[|s.servers|].transcript == OnHello(step.hello, step.serverVersion, step.sid, step.nonce).value;
  }

  lemma NewClientProof(s: State, step: Step)
    requires RunsFit(s) && Enabled(s, step) && step.ClientChallenge?
    requires OnChallenge(s.clients[step.client].hello, step.challenge).Success?
    ensures var u := OnChallenge(s.clients[step.client].hello, step.challenge).value;
            Representable(u) && ClientHas(Apply(s, step), u)
  {
    hide Encode;
    var u := OnChallenge(s.clients[step.client].hello, step.challenge).value;
    assert Proved(Apply(s, step).clients[step.client]) == Some(u);
  }

  lemma StepKeepsAnswers(s: State, step: Step)
    requires Inv(s) && Enabled(s, step)
    ensures ClientsAnswered(Apply(s, step)) && ServersAnswered(Apply(s, step))
  {
    hide Encode, ServerHas, ClientHas, Fresh, ProofsExplained, Representable, Fits;
    RunsPersist(s, step);
    if step.ClientChallenge? && OnChallenge(s.clients[step.client].hello, step.challenge).Success? {
      NewClientProof(s, step);
      ChallengeComesFromServer(s, s.clients[step.client].hello, step.challenge);
    }
    if step.ServerAuthenticate? && OnAuthenticate(s.servers[step.server].transcript, step.proof).Success? {
      AnswerComesFromClient(s, s.servers[step.server].transcript, step.proof);
    }
  }

  lemma {:induction false} InvHolds(ss: seq<State>, steps: seq<Step>, n: nat)
    requires Run(ss, steps) && n < |ss|
    ensures Inv(ss[n])
    decreases n
  {
    hide RunsFit, Fresh, ProofsExplained, ClientsAnswered, ServersAnswered, Apply;
    if n == 0 {
      EmptyInv();
    } else {
      InvHolds(ss, steps, n - 1);
      StepKeepsRunsFit(ss[n - 1], steps[n - 1]);
      StepKeepsProofsExplained(ss[n - 1], steps[n - 1]);
      StepKeepsAnswers(ss[n - 1], steps[n - 1]);
    }
  }

  lemma EmptyInv()
    ensures Inv(State([], [], {}, {}))
  {
  }

  /**
   A server that completes agrees with exactly one client run on role,
   versions, both nonces and the session id, and no other server run shares them.
   */
  lemma ServerAgreement(ss: seq<State>, steps: seq<Step>, n: nat, j: nat) returns (i: nat)
    requires Run(ss, steps) && n < |ss| && j < |ss[n].servers| && ss[n].servers[j].phase.ServerDone?
    ensures i < |ss[n].clients| && Proved(ss[n].clients[i]) == Some(ss[n].servers[j].transcript)
    ensures ss[n].clients[i].hello == ss[n].servers[j].transcript.hello
    ensures forall k | 0 <= k < |ss[n].clients| && k != i :: Proved(ss[n].clients[k]) != Some(ss[n].servers[j].transcript)
    ensures forall k | 0 <= k < |ss[n].servers| && k != j :: ss[n].servers[k].transcript != ss[n].servers[j].transcript
  {
    hide Apply, Enabled, RunsFit, ProofsExplained, ServerHas;
    var s := ss[n];
    InvHolds(ss, steps, n);
    assert ClientHas(s, s.servers[j].transcript);
    i :| 0 <= i < |s.clients| && Proved(s.clients[i]) == Some(s.servers[j].transcript);
    forall k | 0 <= k < |s.clients| && k != i ensures Proved(s.clients[k]) != Some(s.servers[j].transcript) {
      assert s.clients[k].hello.clientNonce != s.clients[i].hello.clientNonce by {
        assert if k < i then s.clients[k].hello.clientNonce != s.clients[i].hello.clientNonce
               else s.clients[i].hello.clientNonce != s.clients[k].hello.clientNonce;
      }
    }
    forall k | 0 <= k < |s.servers| && k != j ensures s.servers[k].transcript != s.servers[j].transcript {
      assert if k < j then s.servers[k].transcript.sessionId != s.servers[j].transcript.sessionId
             else s.servers[j].transcript.sessionId != s.servers[k].transcript.sessionId;
    }
  }

  /** A client that completes has verified the challenge of exactly one server run, made for its own hello. */
  lemma ClientAgreement(ss: seq<State>, steps: seq<Step>, n: nat, i: nat) returns (j: nat)
    requires Run(ss, steps) && n < |ss| && i < |ss[n].clients| && ss[n].clients[i].phase.ClientDone?
    ensures j < |ss[n].servers| && ss[n].servers[j].transcript == ss[n].clients[i].phase.transcript
    ensures ss[n].servers[j].transcript.hello == ss[n].clients[i].hello
    ensures forall k | 0 <= k < |ss[n].servers| && k != j ::
              ss[n].servers[k].transcript.sessionId != ss[n].servers[j].transcript.sessionId
  {
    hide Apply, Enabled, RunsFit, ProofsExplained, ClientHas;
    var s := ss[n];
    InvHolds(ss, steps, n);
    assert Proved(s.clients[i]).Some?;
    assert ServerHas(s, s.clients[i].phase.transcript);
    j :| 0 <= j < |s.servers| && s.servers[j].transcript == s.clients[i].phase.transcript;
    forall k | 0 <= k < |s.servers| && k != j
      ensures s.servers[k].transcript.sessionId != s.servers[j].transcript.sessionId
    {
      assert if k < j then s.servers[k].transcript.sessionId != s.servers[j].transcript.sessionId
             else s.servers[j].transcript.sessionId != s.servers[k].transcript.sessionId;
    }
  }

  // ------------------------------------------------ each run is the side's own code

  /** What a server run has written so far, by its own code; `expiresAt` matters only once it is done. */
  function ServerWrote(r: ServerRun): seq<ServerMessage> {
    var t := r.transcript;
    ServerTalk(t.serverVersion, t.sessionId, t.serverNonce, if r.phase.ServerDone? then r.phase.expiresAt else 0, r.inbox).0
  }

  /** The client's method, given what this run has read, has written and returned what the run says. */
  ghost predicate ClientTalks(c: ClientRun) {
    var talk := ClientTalk(c.hello, c.inbox);
    && talk.0 == [HelloMessage(c.hello)] + (if Proved(c).Some? then [AuthenticateFor(Proved(c).value)] else [])
    && match c.phase
       case AwaitingChallenge => c.inbox == [] && talk.1 == Failure(Frame)
       case AwaitingReady(t) =>
         |c.inbox| == 1 && OnChallenge(c.hello, c.inbox[0]) == Success(t) && talk.1 == Failure(Frame)
       case ClientDone(t, session) =>
         |c.inbox| == 2 && OnChallenge(c.hello, c.inbox[0]) == Success(t) && talk.1 == Success(session)
       case ClientFailed(_) => c.inbox != [] && talk.1.Failure?
  }

  /** And so for the server's method, for whatever expiry it would grant. */
  ghost predicate ServerTalks(r: ServerRun) {
    var t := r.transcript;
    && |r.inbox| == (if r.phase.AwaitingProof? then 1 else 2)
    && OnHello(r.inbox[0], t.serverVersion, t.sessionId, t.serverNonce) == Success(t)
    && forall e: nat ::
         var talk := ServerTalk(t.serverVersion, t.sessionId, t.serverNonce, e, r.inbox);
         match r.phase
         case AwaitingProof => talk == ([ChallengeFor(t)], Failure(Frame))
         case ServerDone(_) =>
           talk == ([ChallengeFor(t), Ready(t.sessionId, t.hello.role, e)],
                    Success(Session(t.sessionId, t.hello.role, e, t.hello.clientVersion)))
         case ServerFailed => talk.1.Failure? && forall m | m in talk.0 :: !m.Ready?
  }

  ghost predicate AllTalk(s: State) {
    && (forall i | 0 <= i < |s.clients| :: ClientTalks(s.clients[i]))
    && (forall j | 0 <= j < |s.servers| :: ServerTalks(s.servers[j]))
  }

  lemma ClientStartsTalking(hello: Hello)
    ensures ClientTalks(ClientRun(hello, [], AwaitingChallenge))
  {
  }

  lemma ChallengeKeepsTalking(c: ClientRun, m: ServerMessage)
    requires ClientTalks(c) && c.phase.AwaitingChallenge?
    ensures ClientTalks(c.(inbox := c.inbox + [m], phase := AfterChallenge(c, m)))
  {
    hide AuthenticateFor, OnChallenge;
    assert c.inbox + [m] == [m];
  }

  lemma ReadyKeepsTalking(c: ClientRun, m: ServerMessage)
    requires ClientTalks(c) && c.phase.AwaitingReady?
    ensures ClientTalks(c.(inbox := c.inbox + [m], phase := AfterReady(c.phase.transcript, m)))
  {
    hide AuthenticateFor, OnChallenge, OnReady;
    assert (c.inbox + [m])[0] == c.inbox[0] && (c.inbox + [m])[1] == m;
  }

  lemma ServerStartsTalking(t: AuthTranscript, m: ClientMessage)
    requires OnHello(m, t.serverVersion, t.sessionId, t.serverNonce) == Success(t)
    ensures ServerTalks(ServerRun(t, [m], AwaitingProof))
  {
    hide ChallengeFor, OnHello;
  }

  lemma ChallengeIsNoReady(t: AuthTranscript)
    ensures !ChallengeFor(t).Ready?
  {
  }

  lemma ProofKeepsTalking(r: ServerRun, m: ClientMessage, expiresAt: nat)
    requires ServerTalks(r) && r.phase.AwaitingProof?
    ensures ServerTalks(r.(inbox := r.inbox + [m],
              phase := if OnAuthenticate(r.transcript, m).Success? then ServerDone(expiresAt) else ServerFailed))
  {
    hide OnHello, OnAuthenticate, ChallengeFor;
    var both := r.inbox + [m];
    assert both[0] == r.inbox[0] && both[1] == m;
    var t := r.transcript;
    forall e: nat
      ensures var talk := ServerTalk(t.serverVersion, t.sessionId, t.serverNonce, e, both);
              if OnAuthenticate(t, m).Success? then
                talk == ([ChallengeFor(t), Ready(t.sessionId, t.hello.role, e)],
                         Success(Session(t.sessionId, t.hello.role, e, t.hello.clientVersion)))
              else talk.1.Failure? && forall m | m in talk.0 :: !m.Ready?
    {
      assert [ChallengeFor(t)] + [Ready(t.sessionId, t.hello.role, e)]
          == [ChallengeFor(t), Ready(t.sessionId, t.hello.role, e)];
      ChallengeIsNoReady(t);
    }
  }

  lemma StepKeepsTalking(s: State, step: Step)
    requires AllTalk(s) && Enabled(s, step)
    ensures AllTalk(Apply(s, step))
  {
    hide ClientTalks, ServerTalks, Encode, OnReady, OnChallenge, OnAuthenticate, Fits;
    match step {
      case StartClient(role, version, nonce) => ClientStartsTalking(OwnHello(role, version, nonce));
      case ServerHello(m, serverVersion, sid, nonce) =>
        var hello := OnHello(m, serverVersion, sid, nonce);
        if hello.Success? {
          ServerStartsTalking(hello.value, m);
        }
      case ClientChallenge(i, m) => ChallengeKeepsTalking(s.clients[i], m);
      case ServerAuthenticate(j, m, expiresAt) => ProofKeepsTalking(s.servers[j], m, expiresAt);
      case ClientReady(i, m) => ReadyKeepsTalking(s.clients[i], m);
    }
  }

  /**
   On the hostile network too, each run is one call of its side's method: given
   the messages it was delivered, the method has written what the run stands for
   and returns the session the run ended with, or no session.
   */
  lemma {:induction false} RunsAreTheMethods(ss: seq<State>, steps: seq<Step>, n: nat)
    requires Run(ss, steps) && n < |ss|
    ensures forall i | 0 <= i < |ss[n].clients| :: ClientTalks(ss[n].clients[i])
    ensures forall j | 0 <= j < |ss[n].servers| :: ServerTalks(ss[n].servers[j])
    decreases n
  {
    hide ClientTalks, ServerTalks, Apply, Enabled;
    if n > 0 {
      RunsAreTheMethods(ss, steps, n - 1);
      StepKeepsTalking(ss[n - 1], steps[n - 1]);
    }
  }

  // ------------------------------------------------ the last message

  /**
   A completed client and the server whose challenge it verified hold the same
   expiry exactly when the Ready the client was handed is one that server wrote.
   A Ready carries its expiry, so this is close to what it means to write one; that
   the two can differ is ReadyCanBeForged, that runs write what they stand for is
   RunsAreTheMethods.
   */
  lemma ExpiryAgreesIff(ss: seq<State>, steps: seq<Step>, n: nat, i: nat, j: nat)
    requires Run(ss, steps) && n < |ss| && i < |ss[n].clients| && j < |ss[n].servers|
    requires ss[n].clients[i].phase.ClientDone?
    requires ss[n].servers[j].transcript == ss[n].clients[i].phase.transcript
    ensures |ss[n].clients[i].inbox| == 2
    ensures var server := ss[n].servers[j];
            server.phase.ServerDone? && server.phase.expiresAt == ss[n].clients[i].phase.session.expiresAt
            <==> ss[n].clients[i].inbox[1] in ServerWrote(server)
  {
    hide Apply, Enabled, Encode;
    RunsAreTheMethods(ss, steps, n);
    var c, r := ss[n].clients[i], ss[n].servers[j];
    DoneReadAReady(c);
    ReadyIsWrittenWhenDone(r);
  }

  lemma DoneReadAReady(c: ClientRun)
    requires ClientTalks(c) && c.phase.ClientDone?
    ensures var t := c.phase.transcript;
            |c.inbox| == 2 && c.inbox[1] == Ready(t.sessionId, t.hello.role, c.phase.session.expiresAt)
  {
    hide Encode;
  }

  lemma ReadyIsWrittenWhenDone(r: ServerRun)
    requires ServerTalks(r)
    ensures forall e: nat, role, sid :: Ready(sid, role, e) in ServerWrote(r) <==>
              r.phase == ServerDone(e) && sid == r.transcript.sessionId && role == r.transcript.hello.role
  {
    hide Encode, ServerTalk;
    var t := r.transcript;
    var e := if r.phase.ServerDone? then r.phase.expiresAt else 0;
    var talk := ServerTalk(t.serverVersion, t.sessionId, t.serverNonce, e, r.inbox);
    assert ServerWrote(r) == talk.0;
  }

  lemma HelloAccepted(s: State, t: AuthTranscript)
    requires t.hello.protocolVersion == PROTOCOL_VERSION && Fits(t.hello.clientVersion) && Fits(t.hello.clientNonce)
    requires Fits(t.serverVersion) && Fits(t.sessionId) && Fits(t.serverNonce)
    requires t.sessionId !in s.tokens && t.serverNonce !in s.tokens && t.sessionId != t.serverNonce
    ensures var step := ServerHello(HelloMessage(t.hello), t.serverVersion, t.sessionId, t.serverNonce);
            && Enabled(s, step)
            && Apply(s, step) == State(s.clients, s.servers + [ServerRun(t, [HelloMessage(t.hello)], AwaitingProof)],
                                       s.issued + {Encode(ServerSide, t)}, s.tokens + {t.sessionId, t.serverNonce})
  {
    hide Encode;
  }

  lemma ChallengeAccepted(s: State, t: AuthTranscript)
    requires |s.clients| == 1 && s.clients[0] == ClientRun(t.hello, [], AwaitingChallenge)
    requires Encode(ServerSide, t) in s.issued && Fits(t.serverVersion) && Fits(t.sessionId) && Fits(t.serverNonce)
    ensures var step := ClientChallenge(0, ChallengeFor(t));
            && Enabled(s, step)
            && Apply(s, step) == s.(clients := [ClientRun(t.hello, [ChallengeFor(t)], AwaitingReady(t))],
                                    issued := s.issued + {Encode(ClientSide, t)})
  {
    hide Encode;
    var none: seq<ServerMessage> := [];
    assert none + [ChallengeFor(t)] == [ChallengeFor(t)];
    assert OnChallenge(t.hello, ChallengeFor(t)) == Success(t);
  }

  lemma ReadyAccepted(s: State, t: AuthTranscript, expiresAt: nat)
    requires |s.clients| == 1 && s.clients[0] == ClientRun(t.hello, [ChallengeFor(t)], AwaitingReady(t))
    ensures var ready := Ready(t.sessionId, t.hello.role, expiresAt);
            var session := Session(t.sessionId, t.hello.role, expiresAt, t.serverVersion);
            && Enabled(s, ClientReady(0, ready))
            && Apply(s, ClientReady(0, ready))
               == s.(clients := [ClientRun(t.hello, [ChallengeFor(t), ready], ClientDone(t, session))])
  {
    hide Encode;
    var ready := Ready(t.sessionId, t.hello.role, expiresAt);
    assert [ChallengeFor(t)] + [ready] == [ChallengeFor(t), ready];
  }

  lemma WaitingServerWroteNoReady(r: ServerRun)
    requires r.inbox == [HelloMessage(r.transcript.hello)]
    ensures forall m | m in ServerWrote(r) :: !m.Ready?
  {
    hide Encode;
  }

  /**
   The last message carries no proof. Whatever the role, versions and tokens, a
   run of four steps completes a client with any expiry one likes, while no
   server has completed and none has written a Ready.
   */
  lemma ReadyCanBeForged(
    role: Role, version: Bytes, clientNonce: Bytes, serverVersion: Bytes, sid: Bytes, serverNonce: Bytes, expiresAt: nat)
    returns (ss: seq<State>, steps: seq<Step>)
    requires Fits(version) && Fits(clientNonce) && Fits(serverVersion) && Fits(sid) && Fits(serverNonce)
    requires sid != serverNonce && clientNonce != sid && clientNonce != serverNonce
    ensures Run(ss, steps) && |steps| == 4
    ensures |ss[4].clients| == 1 && |ss[4].servers| == 1
    ensures ss[4].clients[0].phase.ClientDone? && ss[4].clients[0].phase.session.expiresAt == expiresAt
    ensures ss[4].servers[0].transcript == ss[4].clients[0].phase.transcript
    ensures ss[4].servers[0].phase == AwaitingProof && forall m | m in ServerWrote(ss[4].servers[0]) :: !m.Ready?
  {
    hide Encode, ServerWrote, ServerTalk, OnHello, OnChallenge, OnReady, OnAuthenticate, Prove;
    var hello := OwnHello(role, version, clientNonce);
    var t := AuthTranscript(hello, serverVersion, sid, serverNonce);
    var ready := Ready(sid, role, expiresAt);
    var server := ServerRun(t, [HelloMessage(hello)], AwaitingProof);
    var session := Session(sid, role, expiresAt, serverVersion);
    var s1 := State([ClientRun(hello, [], AwaitingChallenge)], [], {}, {clientNonce});
    var s2 := State(s1.clients, [server], {Encode(ServerSide, t)}, {clientNonce} + {sid, serverNonce});
    var s3 := s2.(clients := [ClientRun(hello, [ChallengeFor(t)], AwaitingReady(t))],
                  issued := s2.issued + {Encode(ClientSide, t)});
    steps := [StartClient(role, version, clientNonce), ServerHello(HelloMessage(hello), serverVersion, sid, serverNonce),
              ClientChallenge(0, ChallengeFor(t)), ClientReady(0, ready)];
    ss := [State([], [], {}, {}), s1, s2, s3,
           s3.(clients := [ClientRun(hello, [ChallengeFor(t), ready], ClientDone(t, session))])];
    assert Enabled(ss[0], steps[0]) && Apply(ss[0], steps[0]) == s1;
    hide Enabled, Apply;
    HelloAccepted(s1, t);
    ChallengeAccepted(s2, t);
    ReadyAccepted(s3, t, expiresAt);
    WaitingServerWroteNoReady(server);
    assert forall k | 0 <= k < 4 :: Enabled(ss[k], steps[k]) && ss[k + 1] == Apply(ss[k], steps[k]);
  }
}
