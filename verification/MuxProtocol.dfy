/**
 How a blocked call of an intercepted program comes back. A client writes a request into a channel and reads
 responses until one is not WAIT_NEXT. The event loop answers requests; when there is nothing to receive it
 answers WAIT_NEXT and later, woken through a pipe, takes a packet and writes the final response. The IP thread
 puts packets into the receive queue and bytes into the pipe, and writes the final response of a connect itself.
 All three interleave freely; the client has one call at a time.
 */
module MuxProtocol {

  const RECVQ_LIMIT: nat := 128
  const PIPE_BYTES: nat := 65536
  const READ_BYTES: nat := 8

  type Packet = nat

  datatype Request = Recvfrom | Connect | Other

  datatype Result = Data(p: Packet) | Connected | Plain

  /** Which call a response answers is not in the response; it is kept here to say that the right one gets it. */
  datatype Answer = Answer(call: nat, result: Result)

  datatype Response = WaitNext | Final(a: Answer)

  datatype Pending = Pending(call: nat, req: Request)

  datatype Loop =
    | Waits                          // in poll
    | TryTake(k: nat)                // recvfromCall: try_takeFromRecvQ
    | SetWaiting(k: nat)             // the queue was empty: set the callback and the flag
    | StartConnect(k: nat)           // connectCall: set the callback, send the SYN
    | Reply(r: Response)             // onReadReady: write
    | Draining                       // sChannelReadCb: read the pipe until it is empty
    | CheckWaiting                   // look at the flag
    | Taking(k: nat)                 // onAsyncNewPacket: takeFromRecvQ, which blocks
    | Writing(k: nat, p: Packet)     // write the response
    | Clearing                       // clear the flag

  datatype Ip =
    | Rests
    | Enqueue(p: Packet)             // putToRecvQ: below the limit, about to enqueue
    | Notify                         // about to write to the pipe
    | Establish(k: nat)              // TcpPcb::recv: about to run the callback of connect

  datatype Conn = NotConnected | SynSent(k: nat) | Established

  /** The last two fields keep the history of the pipe: how many packets have been announced by a byte written,
      and how many of those had been when the event loop last found the pipe empty. */
  datatype State = State(
    blocked: bool, asked: seq<Request>, results: seq<Answer>,
    requests: seq<Pending>, toClient: seq<Response>,
    recvQ: seq<Packet>, accepted: seq<Packet>, pipe: nat, waiting: bool, waitingFor: nat,
    loop: Loop, ip: Ip, conn: Conn, announced: nat, read: nat)

  datatype Move = Call(req: Request) | Read | LoopRequest | LoopPipe | LoopGo | IpPacket(p: Packet) | IpSynAck | IpGo

  function ClientCall(s: State, req: Request): State {
    if s.blocked || (req == Connect && s.conn != NotConnected) then s
    else s.(blocked := true, asked := s.asked + [req], requests := s.requests + [Pending(|s.asked|, req)])
  }

  /** channel_recv: WAIT_NEXT is skipped, whatever call it belongs to. */
  function ClientRead(s: State): State {
    if !s.blocked || s.toClient == [] then s else
    var rest := s.(toClient := s.toClient[1..]);
    match s.toClient[0]
    case WaitNext => rest
    case Final(a) => rest.(blocked := false, results := s.results + [a])
  }

  function LoopTakesRequest(s: State): State {
    if s.loop != Waits || s.requests == [] then s else
    var Pending(k, req) := s.requests[0];
    s.(requests := s.requests[1..],
       loop := match req
         case Recvfrom => TryTake(k)
         case Connect => StartConnect(k)
         case Other => Reply(Final(Answer(k, Plain))))
  }

  function LoopStep(s: State): State {
    match s.loop
    case Waits => s
    case TryTake(k) =>
      if s.recvQ == [] then s.(loop := SetWaiting(k))
      else s.(recvQ := s.recvQ[1..], loop := Reply(Final(Answer(k, Data(s.recvQ[0])))))
    case SetWaiting(k) => s.(waiting := true, waitingFor := k, loop := Reply(WaitNext))
    case StartConnect(k) => s.(conn := SynSent(k), loop := Reply(WaitNext))
    case Reply(r) => s.(toClient := s.toClient + [r], loop := Waits)
    case Draining =>
      if s.pipe > 0 then s.(pipe := if s.pipe > READ_BYTES then s.pipe - READ_BYTES else 0)
      else s.(loop := CheckWaiting, read := s.announced)
    case CheckWaiting => s.(loop := if s.waiting then Taking(s.waitingFor) else Waits)
    case Taking(k) =>
      if s.recvQ == [] then s else s.(recvQ := s.recvQ[1..], loop := Writing(k, s.recvQ[0]))
    case Writing(k, p) => s.(toClient := s.toClient + [Final(Answer(k, Data(p)))], loop := Clearing)
    case Clearing => s.(waiting := false, loop := Waits)
  }

  function IpStep(s: State): State {
    match s.ip
    case Rests => s
    case Enqueue(p) => s.(recvQ := s.recvQ + [p], accepted := s.accepted + [p], ip := Notify)
    case Notify => s.(pipe := if s.pipe < PIPE_BYTES then s.pipe + 1 else s.pipe, announced := |s.accepted|, ip := Rests)
    case Establish(k) => s.(toClient := s.toClient + [Final(Answer(k, Connected))], ip := Rests)
  }

  function Step(s: State, m: Move): State {
    match m
    case Call(req) => ClientCall(s, req)
    case Read => ClientRead(s)
    case LoopRequest => LoopTakesRequest(s)
    case LoopPipe => if s.loop == Waits && s.pipe > 0 then s.(loop := Draining) else s
    case LoopGo => LoopStep(s)
    case IpPacket(p) => if s.ip == Rests && |s.recvQ| <= RECVQ_LIMIT then s.(ip := Enqueue(p)) else s
    case IpSynAck => if s.ip == Rests && s.conn.SynSent? then s.(ip := Establish(s.conn.k), conn := Established) else s
    case IpGo => IpStep(s)
  }

  function Run(s: State, moves: seq<Move>): State
    decreases |moves|
  {
    if moves == [] then s else Step(Run(s, moves[..|moves| - 1]), moves[|moves| - 1])
  }

  function Init(): State {
    State(false, [], [], [], [], [], [], 0, false, 0, Waits, Rests, NotConnected, 0, 0)
  }

  // ----- Every call is owed exactly one answer, by one party -----

  function Finals(q: seq<Response>): seq<Answer> {
    if q == [] then [] else
    Finals(q[..|q| - 1]) + if q[|q| - 1].Final? then [q[|q| - 1].a] else []
  }

  /** The answers written so far, in the order of the channel. */
  function Written(s: State): seq<Answer> {
    s.results + Finals(s.toClient)
  }

  /** The event loop has to answer call k for request req. */
  predicate LoopOwes(loop: Loop, k: nat, req: Request) {
    match loop
    case TryTake(j) => j == k && req == Recvfrom
    case SetWaiting(j) => j == k && req == Recvfrom
    case StartConnect(j) => j == k && req == Connect
    case Reply(r) => r.Final? && r.a.call == k && Fits(req, r.a.result)
    case Taking(j) => j == k && req == Recvfrom
    case Writing(j, _) => j == k && req == Recvfrom
    case _ => false
  }

  predicate LoopFree(loop: Loop) {
    loop.Waits? || loop == Reply(WaitNext) || loop.Draining? || loop.CheckWaiting? || loop.Clearing?
  }

  predicate Fits(req: Request, result: Result) {
    match req
    case Recvfrom => result.Data?
    case Connect => result.Connected?
    case Other => result.Plain?
  }

  predicate Answering(loop: Loop) {
    loop.Taking? || loop.Writing? || loop.Clearing?
  }

  /** Who has to answer. */
  datatype Debtor = Nobody | Channel | EventLoop | Waiting | Handshake | IpThread

  /** Call k is owed an answer by this party and by no other. */
  predicate OwedBy(s: State, d: Debtor, k: nat, req: Request) {
    && s.requests == (if d == Channel then [Pending(k, req)] else [])
    && (if d == EventLoop then LoopOwes(s.loop, k, req) else LoopFree(s.loop))
    && (if d == Waiting then s.waiting && !Answering(s.loop) && s.waitingFor == k && req == Recvfrom
        else s.waiting ==> Answering(s.loop))
    && (if d == Handshake then s.conn == SynSent(k) && req == Connect else !s.conn.SynSent?)
    && (if d == IpThread then s.ip == Establish(k) && req == Connect else !s.ip.Establish?)
    && (Answering(s.loop) ==> s.waiting)
  }

  /** The answers come in the order of the calls and are of the right kind. */
  predicate InOrder(written: seq<Answer>, asked: seq<Request>) {
    |written| <= |asked| && forall i :: 0 <= i < |written| ==> written[i].call == i && Fits(asked[i], written[i].result)
  }

  ghost predicate CallsOk(s: State, d: Debtor) {
    && InOrder(Written(s), s.asked)
    && |s.asked| == |s.results| + (if s.blocked then 1 else 0)
    && |s.asked| == |Written(s)| + (if d == Nobody then 0 else 1)
    && OwedBy(s, d, |Written(s)|, if d == Nobody then Other else s.asked[|s.asked| - 1])
  }

  /** How the debt passes on. */
  function Next(s: State, d: Debtor, m: Move): Debtor {
    match m
    case Call(req) => if Step(s, m) == s then d else Channel
    case Read => d
    case LoopRequest => if s.loop == Waits && s.requests != [] then EventLoop else d
    case LoopPipe => d
    case LoopGo =>
      (match s.loop
       case SetWaiting(_) => Waiting
       case StartConnect(_) => Handshake
       case Reply(r) => if r.Final? then Nobody else d
       case CheckWaiting => if s.waiting then EventLoop else d
       case Writing(_, _) => Nobody
       case _ => d)
    case IpPacket(_) => d
    case IpSynAck => if s.ip == Rests && s.conn.SynSent? then IpThread else d
    case IpGo => if s.ip.Establish? then Nobody else d
  }

  lemma FinalsMore(q: seq<Response>, r: Response)
    ensures Finals(q + [r]) == Finals(q) + if r.Final? then [r.a] else []
  {
    assert (q + [r])[..|q|] == q;
  }

  lemma {:induction false} FinalsFirst(q: seq<Response>)
    requires q != []
    ensures Finals(q) == (if q[0].Final? then [q[0].a] else []) + Finals(q[1..])
  {
    if |q| > 1 {
      FinalsFirst(q[..|q| - 1]);
      assert q[..|q| - 1][1..] == q[1..][..|q| - 2];
    } else {
      assert q[..0] == [] && q[1..] == [];
    }
  }

  lemma AnswerWritten(s: State, s': State, a: Answer)
    requires s'.toClient == s.toClient + [Final(a)] && s'.results == s.results && s'.asked == s.asked
    requires InOrder(Written(s), s.asked) && |Written(s)| < |s.asked|
    requires a.call == |Written(s)| && Fits(s.asked[|Written(s)|], a.result)
    ensures InOrder(Written(s'), s'.asked) && |Written(s')| == |Written(s)| + 1
  {
    FinalsMore(s.toClient, Final(a));
    assert Written(s') == Written(s) + [a];
  }

  lemma CallKept(s: State, d: Debtor, req: Request)
    requires CallsOk(s, d)
    ensures CallsOk(Step(s, Call(req)), Next(s, d, Call(req)))
  {
  }

  lemma ReadKept(s: State, d: Debtor)
    requires CallsOk(s, d)
    ensures CallsOk(Step(s, Read), Next(s, d, Read))
  {
    hide Finals, InOrder, Fits, OwedBy;
    if s.blocked && s.toClient != [] {
      ReadsSame(s.results, s.toClient);
      FinalsFirst(s.toClient);
      assert s.results + [] == s.results;
      assert Written(Step(s, Read)) == Written(s);
      ReadOwes(s, d);
    }
  }

  lemma ReadOwes(s: State, d: Debtor)
    requires s.blocked && s.toClient != []
    ensures forall k, req :: OwedBy(s, d, k, req) ==> OwedBy(Step(s, Read), d, k, req)
  {
  }

  lemma ReadsSame(results: seq<Answer>, q: seq<Response>)
    requires q != []
    ensures results + Finals(q) == (results + if q[0].Final? then [q[0].a] else []) + Finals(q[1..])
  {
    hide Finals;
    FinalsFirst(q);
  }

  lemma LoopRequestKept(s: State, d: Debtor)
    requires CallsOk(s, d)
    ensures CallsOk(Step(s, LoopRequest), Next(s, d, LoopRequest))
  {
    hide Finals;
  }

  lemma ReplyKept(s: State, d: Debtor)
    requires CallsOk(s, d) && s.loop.Reply?
    ensures CallsOk(Step(s, LoopGo), Next(s, d, LoopGo))
  {
    hide Finals, InOrder, Written;
    var s' := Step(s, LoopGo);
    var r := s.loop.r;
    if r.Final? {
      assert d == EventLoop;
      AnswerWritten(s, s', r.a);
    } else {
      NoAnswerWritten(s, s');
    }
  }

  lemma NoAnswerWritten(s: State, s': State)
    requires s'.toClient == s.toClient + [WaitNext] && s'.results == s.results
    ensures Written(s') == Written(s)
  {
    FinalsMore(s.toClient, WaitNext);
  }

  lemma WritingKept(s: State, d: Debtor)
    requires CallsOk(s, d) && s.loop.Writing?
    ensures CallsOk(Step(s, LoopGo), Next(s, d, LoopGo))
  {
    hide Finals, InOrder, Written;
    var s' := Step(s, LoopGo);
    assert d == EventLoop;
    AnswerWritten(s, s', Answer(s.loop.k, Data(s.loop.p)));
  }

  lemma LoopGoKept(s: State, d: Debtor)
    requires CallsOk(s, d)
    ensures CallsOk(Step(s, LoopGo), Next(s, d, LoopGo))
  {
    hide Finals, InOrder;
    match s.loop
    case Reply(_) => ReplyKept(s, d);
    case Writing(_, _) => WritingKept(s, d);
    case _ =>
  }

  lemma IpKept(s: State, d: Debtor, m: Move)
    requires CallsOk(s, d) && (m.IpPacket? || m.IpSynAck? || m.IpGo? || m.LoopPipe?)
    ensures CallsOk(Step(s, m), Next(s, d, m))
  {
    hide Finals;
    if m == IpGo && s.ip.Establish? {
      AnswerWritten(s, Step(s, m), Answer(s.ip.k, Connected));
    }
  }

  lemma StepKeepsCalls(s: State, d: Debtor, m: Move)
    requires CallsOk(s, d)
    ensures CallsOk(Step(s, m), Next(s, d, m))
  {
    match m
    case Call(req) => CallKept(s, d, req);
    case Read => ReadKept(s, d);
    case LoopRequest => LoopRequestKept(s, d);
    case LoopGo => LoopGoKept(s, d);
    case _ => IpKept(s, d, m);
  }

  lemma {:induction false} RunKeepsCalls(moves: seq<Move>) returns (d: Debtor)
    ensures CallsOk(Run(Init(), moves), d)
    decreases |moves|
  {
    if moves == [] {
      d := Nobody;
    } else {
      var before := moves[..|moves| - 1];
      var d0 := RunKeepsCalls(before);
      StepKeepsCalls(Run(Init(), before), d0, moves[|moves| - 1]);
      d := Next(Run(Init(), before), d0, moves[|moves| - 1]);
    }
  }

  // ----- Every accepted packet goes to one recvfrom, in order -----

  function Packets(answers: seq<Answer>): seq<Packet> {
    if answers == [] then [] else
    Packets(answers[..|answers| - 1])
    + if answers[|answers| - 1].result.Data? then [answers[|answers| - 1].result.p] else []
  }

  /** The packet the event loop has taken and not written yet. */
  function InHand(loop: Loop): seq<Packet> {
    match loop
    case Reply(r) => if r.Final? && r.a.result.Data? then [r.a.result.p] else []
    case Writing(_, p) => [p]
    case _ => []
  }

  predicate PacketsOk(s: State) {
    Packets(Written(s)) + InHand(s.loop) + s.recvQ == s.accepted
  }

  lemma PacketsMore(answers: seq<Answer>, a: Answer)
    ensures Packets(answers + [a]) == Packets(answers) + if a.result.Data? then [a.result.p] else []
  {
    assert (answers + [a])[..|answers|] == answers;
  }

  /** Writing to the channel, or not. */
  lemma WrittenMore(s: State, s': State, r: Response)
    requires s'.toClient == s.toClient + [r] && s'.results == s.results
    ensures Written(s') == Written(s) + if r.Final? then [r.a] else []
    ensures Packets(Written(s')) == Packets(Written(s)) + if r.Final? && r.a.result.Data? then [r.a.result.p] else []
  {
    FinalsMore(s.toClient, r);
    assert Written(s') == Written(s) + if r.Final? then [r.a] else [];
    if r.Final? {
      PacketsMore(Written(s), r.a);
    } else {
      assert Written(s') == Written(s);
    }
  }

  lemma LoopKeepsPackets(s: State)
    requires PacketsOk(s)
    ensures PacketsOk(LoopStep(s))
  {
    hide Written, Packets, Finals;
    var s' := LoopStep(s);
    SameAnswers(s, s');
    match s.loop
    case Reply(r) => WrittenMore(s, s', r);
    case Writing(k, p) => WrittenMore(s, s', Final(Answer(k, Data(p))));
    case TryTake(_) => TakeHead(Packets(Written(s)), s.recvQ);
    case Taking(_) => TakeHead(Packets(Written(s)), s.recvQ);
    case _ =>
  }

  lemma TakeHead(before: seq<Packet>, q: seq<Packet>)
    ensures q != [] ==> before + [q[0]] + q[1..] == before + [] + q
  {
  }

  lemma SameAnswers(s: State, s': State)
    ensures s'.toClient == s.toClient && s'.results == s.results ==> Written(s') == Written(s)
  {
  }

  lemma StepKeepsPackets(s: State, m: Move)
    requires PacketsOk(s)
    ensures PacketsOk(Step(s, m))
  {
    hide Written, Packets;
    var s' := Step(s, m);
    SameAnswers(s, s');
    match m
    case Read =>
      if s.blocked && s.toClient != [] {
        ReadKeepsAnswers(s);
      }
    case LoopGo => LoopKeepsPackets(s);
    case IpGo =>
      if s.ip.Establish? {
        WrittenMore(s, s', Final(Answer(s.ip.k, Connected)));
      } else if s.ip.Enqueue? {
        assert Packets(Written(s)) + InHand(s.loop) + (s.recvQ + [s.ip.p]) == s.accepted + [s.ip.p];
      }
    case _ =>
  }

  lemma ReadKeepsAnswers(s: State)
    requires s.blocked && s.toClient != []
    ensures Written(ClientRead(s)) == Written(s)
  {
    hide Finals;
    ReadsSame(s.results, s.toClient);
    assert s.results + [] == s.results;
  }

  // ----- No wake-up is lost -----

  predicate InCallback(loop: Loop) {
    loop.Draining? || loop.CheckWaiting? || Answering(loop)
  }

  /** Once a reader waits, or is bound to, a packet in the queue has left its mark: a byte in the pipe, or a
      producer on its way to write one, unless the callback is already running. */
  predicate WakeUpOk(s: State) {
    (s.waiting || s.loop.SetWaiting?) && !InCallback(s.loop) && s.recvQ != [] ==> s.pipe > 0 || s.ip.Notify?
  }

  lemma StepKeepsWakeUp(s: State, m: Move)
    requires WakeUpOk(s)
    ensures WakeUpOk(Step(s, m))
  {
  }

  lemma {:induction false} RunKeepsPackets(moves: seq<Move>)
    ensures PacketsOk(Run(Init(), moves)) && WakeUpOk(Run(Init(), moves))
    decreases |moves|
  {
    if moves != [] {
      var before := moves[..|moves| - 1];
      RunKeepsPackets(before);
      StepKeepsPackets(Run(Init(), before), moves[|moves| - 1]);
      StepKeepsWakeUp(Run(Init(), before), moves[|moves| - 1]);
    }
  }

  // ----- What every run guarantees -----

  /** The k-th call returns the k-th final response, which is of the kind it asked for, however late the
      WAIT_NEXT of an earlier call comes. */
  lemma {:induction false} CallsGetTheirAnswers(moves: seq<Move>, k: nat)
    requires k < |Run(Init(), moves).results|
    ensures var s := Run(Init(), moves);
      k < |s.asked| && s.results[k].call == k && Fits(s.asked[k], s.results[k].result)
  {
    var d := RunKeepsCalls(moves);
    var s := Run(Init(), moves);
    assert Written(s)[k] == s.results[k];
  }

  /** A blocked client is owed an answer by exactly one party, or it is in the channel. */
  lemma BlockedIsOwed(moves: seq<Move>) returns (d: Debtor)
    requires Run(Init(), moves).blocked
    ensures var s := Run(Init(), moves); var k := |s.asked| - 1;
      && |s.asked| > 0
      && if d == Nobody then |Finals(s.toClient)| == 1 && Finals(s.toClient)[0].call == k
         else Finals(s.toClient) == [] && OwedBy(s, d, k, s.asked[k])
  {
    d := RunKeepsCalls(moves);
    var s := Run(Init(), moves);
    if d == Nobody {
      assert Written(s)[|s.results|] == Finals(s.toClient)[0];
    }
  }

  lemma {:induction false} PacketsOfPrefix(a: seq<Answer>, b: seq<Answer>)
    ensures Packets(a) <= Packets(a + b)
    decreases |b|
  {
    if b == [] {
      assert a + b == a;
    } else {
      PacketsOfPrefix(a, b[..|b| - 1]);
      assert a + b == (a + b[..|b| - 1]) + [b[|b| - 1]];
      PacketsMore(a + b[..|b| - 1], b[|b| - 1]);
    }
  }

  /** The packets that the calls have returned are the first ones accepted, each once and in order; the rest are
      in the channel, in the hands of the event loop, or in the queue. */
  lemma {:induction false} PacketsComeInOrder(moves: seq<Move>)
    ensures var s := Run(Init(), moves); Packets(s.results) <= s.accepted && PacketsOk(s)
  {
    RunKeepsPackets(moves);
    var s := Run(Init(), moves);
    PacketsOfPrefix(s.results, Finals(s.toClient));
  }

  lemma {:induction false} NoLostWakeUp(moves: seq<Move>)
    requires var s := Run(Init(), moves); s.waiting && s.recvQ != []
    ensures var s := Run(Init(), moves); s.pipe > 0 || s.ip.Notify? || InCallback(s.loop)
  {
    RunKeepsPackets(moves);
  }

  /** A packet is accepted exactly if at most 128 are queued. Then it is the last in the queue, and a byte goes into
      the pipe unless that is full; otherwise nothing changes. */
  lemma AcceptsUpTo128(s: State, p: Packet)
    requires s.ip == Rests
    ensures if |s.recvQ| <= 128 then
        IpStep(IpStep(Step(s, IpPacket(p))))
        == s.(recvQ := s.recvQ + [p], accepted := s.accepted + [p], announced := |s.accepted| + 1,
              pipe := if s.pipe < 65536 then s.pipe + 1 else s.pipe)
      else Step(s, IpPacket(p)) == s
  {
  }

  /** The client reads until it has its result or the channel is empty. */
  function Reads(s: State): State
    decreases |s.toClient|
  {
    if s.blocked && s.toClient != [] then Reads(Step(s, Read)) else s
  }

  /** It gets the first final response there is, and leaves those behind it; without one it stays blocked. */
  lemma {:induction false} ReadsFindResult(s: State)
    requires s.blocked
    ensures var r := Reads(s);
      if Finals(s.toClient) == [] then r == s.(toClient := [])
      else
        && !r.blocked && r.results == s.results + [Finals(s.toClient)[0]] && Finals(r.toClient) == Finals(s.toClient)[1..]
        && r == s.(blocked := false, results := r.results, toClient := r.toClient)
    decreases |s.toClient|
  {
    if s.toClient != [] {
      FinalsFirst(s.toClient);
      if s.toClient[0].WaitNext? {
        ReadsFindResult(Step(s, Read));
      }
    }
  }

  /** The event loop goes on alone. */
  function LoopRuns(s: State, n: nat): State
    decreases n
  {
    if n == 0 then s else LoopRuns(LoopStep(s), n - 1)
  }

  lemma {:induction false} DrainRuns(s: State, n: nat)
    requires s.loop == Draining && n > s.pipe
    ensures LoopRuns(s, n) == LoopRuns(s.(pipe := 0, loop := CheckWaiting, read := s.announced), n - DrainSteps(s.pipe))
    decreases s.pipe
  {
    if s.pipe > 0 {
      DrainRuns(LoopStep(s), n - 1);
    }
  }

  function DrainSteps(pipe: nat): (n: nat)
    ensures n <= pipe + 1
  {
    if pipe == 0 then 1 else 1 + DrainSteps(if pipe > READ_BYTES then pipe - READ_BYTES else 0)
  }

  lemma {:induction false} RestRuns(s: State, n: nat)
    requires s.loop == Waits
    ensures LoopRuns(s, n) == s
  {
    if n > 0 {
      RestRuns(s, n - 1);
    }
  }

  /** A reader that waits while there is a packet is served: once the producer has finished, the event loop on
      its own drains the pipe and answers the waiting call with the packet at the head of the queue. */
  lemma {:induction false} WaitingReaderIsServed(moves: seq<Move>)
    requires var s := Run(Init(), moves); s.waiting && s.recvQ != [] && s.loop == Waits && s.ip == Rests
    ensures var s := Run(Init(), moves);
      LoopRuns(Step(s, LoopPipe), s.pipe + 5)
      == s.(pipe := 0, read := s.announced, waiting := false, recvQ := s.recvQ[1..],
            toClient := s.toClient + [Final(Answer(s.waitingFor, Data(s.recvQ[0])))])
  {
    var s := Run(Init(), moves);
    NoLostWakeUp(moves);
    var s1 := Step(s, LoopPipe);
    DrainRuns(s1, s.pipe + 5);
    var n: nat := s.pipe + 5 - DrainSteps(s.pipe);
    Answers(s1.(pipe := 0, loop := CheckWaiting, read := s1.announced), n);
  }

  lemma Answers(s: State, n: nat)
    requires s.loop == CheckWaiting && s.waiting && s.recvQ != [] && n >= 4
    ensures LoopRuns(s, n)
      == s.(loop := Waits, waiting := false, recvQ := s.recvQ[1..],
            toClient := s.toClient + [Final(Answer(s.waitingFor, Data(s.recvQ[0])))])
  {
    var s1 := LoopStep(s);
    var s2 := LoopStep(s1);
    var s3 := LoopStep(s2);
    var s4 := LoopStep(s3);
    assert LoopRuns(s, n) == LoopRuns(s1, n - 1) == LoopRuns(s2, n - 2);
    assert LoopRuns(s2, n - 2) == LoopRuns(s3, n - 3) == LoopRuns(s4, n - 4);
    RestRuns(s4, n - 4);
  }

  // ----- The blocking take -----

  /** The event loop sits in takeFromRecvQ with nothing to take, and serves nobody. */
  predicate Stalled(s: State) {
    s.loop.Taking? && s.recvQ == []
  }

  /** Every accepted packet is announced by a byte or is about to be, and as long as the pipe is empty after it
      has been read, what has been read is all that was announced. */
  predicate AnnouncedOk(s: State) {
    && s.announced + (if s.ip.Notify? then 1 else 0) == |s.accepted|
    && s.read <= s.announced
    && ((s.loop.CheckWaiting? || s.loop.Taking?) && s.pipe == 0 ==> s.read == s.announced)
  }

  lemma LoopKeepsAnnounced(s: State)
    requires AnnouncedOk(s)
    ensures AnnouncedOk(LoopStep(s))
  {
  }

  lemma StepKeepsAnnounced(s: State, m: Move)
    requires AnnouncedOk(s)
    ensures AnnouncedOk(Step(s, m))
  {
    hide LoopStep;
    LoopKeepsAnnounced(s);
  }

  lemma {:induction false} RunKeepsAnnounced(moves: seq<Move>)
    ensures AnnouncedOk(Run(Init(), moves))
    decreases |moves|
  {
    if moves != [] {
      RunKeepsAnnounced(moves[..|moves| - 1]);
      StepKeepsAnnounced(Run(Init(), moves[..|moves| - 1]), moves[|moves| - 1]);
    }
  }

  /** How many packets have been answered with, as the channel shows. */
  function Answered(s: State): nat {
    |Packets(Written(s))|
  }

  /** In any run, an event loop that takes for a waiting reader stalls exactly if the packets answered with are as
      many as the bytes written and about to be written: each of those bytes was for a packet that had been
      answered with while its byte was left in the pipe. If no byte has come since the wake-up, that is so
      exactly if it was so of the bytes the wake-up has read. */
  lemma {:induction false} StallsExactly(moves: seq<Move>)
    requires Run(Init(), moves).loop.Taking?
    ensures var s := Run(Init(), moves);
      && (Stalled(s) <==> Answered(s) == s.announced + if s.ip.Notify? then 1 else 0)
      && (Stalled(s) ==> s.read <= Answered(s))
      && (s.pipe == 0 && !s.ip.Notify? ==> (Stalled(s) <==> Answered(s) == s.read))
  {
    RunKeepsPackets(moves);
    RunKeepsAnnounced(moves);
    var s := Run(Init(), moves);
    assert |s.accepted| == |Packets(Written(s))| + |s.recvQ|;
  }

  /** While the event loop runs alone: the wake-up of a waiting reader stalls exactly if the queue is empty. */
  lemma StallsAloneExactly(s: State)
    requires s.loop == Waits && s.waiting && s.pipe > 0
    ensures Stalled(LoopRuns(Step(s, LoopPipe), DrainSteps(s.pipe) + 1)) <==> s.recvQ == []
  {
    var n := DrainSteps(s.pipe) + 1;
    DrainRunsOn(Step(s, LoopPipe), n);
    var s1 := s.(pipe := 0, loop := CheckWaiting, read := s.announced);
    assert LoopRuns(s1, 1) == LoopRuns(LoopStep(s1), 0);
  }

  lemma {:induction false} DrainRunsOn(s: State, n: nat)
    requires s.loop == Draining && n >= DrainSteps(s.pipe)
    ensures LoopRuns(s, n) == LoopRuns(s.(pipe := 0, loop := CheckWaiting, read := s.announced), n - DrainSteps(s.pipe))
    decreases s.pipe
  {
    if s.pipe > 0 {
      DrainRunsOn(LoopStep(s), n - 1);
    }
  }

  lemma RunMore(moves: seq<Move>, m: Move)
    ensures Run(Init(), moves + [m]) == Step(Run(Init(), moves), m)
  {
    assert (moves + [m])[..|moves|] == moves;
  }

  /** States that follow one another by these moves. */
  predicate Follow(s: State, more: seq<Move>, states: seq<State>) {
    |states| == |more| && forall i :: 0 <= i < |more| ==> states[i] == Step(Before(s, states, i), more[i])
  }

  function Before(s: State, states: seq<State>, i: nat): State
    requires i <= |states|
  {
    if i == 0 then s else states[i - 1]
  }

  lemma FollowsSoFar(s: State, more: seq<Move>, states: seq<State>, n: nat)
    requires Follow(s, more, states) && n <= |more|
    ensures Follow(s, more[..n], states[..n])
  {
    hide Step;
    forall i | 0 <= i < n ensures states[..n][i] == Step(Before(s, states[..n], i), more[..n][i]) {
      assert states[i] == Step(Before(s, states, i), more[i]);
    }
  }

  lemma {:induction false} RunFollows(moves: seq<Move>, more: seq<Move>, states: seq<State>)
    requires Follow(Run(Init(), moves), more, states) && more != []
    ensures Run(Init(), moves + more) == states[|more| - 1]
    decreases |more|
  {
    hide Step, Run;
    var n := |more| - 1;
    if n > 0 {
      FollowsSoFar(Run(Init(), moves), more, states, n);
      RunFollows(moves, more[..n], states[..n]);
    } else {
      assert moves + more[..0] == moves;
    }
    RunMore(moves + more[..n], more[n]);
    assert moves + more == (moves + more[..n]) + [more[n]];
  }

  /** A packet has come. */
  lemma PacketArrives(p: Packet) returns (moves: seq<Move>)
    ensures Run(Init(), moves) == Init().(recvQ := [p], accepted := [p], pipe := 1, announced := 1)
  {
    var s := Init();
    var more := [IpPacket(p), IpGo, IpGo];
    var states := [
      s.(ip := Enqueue(p)),
      s.(ip := Notify, recvQ := [p], accepted := [p]),
      s.(recvQ := [p], accepted := [p], pipe := 1, announced := 1)];
    assert states[0] == Step(s, more[0]) && states[1] == Step(states[0], more[1]) && states[2] == Step(states[1], more[2]);
    RunFollows([], more, states);
    moves := [] + more;
  }

  /** It is received by a call that does not have to wait; its byte stays in the pipe. */
  lemma PacketReceived(p: Packet) returns (moves: seq<Move>)
    ensures Run(Init(), moves) == Init().(
      accepted := [p], pipe := 1, announced := 1, asked := [Recvfrom], results := [Answer(0, Data(p))])
  {
    moves := PacketArrives(p);
    var s := Run(Init(), moves);
    var c := s.(blocked := true, asked := [Recvfrom]);
    var more := [Call(Recvfrom), LoopRequest, LoopGo, LoopGo, Read];
    var states := [
      c.(requests := [Pending(0, Recvfrom)]),
      c.(loop := TryTake(0)),
      c.(recvQ := [], loop := Reply(Final(Answer(0, Data(p))))),
      c.(recvQ := [], toClient := [Final(Answer(0, Data(p)))]),
      c.(recvQ := [], blocked := false, results := [Answer(0, Data(p))])];
    assert states[0] == Step(s, more[0]) && states[1] == Step(states[0], more[1]);
    assert states[2] == Step(states[1], more[2]) && states[3] == Step(states[2], more[3]);
    assert states[4] == Step(states[3], more[4]);
    RunFollows(moves, more, states);
    moves := moves + more;
  }

  /** The next call has to wait. */
  lemma SecondCallWaits() returns (moves: seq<Move>)
    ensures Run(Init(), moves) == Init().(
      accepted := [7], pipe := 1, announced := 1, asked := [Recvfrom, Recvfrom], results := [Answer(0, Data(7))],
      blocked := true, waiting := true, waitingFor := 1, toClient := [WaitNext])
  {
    moves := PacketReceived(7);
    var s := Run(Init(), moves);
    var c := s.(blocked := true, asked := [Recvfrom, Recvfrom]);
    var more := [Call(Recvfrom), LoopRequest, LoopGo, LoopGo, LoopGo];
    var states := [
      c.(requests := [Pending(1, Recvfrom)]),
      c.(loop := TryTake(1)),
      c.(loop := SetWaiting(1)),
      c.(waiting := true, waitingFor := 1, loop := Reply(WaitNext)),
      c.(waiting := true, waitingFor := 1, toClient := [WaitNext])];
    assert states[0] == Step(s, more[0]) && states[1] == Step(states[0], more[1]);
    assert states[2] == Step(states[1], more[2]) && states[3] == Step(states[2], more[3]);
    assert states[4] == Step(states[3], more[4]);
    RunFollows(moves, more, states);
    moves := moves + more;
  }

  /** So it does happen: the old byte wakes the event loop, which then waits for a packet. */
  lemma StallHappens() returns (moves: seq<Move>)
    ensures Stalled(Run(Init(), moves)) && LoopStep(Run(Init(), moves)) == Run(Init(), moves)
  {
    moves := SecondCallWaits();
    var s := Run(Init(), moves);
    var more := [LoopPipe, LoopGo, LoopGo, LoopGo];
    var states := [
      s.(loop := Draining), s.(loop := Draining, pipe := 0), s.(loop := CheckWaiting, pipe := 0, read := 1),
      s.(loop := Taking(1), pipe := 0, read := 1)];
    assert states[0] == Step(s, more[0]) && states[1] == Step(states[0], more[1]);
    assert states[2] == Step(states[1], more[2]) && states[3] == Step(states[2], more[3]);
    RunFollows(moves, more, states);
    moves := moves + more;
  }

  /** The next packet that is accepted ends a stall, and the waiting call gets it. */
  lemma StallEnds(s: State, p: Packet)
    requires Stalled(s) && s.ip == Rests
    ensures var r := LoopStep(LoopStep(Step(Step(s, IpPacket(p)), IpGo)));
      r.toClient == s.toClient + [Final(Answer(s.loop.k, Data(p)))] && r.loop == Clearing && r.recvQ == []
  {
  }

  /** The handshake is over before the event loop has written its WAIT_NEXT. */
  lemma AnswerBeforeWaitNext() returns (moves: seq<Move>)
    ensures Run(Init(), moves) == Init().(asked := [Connect], blocked := true, conn := Established,
      loop := Reply(WaitNext), toClient := [Final(Answer(0, Connected))])
  {
    var s := Init();
    var c := s.(asked := [Connect], blocked := true);
    var e := s.(asked := [Connect], blocked := true, conn := Established);
    var more := [Call(Connect), LoopRequest, LoopGo, IpSynAck, IpGo];
    var states := [
      c.(requests := [Pending(0, Connect)]),
      c.(loop := StartConnect(0)),
      c.(loop := Reply(WaitNext), conn := SynSent(0)),
      e.(loop := Reply(WaitNext), ip := Establish(0)),
      e.(loop := Reply(WaitNext), toClient := [Final(Answer(0, Connected))])];
    assert states[0] == Step(s, more[0]) && states[1] == Step(states[0], more[1]);
    assert states[2] == Step(states[1], more[2]) && states[3] == Step(states[2], more[3]);
    assert states[4] == Step(states[3], more[4]);
    RunFollows([], more, states);
    moves := [] + more;
  }

  /** The final response of a connect can be in the channel before its WAIT_NEXT; the call after it then finds
      that WAIT_NEXT first and skips it. */
  lemma WaitNextCanBeLate() returns (moves: seq<Move>)
    ensures var s := Run(Init(), moves);
      s.results == [Answer(0, Connected)] && s.toClient == [WaitNext] && s.asked == [Connect, Other] && s.blocked
  {
    moves := AnswerBeforeWaitNext();
    var s := Run(Init(), moves);
    var e := s.(loop := Waits);
    var more := [LoopGo, Read, Call(Other)];
    var states := [
      e.(toClient := [Final(Answer(0, Connected)), WaitNext]),
      e.(toClient := [WaitNext], blocked := false, results := [Answer(0, Connected)]),
      e.(toClient := [WaitNext], results := [Answer(0, Connected)], asked := [Connect, Other],
         requests := [Pending(1, Other)])];
    assert states[0] == Step(s, more[0]) && states[1] == Step(states[0], more[1]) && states[2] == Step(states[1], more[2]);
    RunFollows(moves, more, states);
    moves := moves + more;
  }
}
