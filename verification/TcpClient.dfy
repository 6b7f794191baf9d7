/**
 The TCP client: a connection's state, its sequence variables and what it hands to IP and to its socket.
 Sequence numbers are 32-bit; the comparison of acknowledgements does not allow for their wrapping. Sections
 3.4 and 3.5 of RFC 9293.
 */
module TcpClient {
  import Checksum

  const TWO32: int := 0x1_0000_0000
  const ISS: nat := 1                 // the initial sequence number is fixed
  const RECVQ_LIMIT: nat := 128

  datatype ConnState =
    | Closed | Listen | SynSent | SynReceived | Established | FinWait1 | FinWait2 | Closing | TimeWait | CloseWait | LastAck

  type Bytes = seq<Checksum.Byte>

  datatype Segment = Segment(syn: bool, ack: bool, number: nat, ackNumber: nat, data: Bytes)

  /** The fields of the control block, what it has sent, and the receive queue of its socket. The last three
      keep the history: everything accepted from the user, received with data, and taken from the queue. */
  datatype Pcb = Pcb(
    state: ConnState, sendUnack: nat, sendNext: nat, irs: nat, recvNext: nat,
    sent: seq<Segment>, recvQ: seq<Bytes>, established: nat,
    written: Bytes, received: Bytes, taken: Bytes)

  function Wrap(x: int): (r: nat)
    ensures r < TWO32 && (0 <= x < TWO32 ==> r == x)
  {
    x % TWO32
  }

  // ----- What the calls do -----

  function Connected(p: Pcb): Pcb {
    SentTo(p, [])
  }

  /** send: a SYN when closed, a segment of any length when established, otherwise nothing. */
  function SentTo(p: Pcb, data: Bytes): Pcb {
    match p.state
    case Closed =>
      p.(sendUnack := ISS, sendNext := Wrap(ISS + 1), state := SynSent,
         sent := p.sent + [Segment(true, false, ISS, 0, data)])
    case Established =>
      p.(sendNext := Wrap(p.sendNext + |data|), written := p.written + data,
         sent := p.sent + [Segment(false, true, p.sendNext, p.recvNext, data)])
    case _ => p
  }

  /** ack2peer */
  function Acked(p: Pcb, value: nat): Pcb {
    p.(sent := p.sent + [Segment(false, true, p.sendNext, value, [])])
  }

  /** putToRecvQ: a full queue drops the data without a word. */
  function Queued(p: Pcb, data: Bytes): Pcb {
    if |p.recvQ| > RECVQ_LIMIT then p else p.(recvQ := p.recvQ + [data])
  }

  /** The program asserts this of what comes while it waits for the handshake. */
  predicate Expected(p: Pcb, s: Segment) {
    p.state == SynSent ==> s.syn && s.ack
  }

  function Received(p: Pcb, s: Segment): Pcb {
    match p.state
    case SynSent =>
      var q := p.(irs := s.number, recvNext := Wrap(s.number + 1), sendUnack := Wrap(p.sendUnack + 1), state := Established);
      Acked(q, q.recvNext).(established := q.established + 1)
    case Established =>
      var q := if s.ack && s.ackNumber > p.sendUnack then p.(sendUnack := s.ackNumber) else p;
      if s.data == [] then q else
      var r := Queued(q, s.data).(received := q.received + s.data, recvNext := Wrap(s.number + |s.data|));
      Acked(r, r.recvNext)
    case _ => p
  }

  /** A reader takes the head of the queue. */
  function Taken(p: Pcb): Pcb {
    if p.recvQ == [] then p else p.(recvQ := p.recvQ[1..], taken := p.taken + p.recvQ[0])
  }

  // ----- The control block in place -----

  class TcpPcb {
    var state: ConnState
    var sendUnack: nat
    var sendNext: nat
    var irs: nat
    var recvNext: nat
    var sent: seq<Segment>              // what has been passed to IP
    var recvQ: seq<Bytes>               // the receive queue of the socket
    var established: nat                // how often the callback has run
    ghost var written: Bytes
    ghost var received: Bytes
    ghost var taken: Bytes

    ghost function Value(): Pcb
      reads this
    {
      Pcb(state, sendUnack, sendNext, irs, recvNext, sent, recvQ, established, written, received, taken)
    }

    /** The sequence variables are not initialised. */
    constructor (unack: nat, next: nat, irs0: nat, recv: nat)
      ensures Value() == Pcb(Closed, unack, next, irs0, recv, [], [], 0, [], [], [])
    {
      state, sendUnack, sendNext, irs, recvNext := Closed, unack, next, irs0, recv;
      sent, recvQ, established := [], [], 0;
      written, received, taken := [], [], [];
    }

    method Connect()
      modifies this
      ensures Value() == Connected(old(Value()))
    {
      var n := Send([]);
    }

    method Send(data: Bytes) returns (n: nat)
      modifies this
      ensures Value() == SentTo(old(Value()), data)
      ensures n == if old(state).Closed? || old(state).Established? then |data| else 0
    {
      var syn, ack, number, ackNumber := false, false, 0, 0;
      match state {
        case Closed =>
          sendUnack, sendNext := ISS, ISS;
          number := sendNext;
          sendNext := Wrap(sendNext + 1);
          syn := true;
          state := SynSent;
        case Established =>
          number := sendNext;
          sendNext := Wrap(sendNext + |data|);
          ack, ackNumber := true, recvNext;
          written := written + data;
        case _ =>
          return 0;
      }
      sent := sent + [Segment(syn, ack, number, ackNumber, data)];
      n := |data|;
    }

    method Recv(s: Segment)
      requires Expected(Value(), s)
      modifies this
      ensures Value() == Received(old(Value()), s)
    {
      hide Wrap, Queued;
      match state {
        case SynSent =>
          irs := s.number;
          recvNext := Wrap(irs + 1);
          sendUnack := Wrap(sendUnack + 1);
          state := Established;
          Ack2Peer(recvNext);
          established := established + 1;
        case Established => RecvEstablished(s);
        case _ =>
      }
    }

    method RecvEstablished(s: Segment)
      requires state == Established
      modifies this
      ensures Value() == Received(old(Value()), s)
    {
      hide Wrap, Queued;
      if s.ack && s.ackNumber > sendUnack {
        sendUnack := s.ackNumber;
      }
      if |s.data| != 0 {
        PutToRecvQ(s.data);
        received := received + s.data;
        recvNext := Wrap(s.number + |s.data|);
        Ack2Peer(recvNext);
      }
    }

    method Ack2Peer(value: nat)
      modifies this`sent
      ensures Value() == Acked(old(Value()), value)
    {
      sent := sent + [Segment(false, true, sendNext, value, [])];
    }

    method PutToRecvQ(data: Bytes)
      modifies this`recvQ
      ensures Value() == Queued(old(Value()), data)
    {
      if |recvQ| > RECVQ_LIMIT {
        return;
      }
      recvQ := recvQ + [data];
    }
  }

  // ----- Runs -----

  datatype Event = Connect | Write(data: Bytes) | Arrive(s: Segment) | Take

  function After(p: Pcb, e: Event): Pcb {
    match e
    case Connect => Connected(p)
    case Write(data) => SentTo(p, data)
    case Arrive(s) => Received(p, s)
    case Take => Taken(p)
  }

  function Run(p: Pcb, events: seq<Event>): Pcb
    decreases |events|
  {
    if events == [] then p else After(Run(p, events[..|events| - 1]), events[|events| - 1])
  }

  predicate Fresh(p: Pcb) {
    p.state == Closed && p.sent == [] && p.recvQ == [] && p.established == 0 && p.written == p.received == p.taken == []
  }

  /** A run of a client starts with connect and goes on without another; what the program asserts holds. */
  predicate ClientRun(p: Pcb, events: seq<Event>)
    decreases |events|
  {
    && Fresh(p) && events != [] && events[0] == Connect
    && (|events| > 1 ==>
          && ClientRun(p, events[..|events| - 1])
          && events[|events| - 1] != Connect
          && (events[|events| - 1].Arrive? ==>
                Expected(Run(p, events[..|events| - 1]), events[|events| - 1].s)
                && events[|events| - 1].s.number < TWO32))
  }

  lemma StartOfRun(p: Pcb, events: seq<Event>)
    requires ClientRun(p, events) && |events| == 1
    ensures Run(p, events) == Connected(p)
  {
    assert events[..0] == [];
    assert Run(p, events[..0]) == p;
  }

  function Rank(s: ConnState): int {
    match s
    case Closed => 0
    case SynSent => 1
    case Established => 2
    case _ => 3
  }

  /** The connection goes from closed to SYN-SENT to established, never back and nowhere else; the callback
      runs once, on the way into established. */
  lemma {:induction false} StatesMoveForward(p: Pcb, events: seq<Event>)
    requires ClientRun(p, events)
    ensures var q := Run(p, events);
      (q.state == SynSent && q.established == 0) || (q.state == Established && q.established == 1)
    ensures |events| > 1 ==> Rank(Run(p, events[..|events| - 1]).state) <= Rank(Run(p, events).state)
    decreases |events|
  {
    if |events| == 1 {
      StartOfRun(p, events);
    } else {
      StatesMoveForward(p, events[..|events| - 1]);
    }
  }

  // ----- What the events say, without the control block -----

  datatype Option<T> = None | Some(value: T)

  /** The first segment that arrives. */
  function Handshake(events: seq<Event>): Option<Segment>
    decreases |events|
  {
    if events == [] then None else
    var before, last := Handshake(events[..|events| - 1]), events[|events| - 1];
    if before.Some? then before else if last.Arrive? then Some(last.s) else None
  }

  /** The data that arrives after it, and the data that the user writes after it. */
  function DataArrived(events: seq<Event>): Bytes
    decreases |events|
  {
    if events == [] then [] else
    var before, last := events[..|events| - 1], events[|events| - 1];
    DataArrived(before) + if last.Arrive? && Handshake(before).Some? then last.s.data else []
  }

  function DataWritten(events: seq<Event>): Bytes
    decreases |events|
  {
    if events == [] then [] else
    var before, last := events[..|events| - 1], events[|events| - 1];
    DataWritten(before) + if last.Write? && Handshake(before).Some? then last.data else []
  }

  /** An acknowledgement arrives after it, as event i. */
  predicate AckArrives(events: seq<Event>, i: nat) {
    i < |events| && events[i].Arrive? && events[i].s.ack && Handshake(events[..i]).Some?
  }

  /** The first segment that arrives is the handshake: its sequence number is kept for good, and the first thing
      sent after the SYN acknowledges it. */
  ghost predicate HandshakeOk(q: Pcb, h: Option<Segment>) {
    match h
    case None => q.state == SynSent && q.sendUnack == ISS && q.sent == [Segment(true, false, ISS, 0, [])]
    case Some(s) =>
      && q.state == Established && q.irs == s.number && |q.sent| >= 2
      && q.sent[1] == Segment(false, true, ISS + 1, Wrap(s.number + 1), [])
  }

  lemma HandshakeStep(q: Pcb, h: Option<Segment>, e: Event)
    requires HandshakeOk(q, h) && e != Connect && (h.None? ==> q.sendNext == ISS + 1)
    ensures HandshakeOk(After(q, e), if h.None? && e.Arrive? then Some(e.s) else h)
    ensures h.None? && !e.Arrive? ==> After(q, e).sendNext == ISS + 1
  {
  }

  lemma {:induction false} HandshakeIsFirst(p: Pcb, events: seq<Event>)
    requires ClientRun(p, events)
    ensures HandshakeOk(Run(p, events), Handshake(events))
    ensures Handshake(events).None? ==> Run(p, events).sendNext == ISS + 1
    decreases |events|
  {
    if |events| == 1 {
      StartOfRun(p, events);
      assert events[..0] == [];
      assert p.sent + [Segment(true, false, ISS, 0, [])] == [Segment(true, false, ISS, 0, [])];
    } else {
      HandshakeIsFirst(p, events[..|events| - 1]);
      hide HandshakeOk, After;
      HandshakeStep(Run(p, events[..|events| - 1]), Handshake(events[..|events| - 1]), events[|events| - 1]);
    }
  }

  /** The histories in the control block are those of the events. */
  lemma {:induction false} HistoriesAreEvents(p: Pcb, events: seq<Event>)
    requires ClientRun(p, events)
    ensures Run(p, events).received == DataArrived(events) && Run(p, events).written == DataWritten(events)
    decreases |events|
  {
    if |events| == 1 {
      StartOfRun(p, events);
      assert events[..0] == [];
    } else {
      HistoriesAreEvents(p, events[..|events| - 1]);
      HandshakeIsFirst(p, events[..|events| - 1]);
      HistoryStep(Run(p, events[..|events| - 1]), events[|events| - 1]);
    }
  }

  lemma HistoryStep(q: Pcb, e: Event)
    requires (q.state == SynSent || q.state == Established) && e != Connect
    ensures After(q, e).received == q.received + if e.Arrive? && q.state == Established then e.s.data else []
    ensures After(q, e).written == q.written + if e.Write? && q.state == Established then e.data else []
  {
    hide Wrap;
  }

  // ----- The send side -----

  /** The stream sent so far. */
  function DataOf(sent: seq<Segment>): Bytes {
    if sent == [] then [] else
    DataOf(sent[..|sent| - 1]) + if sent[|sent| - 1].syn then [] else sent[|sent| - 1].data
  }

  /** First a SYN, then segments that each start where the ones before them end, without gap or overlap. */
  predicate Tiles(sent: seq<Segment>) {
    && sent != [] && sent[0] == Segment(true, false, ISS, 0, [])
    && forall i :: 1 <= i < |sent| ==> InPlace(sent[i], DataOf(sent[..i]))
  }

  predicate InPlace(s: Segment, before: Bytes) {
    !s.syn && s.ack && s.number == Wrap(ISS + 1 + |before|)
  }

  ghost predicate SendSide(p: Pcb) {
    && Tiles(p.sent) && DataOf(p.sent) == p.written && p.sendNext == Wrap(ISS + 1 + |p.written|)
    && (p.state == SynSent || p.state == Established)
  }

  lemma DataOfMore(sent: seq<Segment>, next: Segment)
    requires !next.syn
    ensures DataOf(sent + [next]) == DataOf(sent) + next.data
  {
    assert (sent + [next])[..|sent|] == sent;
  }

  lemma {:induction false} TilesMore(sent: seq<Segment>, next: Segment)
    requires Tiles(sent) && InPlace(next, DataOf(sent))
    ensures Tiles(sent + [next]) && DataOf(sent + [next]) == DataOf(sent) + next.data
  {
    hide DataOf, InPlace;
    var r := sent + [next];
    forall i | 1 <= i < |r|
      ensures InPlace(r[i], DataOf(r[..i]))
    {
      if i < |sent| {
        assert r[i] == sent[i] && r[..i] == sent[..i];
      } else {
        assert r[..i] == sent;
      }
    }
    assert !next.syn by {
      NextIsData(next, DataOf(sent));
    }
    DataOfMore(sent, next);
  }

  lemma NextIsData(next: Segment, before: Bytes)
    requires InPlace(next, before)
    ensures !next.syn
  {
  }

  lemma WrapAdds(x: int, y: int)
    ensures Wrap(Wrap(x) + y) == Wrap(x + y)
  {
  }

  lemma SendSideKept(p: Pcb, e: Event)
    requires SendSide(p) && e != Connect
    ensures SendSide(After(p, e))
  {
    hide Tiles, DataOf, Wrap;
    match e
    case Write(data) =>
      if p.state == Established {
        TilesMore(p.sent, Segment(false, true, p.sendNext, p.recvNext, data));
        WrapAdds(ISS + 1 + |p.written|, |data|);
      }
    case Arrive(s) =>
      TilesMore(p.sent, Segment(false, true, p.sendNext, After(p, e).recvNext, []));
      assert DataOf(p.sent) + [] == DataOf(p.sent);
    case Take =>
  }

  lemma {:induction false} SendSideHolds(p: Pcb, events: seq<Event>)
    requires ClientRun(p, events)
    ensures SendSide(Run(p, events))
    decreases |events|
  {
    if |events| == 1 {
      StartOfRun(p, events);
      var s := Run(p, events).sent;
      assert s == [Segment(true, false, ISS, 0, [])] && s[..0] == [];
    } else {
      SendSideHolds(p, events[..|events| - 1]);
      SendSideKept(Run(p, events[..|events| - 1]), events[|events| - 1]);
    }
  }

  /** What goes out, over any run: a SYN, and then exactly the bytes written while established, numbered from
      ISS + 1 on; acknowledgements carry the number of the next byte. */
  lemma {:induction false} StreamIsTiled(p: Pcb, events: seq<Event>)
    requires ClientRun(p, events)
    ensures var q := Run(p, events);
      Tiles(q.sent) && DataOf(q.sent) == DataWritten(events) && q.sendNext == Wrap(ISS + 1 + |DataWritten(events)|)
  {
    hide Run, Tiles, DataOf, DataWritten, Wrap, ClientRun;
    SendSideHolds(p, events);
    HistoriesAreEvents(p, events);
  }

  /** Once established, the acknowledged number is the largest of ISS + 1 and the acknowledgements that have arrived
      with the ack bit. */
  lemma {:induction false} UnackIsLargest(p: Pcb, events: seq<Event>)
    requires ClientRun(p, events) && Handshake(events).Some?
    ensures var q := Run(p, events);
      && q.sendUnack >= ISS + 1
      && (forall i :: 0 <= i < |events| && AckArrives(events, i) ==> events[i].s.ackNumber <= q.sendUnack)
      && (q.sendUnack == ISS + 1
          || exists i :: 0 <= i < |events| && AckArrives(events, i) && events[i].s.ackNumber == q.sendUnack)
    decreases |events|
  {
    hide Received, SentTo, Taken, AckArrives;
    var last := |events| - 1;
    var before := events[..last];
    ConnectIsNoHandshake(events);
    if last > 0 {
      HandshakeStates(p, before);
      if Handshake(before).Some? {
        UnackIsLargest(p, before);
      } else {
        HandshakeIsFirst(p, before);
      }
      SameAcks(events);
      UnackStep(Run(p, before), events[last]);
    }
  }

  lemma SameAcks(events: seq<Event>)
    requires events != []
    ensures var last := |events| - 1; var before := events[..last];
      && (forall i :: 0 <= i < last ==> (AckArrives(events, i) <==> AckArrives(before, i)) && events[i] == before[i])
      && (AckArrives(events, last) <==> events[last].Arrive? && events[last].s.ack && Handshake(before).Some?)
      && (Handshake(before).None? ==> forall i :: 0 <= i < |events| ==> !AckArrives(events, i))
  {
    hide Handshake;
    var last := |events| - 1;
    var before := events[..last];
    forall i | 0 <= i <= last
      ensures events[..i] == before[..i] && (Handshake(before).None? ==> Handshake(before[..i]).None?)
    {
      if Handshake(before).None? {
        NoHandshakeYet(before, i);
      }
    }
    assert before[..last] == before;
  }

  lemma ConnectIsNoHandshake(events: seq<Event>)
    ensures |events| == 1 && events[0] == Connect ==> Handshake(events).None?
  {
    if |events| == 1 {
      assert events[..0] == [];
    }
  }

  lemma UnackStep(q: Pcb, e: Event)
    requires (q.state == SynSent && q.sendUnack == ISS) || q.state == Established
    requires e != Connect
    ensures After(q, e).sendUnack ==
      if e.Arrive? && q.state == SynSent then ISS + 1
      else if e.Arrive? && e.s.ack && e.s.ackNumber > q.sendUnack then e.s.ackNumber
      else q.sendUnack
  {
  }

  lemma {:induction false} NoHandshakeYet(events: seq<Event>, i: nat)
    requires Handshake(events).None? && i <= |events|
    ensures Handshake(events[..i]).None?
    decreases |events|
  {
    if i < |events| {
      assert events[..|events| - 1][..i] == events[..i];
      NoHandshakeYet(events[..|events| - 1], i);
    } else {
      assert events[..i] == events;
    }
  }

  /** The peer acknowledges only what has been sent. */
  predicate PeerHonest(p: Pcb, events: seq<Event>)
    decreases |events|
  {
    events != [] ==>
      var before, last := Run(p, events[..|events| - 1]), events[|events| - 1];
      && PeerHonest(p, events[..|events| - 1])
      && (last.Arrive? && last.s.ack && before.state == Established ==> last.s.ackNumber <= before.sendNext)
  }

  /** As long as fewer than 2^32 - 2 bytes have been written, what is acknowledged is between the first byte and
      the next one. */
  lemma {:induction false} AckedWithinSent(p: Pcb, events: seq<Event>)
    requires ClientRun(p, events) && PeerHonest(p, events) && |Run(p, events).written| < TWO32 - 2
    ensures var q := Run(p, events);
      && ISS <= q.sendUnack <= q.sendNext == ISS + 1 + |q.written|
      && (q.state == SynSent ==> q.sendUnack == ISS && q.written == [])
    decreases |events|
  {
    if |events| == 1 {
      StartOfRun(p, events);
    } else {
      SendSideHolds(p, events);
      SendSideHolds(p, events[..|events| - 1]);
      hide Tiles, DataOf;
      AckedWithinSent(p, events[..|events| - 1]);
    }
  }

  /** And no further, in any run: with less than 2^32 bytes not acknowledged, the write that makes it 2^32 - 2
      bytes puts the next number below the acknowledged one, and no write before does. */
  lemma OrderBreaksAtWrap(p: Pcb, events: seq<Event>, data: Bytes)
    requires ClientRun(p, events) && PeerHonest(p, events) && |Run(p, events).written| < TWO32 - 2
    requires var q := Run(p, events); q.state == Established && q.sendNext - q.sendUnack + |data| < TWO32
    ensures var q := Run(p, events + [Write(data)]);
      && q.written == Run(p, events).written + data
      && (q.sendUnack <= q.sendNext <==> |q.written| < TWO32 - 2)
  {
    AckedWithinSent(p, events);
    assert (events + [Write(data)])[..|events|] == events;
    var q := Run(p, events);
    WrapsOnce(q.sendNext + |data|);
  }

  lemma WrapsOnce(x: int)
    requires 0 <= x < 2 * TWO32
    ensures Wrap(x) == if x < TWO32 then x else x - TWO32
  {
  }

  // ----- The receive side -----

  /** The number that the data after these events has, when it comes in order: counted from the number of the
      first segment that arrived. */
  function NextNumber(events: seq<Event>): nat
    requires Handshake(events).Some?
  {
    Wrap(Handshake(events).value.number + 1 + |DataArrived(events)|)
  }

  /** The data arrives in order. */
  predicate InOrder(events: seq<Event>)
    decreases |events|
  {
    events != [] ==>
      var before, last := events[..|events| - 1], events[|events| - 1];
      && InOrder(before)
      && (last.Arrive? && Handshake(before).Some? && last.s.data != [] ==> last.s.number == NextNumber(before))
  }

  /** Whatever has been sent in between acknowledges n. */
  predicate AllAck(before: seq<Segment>, after: seq<Segment>, n: nat) {
    forall i :: |before| <= i < |after| ==> after[i].ackNumber == n
  }

  /** After in-order arrival everything sent with an acknowledgement acknowledges exactly the bytes that have
      arrived. */
  lemma {:induction false} AcksAreCumulative(p: Pcb, events: seq<Event>)
    requires ClientRun(p, events) && InOrder(events)
    ensures Handshake(events).Some? ==> Run(p, events).recvNext == NextNumber(events)
    ensures |events| > 1 ==>
      var before, q := Run(p, events[..|events| - 1]), Run(p, events);
      if Handshake(events).None? then q.sent == before.sent else AllAck(before.sent, q.sent, NextNumber(events))
    decreases |events|
  {
    hide Wrap, Received, SentTo, Taken, HandshakeOk;
    if |events| == 1 {
      StartOfRun(p, events);
      assert events[..0] == [];
    } else {
      var before, last := events[..|events| - 1], events[|events| - 1];
      AcksAreCumulative(p, before);
      HandshakeStates(p, before);
      AckStep(Run(p, before), last, if Handshake(before).Some? then Handshake(before).value.number else 0,
              |DataArrived(before)|);
      if Handshake(before).None? {
        NothingBefore(before);
      }
    }
  }

  lemma HandshakeStates(p: Pcb, events: seq<Event>)
    requires ClientRun(p, events)
    ensures Run(p, events).state == if Handshake(events).None? then SynSent else Established
  {
    HandshakeIsFirst(p, events);
  }

  lemma {:induction false} NothingBefore(events: seq<Event>)
    requires Handshake(events).None?
    ensures DataArrived(events) == []
    decreases |events|
  {
    if events != [] {
      NothingBefore(events[..|events| - 1]);
    }
  }

  /** Number k arrived first, n bytes of data after it. */
  lemma AckStep(p: Pcb, e: Event, k: nat, n: nat)
    requires p.state == SynSent || (p.state == Established && p.recvNext == Wrap(k + 1 + n))
    requires e != Connect && (e.Arrive? && p.state == Established && e.s.data != [] ==> e.s.number == Wrap(k + 1 + n))
    ensures var q := After(p, e);
      && (p.state == Established ==> q.recvNext == Wrap(k + 1 + n + if e.Arrive? then |e.s.data| else 0))
      && (p.state == SynSent && e.Arrive? ==> q.recvNext == Wrap(e.s.number + 1))
      && (p.state == SynSent && !e.Arrive? ==> q.sent == p.sent)
      && AllAck(p.sent, q.sent, q.recvNext)
  {
    hide Wrap;
    if e.Arrive? {
      WrapAdds(k + 1 + n, |e.s.data|);
    }
  }

  /** Out of order the acknowledgement is wrong: it is right again exactly if the segment was the expected one. */
  lemma {:induction false} AckRightExactly(p: Pcb, events: seq<Event>, s: Segment)
    requires ClientRun(p, events) && Handshake(events).Some? && s.data != [] && s.number < TWO32
    ensures var more := events + [Arrive(s)];
      && Handshake(more) == Handshake(events)
      && (Run(p, more).recvNext == NextNumber(more) <==> s.number == NextNumber(events))
  {
    var more := events + [Arrive(s)];
    assert more[..|events|] == events;
    HandshakeStates(p, events);
    assert DataArrived(more) == DataArrived(events) + s.data;
    assert Run(p, more) == Received(Run(p, events), s);
    hide Run, Handshake, DataArrived, Wrap, HandshakeOk;
    RightExactly(Handshake(events).value.number + 1 + |DataArrived(events)|, |s.data|, s.number);
  }

  lemma RightExactly(x: int, d: int, number: nat)
    requires number < TWO32
    ensures Wrap(number + d) == Wrap(x + d) <==> number == Wrap(x)
  {
    WrapAdds(x, d);
    WrapAdds(number + d, -d);
    WrapAdds(x + d, -d);
  }

  /** One segment for the connect, one for each write, one for the first segment that arrives, and one for each later
      one with data; nothing for the others. */
  function Answers(events: seq<Event>): nat
    decreases |events|
  {
    if events == [] then 0 else
    var before, last := events[..|events| - 1], events[|events| - 1];
    Answers(before) + match last
      case Connect => 1
      case Write(_) => if Handshake(before).Some? then 1 else 0
      case Arrive(s) => if Handshake(before).None? || s.data != [] then 1 else 0
      case Take => 0
  }

  /** So an acknowledgement is never acknowledged, and no data goes without one. */
  lemma {:induction false} SendsExactly(p: Pcb, events: seq<Event>)
    requires ClientRun(p, events)
    ensures |Run(p, events).sent| == Answers(events)
    decreases |events|
  {
    if |events| == 1 {
      StartOfRun(p, events);
      assert events[..0] == [];
    } else {
      SendsExactly(p, events[..|events| - 1]);
      HandshakeStates(p, events[..|events| - 1]);
      AnswerStep(Run(p, events[..|events| - 1]), events[|events| - 1]);
    }
  }

  lemma AnswerStep(q: Pcb, e: Event)
    requires (q.state == SynSent || q.state == Established) && e != Connect
    ensures |After(q, e).sent| == |q.sent| + match e
      case Write(_) => if q.state == Established then 1 else 0
      case Arrive(s) => if q.state == SynSent || s.data != [] then 1 else 0
      case _ => 0
  {
    hide Wrap;
  }

  function Concat(q: seq<Bytes>): Bytes {
    if q == [] then [] else q[0] + Concat(q[1..])
  }

  lemma {:induction false} ConcatMore(q: seq<Bytes>, data: Bytes)
    ensures Concat(q + [data]) == Concat(q) + data
  {
    if q == [] {
      assert [data][1..] == [];
    } else {
      assert (q + [data])[1..] == q[1..] + [data];
      ConcatMore(q[1..], data);
    }
  }

  /** No data met a full receive queue. */
  predicate NeverFull(p: Pcb, events: seq<Event>)
    decreases |events|
  {
    events != [] ==>
      var before, last := Run(p, events[..|events| - 1]), events[|events| - 1];
      && NeverFull(p, events[..|events| - 1])
      && (last.Arrive? && before.state == Established && last.s.data != [] ==> |before.recvQ| <= 128)
  }

  /** What the application can get of what has been acknowledged: everything exactly if the queue was never full
      when data came; otherwise bytes that have been acknowledged are gone. */
  lemma {:induction false} AckedIsDelivered(p: Pcb, events: seq<Event>)
    requires ClientRun(p, events)
    ensures var q := Run(p, events);
      && (NeverFull(p, events) ==> Available(q) == DataArrived(events))
      && (!NeverFull(p, events) ==> |Available(q)| < |DataArrived(events)|)
  {
    HistoriesAreEvents(p, events);
    AvailableIsReceived(p, events);
  }

  lemma {:induction false} AvailableIsReceived(p: Pcb, events: seq<Event>)
    requires ClientRun(p, events)
    ensures var q := Run(p, events);
      && (NeverFull(p, events) ==> Available(q) == q.received)
      && (!NeverFull(p, events) ==> |Available(q)| < |q.received|)
    decreases |events|
  {
    hide Received, SentTo, Taken, Concat;
    if |events| == 1 {
      StartOfRun(p, events);
      NothingQueued(p);
      assert events[..0] == [] && NeverFull(p, events[..0]);
    } else {
      AvailableIsReceived(p, events[..|events| - 1]);
      DeliverStep(Run(p, events[..|events| - 1]), events[|events| - 1]);
    }
  }

  /** A reader that takes everything there is has what was available, in order. */
  lemma {:induction false} TakesGetAvailable(p: Pcb, events: seq<Event>) returns (more: seq<Event>)
    ensures |more| == |Run(p, events).recvQ| && forall i :: 0 <= i < |more| ==> more[i] == Take
    ensures var q := Run(p, events + more); q.recvQ == [] && q.taken == Available(Run(p, events))
    decreases |Run(p, events).recvQ|
  {
    hide Received, SentTo, Available, Taken;
    var q := Run(p, events);
    if q.recvQ == [] {
      more := [];
      assert events + more == events;
      NothingMore(q);
    } else {
      assert (events + [Take])[..|events|] == events;
      TakeStep(q);
      var rest := TakesGetAvailable(p, events + [Take]);
      more := [Take] + rest;
      assert events + more == (events + [Take]) + rest;
    }
  }

  lemma NothingMore(q: Pcb)
    requires q.recvQ == []
    ensures Available(q) == q.taken
  {
  }

  lemma TakeStep(q: Pcb)
    requires q.recvQ != []
    ensures |Taken(q).recvQ| == |q.recvQ| - 1 && Available(Taken(q)) == Available(q)
  {
    assert q.taken + (q.recvQ[0] + Concat(q.recvQ[1..])) == (q.taken + q.recvQ[0]) + Concat(q.recvQ[1..]);
  }

  function Available(p: Pcb): Bytes {
    p.taken + Concat(p.recvQ)
  }

  lemma NothingQueued(p: Pcb)
    requires Fresh(p)
    ensures Available(Connected(p)) == [] && Connected(p).received == []
  {
  }

  lemma DeliverStep(p: Pcb, e: Event)
    requires e != Connect
    ensures var q := After(p, e);
      if e.Arrive? && p.state == Established && e.s.data != [] then
        q.received == p.received + e.s.data
        && Available(q) == if |p.recvQ| <= RECVQ_LIMIT then Available(p) + e.s.data else Available(p)
      else q.received == p.received && Available(q) == Available(p)
  {
    hide Wrap;
    if e.Arrive? {
      ConcatMore(p.recvQ, e.s.data);
      assert p.taken + (Concat(p.recvQ) + e.s.data) == Available(p) + e.s.data;
    } else if e.Take? && p.recvQ != [] {
      assert p.taken + (p.recvQ[0] + Concat(p.recvQ[1..])) == (p.taken + p.recvQ[0]) + Concat(p.recvQ[1..]);
    }
  }
}
