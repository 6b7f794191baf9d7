/**
 The methods behind the protocol of module MuxProtocol, each run to its end without being interrupted: what a
 socket, its request channel and the client's end of the channel do to their fields. Each method does what the
 steps of its thread do one after the other.
 */
module MuxCalls {
  import opened MuxProtocol

  class Endpoint {
    var requests: seq<Pending>          // the channel towards the server
    var toClient: seq<Response>         // the channel towards the client
    var recvQ: seq<Packet>
    var pipe: nat                       // bytes in the notify pipe
    var waiting: bool
    var waitingFor: nat                 // the call the callback answers
    var conn: Conn
    var blocked: bool
    var results: seq<Answer>
    var asked: seq<Request>
    var loop: Loop                      // where the event loop is: in poll, unless a callback has not come back
    ghost var accepted: seq<Packet>
    ghost var announced: nat
    ghost var read: nat

    /** Between calls of the IP thread. */
    ghost function Value(): State
      reads this
    {
      State(blocked, asked, results, requests, toClient, recvQ, accepted, pipe, waiting, waitingFor, loop, Rests, conn,
            announced, read)
    }

    constructor ()
      ensures Value() == Init()
    {
      requests, toClient, recvQ, pipe, waiting, waitingFor, conn := [], [], [], 0, false, 0, NotConnected;
      blocked, results, asked, accepted := false, [], [], [];
      loop, announced, read := Waits, 0, 0;
    }

    // ----- The IP thread -----

    method PutToRecvQ(p: Packet)
      modifies this
      ensures Value() == IpStep(IpStep(Step(old(Value()), IpPacket(p))))
      ensures recvQ == if |old(recvQ)| <= 128 then old(recvQ) + [p] else old(recvQ)
    {
      if |recvQ| > RECVQ_LIMIT {
        return;
      }
      recvQ := recvQ + [p];
      accepted := accepted + [p];
      MarkAsReadable();
      announced := |accepted|;
    }

    /** A full pipe takes no more, and does not need to. */
    method MarkAsReadable()
      modifies this`pipe
      ensures pipe == if old(pipe) < PIPE_BYTES then old(pipe) + 1 else old(pipe)
    {
      if pipe < PIPE_BYTES {
        pipe := pipe + 1;
      }
    }

    // ----- The event loop -----

    /** One request: read it, handle it, write the response. */
    method OnReadReady()
      requires requests != [] && loop == Waits
      modifies this
      ensures Value() == LoopRuns(Step(old(Value()), LoopRequest), 3)
    {
      RequestHandled(Value());
      hide LoopRuns, Step;
      var r := requests[0];
      requests := requests[1..];
      var response;
      match r.req {
        case Recvfrom => response := RecvfromCall(r.call);
        case Connect => response := ConnectCall(r.call);
        case Other => response := Final(Answer(r.call, Plain));
      }
      toClient := toClient + [response];
    }

    method RecvfromCall(k: nat) returns (response: Response)
      modifies this`recvQ, this`waiting, this`waitingFor
      ensures if old(recvQ) != []
        then response == Final(Answer(k, Data(old(recvQ)[0]))) && recvQ == old(recvQ)[1..]
             && waiting == old(waiting) && waitingFor == old(waitingFor)
        else response == WaitNext && recvQ == [] && waiting && waitingFor == k
    {
      if recvQ != [] {
        response := Final(Answer(k, Data(recvQ[0])));
        recvQ := recvQ[1..];
      } else {
        waitingFor := k;
        waiting := true;
        response := WaitNext;
      }
    }

    method ConnectCall(k: nat) returns (response: Response)
      modifies this`conn
      ensures conn == SynSent(k) && response == WaitNext
    {
      conn := SynSent(k);
      response := WaitNext;
    }

    /** sChannelReadCb. With an empty queue and a waiting reader it does not come back: the event loop stays in
        the blocking take. */
    method SChannelReadCb() returns (back: bool)
      requires pipe > 0 && loop == Waits
      modifies this
      ensures Value() == LoopRuns(Step(old(Value()), LoopPipe), old(pipe) + 5)
      ensures back <==> loop == Waits
      ensures back <==> !old(waiting) || old(recvQ) != []
    {
      CallbackRuns(Value());
      hide LoopRuns, Step;
      Drain();
      read := announced;
      if !waiting {
        return true;
      }
      if recvQ == [] {
        loop := Taking(waitingFor);
        return false;
      }
      OnAsyncNewPacket();
      waiting := false;
      back := true;
    }

    /** Reads from the pipe until there is nothing left. */
    method Drain()
      modifies this`pipe
      ensures pipe == 0
    {
      while pipe > 0 {
        pipe := if pipe > READ_BYTES then pipe - READ_BYTES else 0;
      }
    }

    method OnAsyncNewPacket()
      requires recvQ != []
      modifies this`recvQ, this`toClient
      ensures recvQ == old(recvQ)[1..]
      ensures toClient == old(toClient) + [Final(Answer(waitingFor, Data(old(recvQ)[0])))]
    {
      var p := recvQ[0];
      recvQ := recvQ[1..];
      toClient := toClient + [Final(Answer(waitingFor, Data(p)))];
    }

    // ----- The client -----

    method ChannelSend(req: Request)
      requires !blocked && (req == Connect ==> conn == NotConnected)
      modifies this
      ensures Value() == Step(old(Value()), Call(req))
    {
      requests := requests + [Pending(|asked|, req)];
      asked := asked + [req];
      blocked := true;
    }

    /** channel_recv: reads until a response is not WAIT_NEXT; the one it returns is the first of those. When the
        channel runs empty before, the client stays blocked in its read. */
    method ChannelRecv() returns (r: Received)
      requires blocked
      modifies this
      ensures Value() == Reads(old(Value()))
      ensures r == if old(Finals(toClient)) == [] then StillReading else Got(old(Finals(toClient))[0])
      ensures r == StillReading ==> toClient == [] && blocked && results == old(results)
      ensures r.Got? ==> !blocked && results == old(results) + [r.a] && Finals(toClient) == old(Finals(toClient))[1..]
      ensures requests == old(requests) && recvQ == old(recvQ) && pipe == old(pipe) && waiting == old(waiting)
    {
      r := StillReading;
      ghost var before := Value();
      while r == StillReading && toClient != []
        invariant r == StillReading ==> Finals(toClient) == old(Finals(toClient)) && blocked && results == old(results)
        invariant r.Got? ==> !blocked && results == old(results) + [r.a] && [r.a] + Finals(toClient) == old(Finals(toClient))
        invariant requests == old(requests) && recvQ == old(recvQ) && pipe == old(pipe) && waiting == old(waiting)
        invariant Reads(Value()) == Reads(before)
        decreases |toClient|, r == StillReading
      {
        FinalsFirst(toClient);
        var resp := toClient[0];
        toClient := toClient[1..];
        if resp.Final? {
          r := Got(resp.a);
          results := results + [resp.a];
          blocked := false;
        }
      }
    }
  }

  datatype Received = StillReading | Got(a: Answer)

  /** What the callback does, in one go. */
  lemma CallbackRuns(s: State)
    requires s.loop == Waits && s.pipe > 0
    ensures LoopRuns(Step(s, LoopPipe), s.pipe + 5)
      == if !s.waiting then s.(pipe := 0, read := s.announced)
         else if s.recvQ == [] then s.(pipe := 0, read := s.announced, loop := Taking(s.waitingFor))
         else s.(pipe := 0, read := s.announced, waiting := false, recvQ := s.recvQ[1..],
                 toClient := s.toClient + [Final(Answer(s.waitingFor, Data(s.recvQ[0])))])
  {
    DrainRuns(Step(s, LoopPipe), s.pipe + 5);
    var n: nat := s.pipe + 5 - DrainSteps(s.pipe);
    var s1 := s.(pipe := 0, loop := CheckWaiting, read := s.announced);
    if !s.waiting {
      RestRuns(LoopStep(s1), n - 1);
    } else if s.recvQ == [] {
      StalledRuns(LoopStep(s1), n - 1);
    } else {
      Answers(s1, n);
    }
  }

  lemma {:induction false} StalledRuns(s: State, n: nat)
    requires Stalled(s)
    ensures LoopRuns(s, n) == s
  {
    if n > 0 {
      StalledRuns(s, n - 1);
    }
  }

  /** What the event loop does with a request, in one go. */
  lemma RequestHandled(s: State)
    requires s.loop == Waits && s.requests != []
    ensures var r, t := s.requests[0], s.(requests := s.requests[1..]);
      LoopRuns(Step(s, LoopRequest), 3) == match r.req
        case Recvfrom =>
          if s.recvQ != [] then
            t.(recvQ := s.recvQ[1..], toClient := s.toClient + [Final(Answer(r.call, Data(s.recvQ[0])))])
          else t.(waiting := true, waitingFor := r.call, toClient := s.toClient + [WaitNext])
        case Connect => t.(conn := SynSent(r.call), toClient := s.toClient + [WaitNext])
        case Other => t.(toClient := s.toClient + [Final(Answer(r.call, Plain))])
  {
    var s0 := Step(s, LoopRequest);
    var s1 := LoopStep(s0);
    var s2 := LoopStep(s1);
    assert LoopRuns(s0, 3) == LoopRuns(s1, 2) == LoopRuns(s2, 1) == LoopStep(s2);
  }
}
