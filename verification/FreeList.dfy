/**
 The lock-free free list that hands blocks back and forth between the threads of a queue: a CAS stack whose
 nodes carry a 32-bit word made of a reference count and, in the top bit, a "should be on the free list" flag.

 Every atomic access is one step of one thread, steps of different threads interleave in any order, and any
 number of threads take part. `owned` is what the callers know: the nodes a thread got from `try_get`, from another
 thread, or at the start, and has given neither to `add` nor to another thread.
 */
module FreeList {
  import opened Counting

  const SHOULD_BE_ON_FREELIST: nat := 0x8000_0000
  const REFS_MASK: nat := 0x7FFF_FFFF
  const WORD: nat := 0x1_0000_0000

  type Node = nat

  datatype Link = Null | Ptr(node: Node)

  /** Where a push continues: back to the caller of `add`, or in the loop of `try_get` at `head`. */
  datatype Cont = Return | Resume(head: Link)

  datatype PC =
    | Idle
    | AddFlag(node: Node)                          // fetch_add of the flag
    | PushLoad(node: Node, k: Cont)                // load of freeListHead
    | PushNext(node: Node, head: Link, k: Cont)    // store of freeListNext
    | PushRefs(node: Node, head: Link, k: Cont)    // store of 1 into freeListRefs
    | PushCas(node: Node, head: Link, k: Cont)     // CAS of freeListHead
    | PushUndo(node: Node, head: Link, k: Cont)    // fetch_add of flag - 1
    | GetLoad                                      // load of freeListHead
    | GetRefs(node: Node)                          // load of freeListRefs
    | GetPin(node: Node, refs: nat)                // test of the count, CAS of freeListRefs
    | GetNext(node: Node)                          // load of freeListNext
    | GetCas(node: Node, next: Link)               // CAS of freeListHead
    | GetTake(node: Node)                          // the assertion, fetch_sub of 2
    | GetUnpin(node: Node, head: Link)             // fetch_sub of 1

  datatype Thread = Thread(pc: PC, owned: set<Node>)

  datatype State = State(head: Link, refs: seq<nat>, next: seq<Link>, threads: seq<Thread>)

  /** What a thread does next: call an operation when idle, otherwise run its next atomic access. At any time it
      may pass a node it owns on to another thread, as a producer passes its blocks on to the consumers. */
  datatype Move = CallAdd(node: Node) | CallTryGet | Go | Give(node: Node, to: nat)

  function Continue(k: Cont): PC {
    match k
    case Return => Idle
    case Resume(Null) => Idle
    case Resume(Ptr(n)) => GetRefs(n)
  }

  predicate InRange(s: State, pc: PC) {
    match pc
    case Idle => true
    case GetLoad => true
    case _ => pc.node < |s.refs| == |s.next|
  }

  function At(s: State, t: nat, pc: PC): State
    requires t < |s.threads|
  {
    s.(threads := s.threads[t := s.threads[t].(pc := pc)])
  }

  function Store(s: State, n: Node, word: nat): State
    requires n < |s.refs|
  {
    s.(refs := s.refs[n := word % WORD])
  }

  /** Thread t has passed node n on to thread u. */
  function Given(s: State, t: nat, n: Node, u: nat): State
    requires t < |s.threads| && u < |s.threads| && u != t
  {
    var giver, taker := s.threads[t], s.threads[u];
    s.(threads := s.threads[t := giver.(owned := giver.owned - {n})][u := taker.(owned := taker.owned + {n})])
  }

  /** One step of thread t. A move that the thread cannot make leaves the state unchanged. */
  function Step(s: State, t: nat, m: Move): State {
    if t >= |s.threads| || !InRange(s, s.threads[t].pc) then s else
    var th := s.threads[t];
    match m
    case CallAdd(n) =>
      if th.pc.Idle? && n in th.owned then
        s.(threads := s.threads[t := Thread(AddFlag(n), th.owned - {n})])
      else s
    case CallTryGet => if th.pc.Idle? then At(s, t, GetLoad) else s
    case Give(n, u) => if n in th.owned && u < |s.threads| && u != t then Given(s, t, n, u) else s
    case Go =>
      match th.pc
      case Idle => s
      case AddFlag(n) =>
        At(Store(s, n, s.refs[n] + SHOULD_BE_ON_FREELIST), t,
           if s.refs[n] == 0 then PushLoad(n, Return) else Idle)
      case PushLoad(n, k) => At(s, t, PushNext(n, s.head, k))
      case PushNext(n, h, k) => At(s.(next := s.next[n := h]), t, PushRefs(n, h, k))
      case PushRefs(n, h, k) => At(Store(s, n, 1), t, PushCas(n, h, k))
      case PushCas(n, h, k) =>
        if s.head == h then At(s.(head := Ptr(n)), t, Continue(k)) else At(s, t, PushUndo(n, s.head, k))
      case PushUndo(n, h, k) =>
        At(Store(s, n, s.refs[n] + SHOULD_BE_ON_FREELIST - 1), t,
           if s.refs[n] == 1 then PushNext(n, h, k) else Continue(k))
      case GetLoad => At(s, t, Continue(Resume(s.head)))
      case GetRefs(n) => At(s, t, GetPin(n, s.refs[n]))
      case GetPin(n, r) =>
        if r % SHOULD_BE_ON_FREELIST == 0 || s.refs[n] != r then At(s, t, GetLoad)
        else At(Store(s, n, r + 1), t, GetNext(n))
      case GetNext(n) => At(s, t, GetCas(n, s.next[n]))
      case GetCas(n, x) =>
        if s.head == Ptr(n) then At(s.(head := x), t, GetTake(n)) else At(s, t, GetUnpin(n, s.head))
      case GetTake(n) =>
        var s1 := Store(s, n, s.refs[n] + WORD - 2);
        s1.(threads := s1.threads[t := Thread(Idle, th.owned + {n})])
      case GetUnpin(n, h) =>
        At(Store(s, n, s.refs[n] + WORD - 1), t,
           if s.refs[n] == SHOULD_BE_ON_FREELIST + 1 then PushLoad(n, Resume(h)) else Continue(Resume(h)))
  }

  /** A run: which thread moves, and how, at each step. */
  function Run(s: State, moves: seq<(nat, Move)>): State
    decreases |moves|
  {
    if moves == [] then s else
    var last := |moves| - 1;
    Step(Run(s, moves[..last]), moves[last].0, moves[last].1)
  }

  /** Every node starts in the hands of exactly one idle thread, and the list is empty. */
  predicate Init(s: State) {
    && s.head == Null
    && |s.next| == |s.refs|
    && |s.threads| < REFS_MASK - 1
    && (forall n :: 0 <= n < |s.next| ==> s.next[n] == Null)
    && (forall t :: 0 <= t < |s.threads| ==> s.threads[t].pc == Idle)
    && (forall t, n :: 0 <= t < |s.threads| && n in s.threads[t].owned ==> n < |s.refs|)
    && (forall n :: 0 <= n < |s.refs| ==>
          s.refs[n] == 0 && exists t :: 0 <= t < |s.threads| && n in s.threads[t].owned)
    && (forall t, u, n :: 0 <= t < u < |s.threads| && n in s.threads[t].owned ==> n !in s.threads[u].owned)
  }

  // ----- The places a node can be in -----

  /** Thread t is responsible for n: it owns it, or is about to flag it, or has just popped it. */
  predicate Holds(th: Thread, n: Node) {
    n in th.owned || th.pc == AddFlag(n) || th.pc == GetTake(n)
  }

  /** The pusher has the node to itself: nobody can raise a count that is zero. */
  predicate Readies(th: Thread, n: Node) {
    (th.pc.PushLoad? || th.pc.PushNext? || th.pc.PushRefs?) && th.pc.node == n
  }

  /** The node is ready and the CAS on the head is pending or has just failed. */
  predicate Offers(th: Thread, n: Node) {
    (th.pc.PushCas? || th.pc.PushUndo?) && th.pc.node == n
  }

  /** The thread has raised the count of n and not lowered it yet. */
  predicate Pins(th: Thread, n: Node) {
    (th.pc.GetNext? || th.pc.GetCas? || th.pc.GetUnpin?) && th.pc.node == n
  }

  function PinWeight(n: Node): Thread -> nat {
    (th: Thread) => if Pins(th, n) then 1 else 0
  }

  function PinCount(s: State, n: Node): nat {
    Sum(s.threads, PinWeight(n))
  }

  datatype Place = Held(t: nat) | Readied(t: nat) | Offered(t: nat) | OnList | Waiting

  /** What the proof remembers beside the state: the list from the head on, and the place of each node. */
  datatype Aux = Aux(chain: seq<Node>, place: seq<Place>)

  function Successor(chain: seq<Node>, i: nat): Link {
    if i + 1 < |chain| then Ptr(chain[i + 1]) else Null
  }

  ghost predicate ChainOk(s: State, a: Aux)
    requires |a.place| == |s.refs| == |s.next|
  {
    && s.head == (if a.chain == [] then Null else Ptr(a.chain[0]))
    && (forall i :: 0 <= i < |a.chain| ==> a.chain[i] < |s.refs|)
    && (forall i, j :: 0 <= i < j < |a.chain| ==> a.chain[i] != a.chain[j])
    && (forall i :: 0 <= i < |a.chain| ==> s.next[a.chain[i]] == Successor(a.chain, i))
    && (forall n :: 0 <= n < |s.refs| ==> (a.place[n] == OnList <==> n in a.chain))
  }

  ghost predicate ThreadOk(s: State, a: Aux, t: nat)
    requires t < |s.threads|
    requires |a.place| == |s.refs| == |s.next|
  {
    var th := s.threads[t];
    && (forall n :: n in th.owned ==> n < |s.refs|)
    && (forall n :: 0 <= n < |s.refs| ==>
          && (Holds(th, n) <==> a.place[n] == Held(t))
          && (Readies(th, n) <==> a.place[n] == Readied(t))
          && (Offers(th, n) <==> a.place[n] == Offered(t)))
    && LocalsOk(s, th)
  }

  /** The locals of a thread: nodes that exist, and next pointers that are still what was stored or read. */
  predicate LocalsOk(s: State, th: Thread)
    requires |s.refs| == |s.next|
  {
    && InRange(s, th.pc)
    && (th.pc.AddFlag? || th.pc.GetTake? ==> th.pc.node !in th.owned)
    && (th.pc.PushRefs? || th.pc.PushCas? ==> s.next[th.pc.node] == th.pc.head)
    && (th.pc.GetCas? ==> s.next[th.pc.node] == th.pc.next)
    && (LinkOf(th.pc).Ptr? ==> LinkOf(th.pc).node < |s.refs|)
    && (ContOf(th.pc).Resume? && ContOf(th.pc).head.Ptr? ==> ContOf(th.pc).head.node < |s.refs|)
  }

  /** The head or next pointer a thread has in a local variable. */
  function LinkOf(pc: PC): Link {
    match pc
    case PushNext(_, h, _) => h
    case PushRefs(_, h, _) => h
    case PushCas(_, h, _) => h
    case PushUndo(_, h, _) => h
    case GetCas(_, x) => x
    case GetUnpin(_, h) => h
    case _ => Null
  }

  function ContOf(pc: PC): Cont {
    if pc.PushLoad? || pc.PushNext? || pc.PushRefs? || pc.PushCas? || pc.PushUndo? then pc.k else Return
  }

  /** What the word of a node holds beside the pins. */
  function Base(s: State, n: Node, p: Place): nat {
    match p
    case Held(t) => if t < |s.threads| && s.threads[t].pc == GetTake(n) then 2 else 0
    case Readied(_) => SHOULD_BE_ON_FREELIST
    case Offered(_) => 1
    case OnList => 1
    case Waiting => SHOULD_BE_ON_FREELIST
  }

  ghost predicate WordOk(s: State, a: Aux, n: Node)
    requires n < |s.refs| == |a.place| == |s.next|
  {
    && (s.next[n].Ptr? ==> s.next[n].node < |s.refs|)
    && s.refs[n] == PinCount(s, n) + Base(s, n, a.place[n])
    && (a.place[n].Readied? ==> PinCount(s, n) == 0)
    && (a.place[n].Waiting? ==> PinCount(s, n) > 0)
    && (a.place[n].Held? || a.place[n].Readied? || a.place[n].Offered? ==> a.place[n].t < |s.threads|)
  }

  ghost predicate Inv(s: State, a: Aux) {
    && |a.place| == |s.refs| == |s.next|
    && |s.threads| < REFS_MASK - 1
    && ChainOk(s, a)
    && (forall t :: 0 <= t < |s.threads| ==> ThreadOk(s, a, t))
    && (forall n :: 0 <= n < |s.refs| ==> WordOk(s, a, n))
  }

  // ----- What a step leaves alone -----

  /** A thread that is responsible for no node through its program counter, and pins none. */
  predicate Bystander(pc: PC) {
    pc.Idle? || pc.GetLoad? || pc.GetRefs? || pc.GetPin?
  }

  /** The place belongs to a thread other than t. */
  predicate Foreign(p: Place, t: nat) {
    (p.Held? || p.Readied? || p.Offered?) && p.t != t
  }

  /** The step from s to s' is one of thread t and concerns node n at most. */
  ghost predicate Touches(s: State, a: Aux, s': State, a': Aux, t: nat, n: Node) {
    && |s.threads| == |s'.threads| && |s.refs| == |s'.refs| == |s.next| == |s'.next| == |a.place| == |a'.place|
    && t < |s.threads| && n < |s.refs|
    && s'.threads == s.threads[t := s'.threads[t]]
    && s'.refs == s.refs[n := s'.refs[n]]
    && s'.next == s.next[n := s'.next[n]]
    && a'.place == a.place[n := a'.place[n]]
    && (Bystander(s.threads[t].pc) || s.threads[t].pc.node == n)
    && (Bystander(s'.threads[t].pc) || s'.threads[t].pc.node == n)
    && s.threads[t].owned - {n} == s'.threads[t].owned - {n}
    && (a'.place[n] != a.place[n] ==> !Foreign(a.place[n], t) && !Foreign(a'.place[n], t))
    && (s'.next[n] != s.next[n] ==> a.place[n] == Readied(t))
  }

  lemma PinsChange(s: State, s': State, t: nat, n: Node)
    requires t < |s.threads| == |s'.threads| && s'.threads == s.threads[t := s'.threads[t]]
    ensures PinCount(s', n) == PinCount(s, n) - (if Pins(s.threads[t], n) then 1 else 0)
                                             + (if Pins(s'.threads[t], n) then 1 else 0)
  {
    SumUpdate(s.threads, PinWeight(n), t, s'.threads[t]);
  }

  lemma PinsBounded(s: State, n: Node)
    ensures PinCount(s, n) <= |s.threads|
  {
    SumAtMost(s.threads, PinWeight(n), 1);
  }

  lemma PinnedIsPositive(s: State, u: nat, n: Node)
    requires u < |s.threads| && Pins(s.threads[u], n)
    ensures PinCount(s, n) > 0
  {
    SumUpdate(s.threads, PinWeight(n), u, s.threads[u]);
  }

  /** The count of a pinned node is not zero, so nobody is rewriting its next pointer. */
  lemma PinnedIsNotReadied(s: State, a: Aux, u: nat, n: Node)
    requires Inv(s, a)
    requires u < |s.threads| && n < |s.refs| && Pins(s.threads[u], n)
    ensures !a.place[n].Readied?
  {
    PinnedIsPositive(s, u, n);
    assert WordOk(s, a, n);
  }

  lemma OtherThread(s: State, a: Aux, s': State, a': Aux, t: nat, n: Node, u: nat)
    requires Inv(s, a) && Touches(s, a, s', a', t, n)
    requires u < |s.threads| && u != t
    ensures ThreadOk(s', a', u)
  {
    assert ThreadOk(s, a, u);
    var th := s.threads[u];
    assert s'.threads[u] == th;
    if s'.next[n] != s.next[n] && Pins(th, n) {
      PinnedIsNotReadied(s, a, u, n);
    }
  }

  lemma OtherWord(s: State, a: Aux, s': State, a': Aux, t: nat, n: Node, m: Node)
    requires Inv(s, a) && Touches(s, a, s', a', t, n)
    requires m < |s.refs| && m != n
    ensures WordOk(s', a', m)
  {
    assert WordOk(s, a, m);
    PinsChange(s, s', t, m);
  }

  /** The stepping thread's facts about the nodes it does not touch carry over. */
  lemma OwnThread(s: State, a: Aux, s': State, a': Aux, t: nat, n: Node)
    requires Inv(s, a) && Touches(s, a, s', a', t, n)
    requires OwnOk(s', a', t, n)
    ensures ThreadOk(s', a', t)
  {
    assert ThreadOk(s, a, t);
    var th, th' := s.threads[t], s'.threads[t];
    forall m | 0 <= m < |s.refs| && m != n
      ensures (Holds(th', m) <==> a'.place[m] == Held(t))
      ensures (Readies(th', m) <==> a'.place[m] == Readied(t))
      ensures (Offers(th', m) <==> a'.place[m] == Offered(t))
    {
      assert m in th.owned <==> m in th.owned - {n};
      assert m in th'.owned <==> m in th'.owned - {n};
    }
    forall m | m in th'.owned
      ensures m < |s.refs|
    {
      assert m == n || m in th.owned - {n};
    }
  }

  /** What is left to show about thread t: its view of node n, and its locals. */
  ghost predicate OwnOk(s: State, a: Aux, t: nat, n: Node)
    requires t < |s.threads| && n < |s.refs| == |s.next| == |a.place|
  {
    var th := s.threads[t];
    && (Holds(th, n) <==> a.place[n] == Held(t))
    && (Readies(th, n) <==> a.place[n] == Readied(t))
    && (Offers(th, n) <==> a.place[n] == Offered(t))
    && LocalsOk(s, th)
  }

  /** Only node n, the list and the stepping thread's locals have to be looked at. */
  lemma Assemble(s: State, a: Aux, s': State, a': Aux, t: nat, n: Node)
    requires Inv(s, a) && Touches(s, a, s', a', t, n)
    requires ChainOk(s', a') && OwnOk(s', a', t, n) && WordOk(s', a', n)
    ensures Inv(s', a')
  {
    forall u | 0 <= u < |s'.threads|
      ensures ThreadOk(s', a', u)
    {
      if u == t {
        OwnThread(s, a, s', a', t, n);
      } else {
        OtherThread(s, a, s', a', t, n, u);
      }
    }
    forall m | 0 <= m < |s'.refs|
      ensures WordOk(s', a', m)
    {
      if m != n {
        OtherWord(s, a, s', a', t, n, m);
      }
    }
  }

  /** The list is as it was when the head, its nodes and their next pointers are. */
  lemma SameChain(s: State, a: Aux, s': State, a': Aux, t: nat, n: Node)
    requires Inv(s, a) && Touches(s, a, s', a', t, n)
    requires s'.head == s.head && a'.chain == a.chain
    requires a'.place[n] == OnList <==> a.place[n] == OnList
    ensures ChainOk(s', a')
  {
    forall i | 0 <= i < |a.chain|
      ensures s'.next[a'.chain[i]] == Successor(a'.chain, i)
    {
      assert a.chain[i] in a.chain;
      assert s.next[a.chain[i]] == Successor(a.chain, i);
    }
  }

  /** Only the locals of thread t change, and not its part in any node. */
  lemma Quiet(s: State, a: Aux, s': State, t: nat)
    requires Inv(s, a) && t < |s.threads| == |s'.threads|
    requires s' == s.(threads := s.threads[t := s'.threads[t]])
    requires var th, th' := s.threads[t], s'.threads[t];
      && (forall m :: m in th'.owned ==> m < |s.refs|)
      && (forall m :: 0 <= m < |s.refs| ==>
            && Holds(th', m) == Holds(th, m) && Readies(th', m) == Readies(th, m)
            && Offers(th', m) == Offers(th, m) && Pins(th', m) == Pins(th, m)
            && (th'.pc == GetTake(m) <==> th.pc == GetTake(m)))
      && LocalsOk(s, th')
    ensures Inv(s', a)
  {
    assert ChainOk(s', a);
    forall u | 0 <= u < |s'.threads|
      ensures ThreadOk(s', a, u)
    {
      assert ThreadOk(s, a, u);
    }
    forall m | 0 <= m < |s'.refs|
      ensures WordOk(s', a, m)
    {
      assert WordOk(s, a, m);
      PinsChange(s, s', t, m);
    }
  }

  // ----- Each step keeps the invariant -----

  /** How the remembered list and places change with a step. */
  function Track(s: State, a: Aux, t: nat, m: Move): Aux {
    if t >= |s.threads| || !InRange(s, s.threads[t].pc) || |a.place| != |s.refs| then a else
    if m.Give? && m.node in s.threads[t].owned && m.node < |a.place| && m.to < |s.threads| && m.to != t then
      a.(place := a.place[m.node := Held(m.to)])
    else if m != Go then a else
    match s.threads[t].pc
    case AddFlag(n) => a.(place := a.place[n := if s.refs[n] == 0 then Readied(t) else Waiting])
    case PushRefs(n, h, k) => a.(place := a.place[n := Offered(t)])
    case PushCas(n, h, k) => if s.head == h then Aux([n] + a.chain, a.place[n := OnList]) else a
    case PushUndo(n, h, k) => a.(place := a.place[n := if s.refs[n] == 1 then Readied(t) else Waiting])
    case GetCas(n, x) =>
      if s.head == Ptr(n) && a.chain != [] then Aux(a.chain[1..], a.place[n := Held(t)]) else a
    case GetUnpin(n, h) =>
      if s.refs[n] == SHOULD_BE_ON_FREELIST + 1 then a.(place := a.place[n := Readied(t)]) else a
    case _ => a
  }

  /** A call only hands the node from the caller's set to the program counter. */
  lemma CallStep(s: State, a: Aux, t: nat, m: Move)
    requires Inv(s, a) && t < |s.threads| && !m.Go? && !m.Give?
    ensures Inv(Step(s, t, m), a)
  {
    var s' := Step(s, t, m);
    assert ThreadOk(s, a, t);
    if s' != s {
      Quiet(s, a, s', t);
    }
  }

  /** Passing a node on changes who holds it and nothing else. */
  lemma GiveStep(s: State, a: Aux, t: nat, n: Node, u: nat)
    requires Inv(s, a) && t < |s.threads| && u < |s.threads| && u != t && n in s.threads[t].owned
    ensures n < |a.place| && Inv(Given(s, t, n, u), a.(place := a.place[n := Held(u)]))
  {
    assert ThreadOk(s, a, t) && ThreadOk(s, a, u);
    var s', a' := Given(s, t, n, u), a.(place := a.place[n := Held(u)]);
    assert Holds(s.threads[t], n) && !Holds(s.threads[u], n);
    forall v | 0 <= v < |s'.threads|
      ensures ThreadOk(s', a', v)
    {
      assert ThreadOk(s, a, v);
      GivenThread(s, a, t, n, u, v);
    }
    forall m | 0 <= m < |s'.refs|
      ensures WordOk(s', a', m)
    {
      assert WordOk(s, a, m);
      GivenPins(s, t, n, u, m);
    }
  }

  lemma GivenThread(s: State, a: Aux, t: nat, n: Node, u: nat, v: nat)
    requires |a.place| == |s.refs| == |s.next| && n < |s.refs|
    requires t < |s.threads| && u < |s.threads| && u != t && v < |s.threads|
    requires ThreadOk(s, a, t) && ThreadOk(s, a, u) && ThreadOk(s, a, v)
    requires n in s.threads[t].owned
    ensures ThreadOk(Given(s, t, n, u), a.(place := a.place[n := Held(u)]), v)
  {
    assert Holds(s.threads[t], n);
    assert a.place[n] == Held(t);
    assert Holds(s.threads[u], n) <==> a.place[n] == Held(u);
  }

  lemma GivenPins(s: State, t: nat, n: Node, u: nat, m: Node)
    requires t < |s.threads| && u < |s.threads| && u != t
    ensures PinCount(Given(s, t, n, u), m) == PinCount(s, m)
  {
    var mid := s.(threads := s.threads[t := s.threads[t].(owned := s.threads[t].owned - {n})]);
    PinsChange(s, mid, t, m);
    PinsChange(mid, Given(s, t, n, u), u, m);
  }

  /** Loads of the head and of the count. */
  lemma LoadStep(s: State, a: Aux, t: nat)
    requires Inv(s, a) && t < |s.threads|
    requires var pc := s.threads[t].pc; pc.Idle? || pc.PushLoad? || pc.GetLoad? || pc.GetRefs?
    ensures Inv(Step(s, t, Go), a)
  {
    var s' := Step(s, t, Go);
    assert ThreadOk(s, a, t);
    assert s.head.Ptr? ==> a.chain != [] && s.head.node == a.chain[0];
    if s' != s {
      Quiet(s, a, s', t);
    }
  }

  /** The load of the next pointer: from here on the local copy agrees with the node. */
  lemma LoadNextStep(s: State, a: Aux, t: nat)
    requires Inv(s, a) && t < |s.threads| && s.threads[t].pc.GetNext?
    ensures Inv(Step(s, t, Go), a)
  {
    assert ThreadOk(s, a, t);
    assert WordOk(s, a, s.threads[t].pc.node);
    Quiet(s, a, Step(s, t, Go), t);
  }

  lemma FailedCasStep(s: State, a: Aux, t: nat)
    requires Inv(s, a) && t < |s.threads| && InRange(s, s.threads[t].pc) && IsLocal(s, s.threads[t].pc)
    requires var pc := s.threads[t].pc; pc.GetPin? || pc.PushCas? || pc.GetCas?
    ensures Inv(Step(s, t, Go), a)
  {
    assert ThreadOk(s, a, t);
    assert s.head.Ptr? ==> a.chain != [] && s.head.node == a.chain[0];
    Quiet(s, a, Step(s, t, Go), t);
  }

  predicate IsLocal(s: State, pc: PC)
    requires InRange(s, pc)
  {
    match pc
    case GetPin(n, r) => r % SHOULD_BE_ON_FREELIST == 0 || s.refs[n] != r
    case PushCas(n, h, k) => s.head != h
    case GetCas(n, x) => s.head != Ptr(n)
    case _ => pc.Idle? || pc.PushLoad? || pc.GetLoad? || pc.GetRefs? || pc.GetNext?
  }

  lemma AddFlagFrame(s: State, a: Aux, t: nat)
    requires Inv(s, a) && t < |s.threads| && s.threads[t].pc.AddFlag? && InRange(s, s.threads[t].pc)
    ensures var n := s.threads[t].pc.node;
      Touches(s, a, Step(s, t, Go), Track(s, a, t, Go), t, n) && OwnOk(Step(s, t, Go), Track(s, a, t, Go), t, n)
  {
    var n := s.threads[t].pc.node;
    assert ThreadOk(s, a, t) && WordOk(s, a, n);
  }

  lemma AddFlagWord(s: State, a: Aux, t: nat)
    requires Inv(s, a) && t < |s.threads| && s.threads[t].pc.AddFlag? && InRange(s, s.threads[t].pc)
    ensures var s', a', n := Step(s, t, Go), Track(s, a, t, Go), s.threads[t].pc.node;
      && |s'.refs| == |a'.place| == |s'.next| == |s.refs| && WordOk(s', a', n)
      && !a.place[n].OnList? && !a'.place[n].OnList?
  {
    var n := s.threads[t].pc.node;
    assert ThreadOk(s, a, t) && WordOk(s, a, n);
    PinsBounded(s, n);
    PinsChange(s, Step(s, t, Go), t, n);
  }

  lemma AddFlagStep(s: State, a: Aux, t: nat)
    requires Inv(s, a) && t < |s.threads| && s.threads[t].pc.AddFlag? && InRange(s, s.threads[t].pc)
    ensures Inv(Step(s, t, Go), Track(s, a, t, Go))
  {
    var s', a', n := Step(s, t, Go), Track(s, a, t, Go), s.threads[t].pc.node;
    AddFlagFrame(s, a, t);
    AddFlagWord(s, a, t);
    SameChain(s, a, s', a', t, n);
    Assemble(s, a, s', a', t, n);
  }

  lemma PushNextFrame(s: State, a: Aux, t: nat)
    requires Inv(s, a) && t < |s.threads| && s.threads[t].pc.PushNext? && InRange(s, s.threads[t].pc)
    ensures var n := s.threads[t].pc.node;
      Touches(s, a, Step(s, t, Go), Track(s, a, t, Go), t, n) && OwnOk(Step(s, t, Go), Track(s, a, t, Go), t, n)
  {
    var n := s.threads[t].pc.node;
    assert ThreadOk(s, a, t) && WordOk(s, a, n);
  }

  lemma PushNextWord(s: State, a: Aux, t: nat)
    requires Inv(s, a) && t < |s.threads| && s.threads[t].pc.PushNext? && InRange(s, s.threads[t].pc)
    ensures var s', a', n := Step(s, t, Go), Track(s, a, t, Go), s.threads[t].pc.node;
      && |s'.refs| == |a'.place| == |s'.next| == |s.refs| && WordOk(s', a', n)
      && !a.place[n].OnList? && !a'.place[n].OnList?
  {
    var n := s.threads[t].pc.node;
    assert ThreadOk(s, a, t) && WordOk(s, a, n);
    PinsChange(s, Step(s, t, Go), t, n);
  }

  /** The next pointer is rewritten while no thread has the node pinned. */
  lemma PushNextStep(s: State, a: Aux, t: nat)
    requires Inv(s, a) && t < |s.threads| && s.threads[t].pc.PushNext? && InRange(s, s.threads[t].pc)
    ensures Inv(Step(s, t, Go), Track(s, a, t, Go))
  {
    var s', a', n := Step(s, t, Go), Track(s, a, t, Go), s.threads[t].pc.node;
    PushNextFrame(s, a, t);
    PushNextWord(s, a, t);
    SameChain(s, a, s', a', t, n);
    Assemble(s, a, s', a', t, n);
  }

  lemma PushRefsFrame(s: State, a: Aux, t: nat)
    requires Inv(s, a) && t < |s.threads| && s.threads[t].pc.PushRefs? && InRange(s, s.threads[t].pc)
    ensures var n := s.threads[t].pc.node;
      Touches(s, a, Step(s, t, Go), Track(s, a, t, Go), t, n) && OwnOk(Step(s, t, Go), Track(s, a, t, Go), t, n)
  {
    var n := s.threads[t].pc.node;
    assert ThreadOk(s, a, t) && WordOk(s, a, n);
  }

  lemma PushRefsWord(s: State, a: Aux, t: nat)
    requires Inv(s, a) && t < |s.threads| && s.threads[t].pc.PushRefs? && InRange(s, s.threads[t].pc)
    ensures var s', a', n := Step(s, t, Go), Track(s, a, t, Go), s.threads[t].pc.node;
      && |s'.refs| == |a'.place| == |s'.next| == |s.refs| && WordOk(s', a', n)
      && !a.place[n].OnList? && !a'.place[n].OnList?
  {
    var n := s.threads[t].pc.node;
    assert ThreadOk(s, a, t) && WordOk(s, a, n);
    PinsChange(s, Step(s, t, Go), t, n);
  }

  lemma PushRefsStep(s: State, a: Aux, t: nat)
    requires Inv(s, a) && t < |s.threads| && s.threads[t].pc.PushRefs? && InRange(s, s.threads[t].pc)
    ensures Inv(Step(s, t, Go), Track(s, a, t, Go))
  {
    var s', a', n := Step(s, t, Go), Track(s, a, t, Go), s.threads[t].pc.node;
    PushRefsFrame(s, a, t);
    PushRefsWord(s, a, t);
    SameChain(s, a, s', a', t, n);
    Assemble(s, a, s', a', t, n);
  }

  lemma Pushed(s: State, a: Aux, s': State, a': Aux, n: Node)
    requires |a.place| == |s.refs| == |s.next| && ChainOk(s, a)
    requires n < |s.refs| && a.place[n] != OnList && s.next[n] == s.head
    requires s'.refs == s.refs && s'.next == s.next && s'.head == Ptr(n)
    requires a' == Aux([n] + a.chain, a.place[n := OnList])
    ensures ChainOk(s', a')
  {
    forall i | 0 <= i < |a'.chain|
      ensures s'.next[a'.chain[i]] == Successor(a'.chain, i)
    {
      if i > 0 {
        assert a'.chain[i] == a.chain[i - 1];
        assert s.next[a.chain[i - 1]] == Successor(a.chain, i - 1);
      }
    }
  }

  lemma PushCasFrame(s: State, a: Aux, t: nat)
    requires Inv(s, a) && t < |s.threads| && s.threads[t].pc.PushCas? && InRange(s, s.threads[t].pc)
    requires !IsLocal(s, s.threads[t].pc)
    ensures var n := s.threads[t].pc.node;
      Touches(s, a, Step(s, t, Go), Track(s, a, t, Go), t, n) && OwnOk(Step(s, t, Go), Track(s, a, t, Go), t, n)
  {
    var n := s.threads[t].pc.node;
    assert ThreadOk(s, a, t) && WordOk(s, a, n);
  }

  lemma PushCasWord(s: State, a: Aux, t: nat)
    requires Inv(s, a) && t < |s.threads| && s.threads[t].pc.PushCas? && InRange(s, s.threads[t].pc)
    requires !IsLocal(s, s.threads[t].pc)
    ensures var s', a', n := Step(s, t, Go), Track(s, a, t, Go), s.threads[t].pc.node;
      && |s'.refs| == |a'.place| == |s'.next| == |s.refs| && WordOk(s', a', n)
      && !a.place[n].OnList?
  {
    var n := s.threads[t].pc.node;
    assert ThreadOk(s, a, t) && WordOk(s, a, n);
    PinsChange(s, Step(s, t, Go), t, n);
  }

  /** The successful push: the next pointer stored earlier is still the head. */
  lemma PushCasStep(s: State, a: Aux, t: nat)
    requires Inv(s, a) && t < |s.threads| && s.threads[t].pc.PushCas? && InRange(s, s.threads[t].pc)
    requires !IsLocal(s, s.threads[t].pc)
    ensures Inv(Step(s, t, Go), Track(s, a, t, Go))
  {
    var s', a', n := Step(s, t, Go), Track(s, a, t, Go), s.threads[t].pc.node;
    PushCasFrame(s, a, t);
    PushCasWord(s, a, t);
    assert ThreadOk(s, a, t);
    Pushed(s, a, s', a', n);
    Assemble(s, a, s', a', t, n);
  }

  lemma PushUndoFrame(s: State, a: Aux, t: nat)
    requires Inv(s, a) && t < |s.threads| && s.threads[t].pc.PushUndo? && InRange(s, s.threads[t].pc)
    ensures var n := s.threads[t].pc.node;
      Touches(s, a, Step(s, t, Go), Track(s, a, t, Go), t, n) && OwnOk(Step(s, t, Go), Track(s, a, t, Go), t, n)
  {
    var n := s.threads[t].pc.node;
    assert ThreadOk(s, a, t) && WordOk(s, a, n);
  }

  lemma PushUndoWord(s: State, a: Aux, t: nat)
    requires Inv(s, a) && t < |s.threads| && s.threads[t].pc.PushUndo? && InRange(s, s.threads[t].pc)
    ensures var s', a', n := Step(s, t, Go), Track(s, a, t, Go), s.threads[t].pc.node;
      && |s'.refs| == |a'.place| == |s'.next| == |s.refs| && WordOk(s', a', n)
      && !a.place[n].OnList? && !a'.place[n].OnList?
  {
    var n := s.threads[t].pc.node;
    assert ThreadOk(s, a, t) && WordOk(s, a, n);
    PinsBounded(s, n);
    PinsChange(s, Step(s, t, Go), t, n);
  }

  lemma PushUndoStep(s: State, a: Aux, t: nat)
    requires Inv(s, a) && t < |s.threads| && s.threads[t].pc.PushUndo? && InRange(s, s.threads[t].pc)
    ensures Inv(Step(s, t, Go), Track(s, a, t, Go))
  {
    var s', a', n := Step(s, t, Go), Track(s, a, t, Go), s.threads[t].pc.node;
    PushUndoFrame(s, a, t);
    PushUndoWord(s, a, t);
    SameChain(s, a, s', a', t, n);
    Assemble(s, a, s', a', t, n);
  }

  lemma GetPinFrame(s: State, a: Aux, t: nat)
    requires Inv(s, a) && t < |s.threads| && s.threads[t].pc.GetPin? && InRange(s, s.threads[t].pc)
    requires !IsLocal(s, s.threads[t].pc)
    ensures var n := s.threads[t].pc.node;
      Touches(s, a, Step(s, t, Go), Track(s, a, t, Go), t, n) && OwnOk(Step(s, t, Go), Track(s, a, t, Go), t, n)
  {
    var n := s.threads[t].pc.node;
    assert ThreadOk(s, a, t) && WordOk(s, a, n);
  }

  lemma GetPinWord(s: State, a: Aux, t: nat)
    requires Inv(s, a) && t < |s.threads| && s.threads[t].pc.GetPin? && InRange(s, s.threads[t].pc)
    requires !IsLocal(s, s.threads[t].pc)
    ensures var s', a', n := Step(s, t, Go), Track(s, a, t, Go), s.threads[t].pc.node;
      && |s'.refs| == |a'.place| == |s'.next| == |s.refs| && WordOk(s', a', n)
      && (a.place[n] == OnList <==> a'.place[n] == OnList)
  {
    var n := s.threads[t].pc.node;
    assert ThreadOk(s, a, t) && WordOk(s, a, n);
    PinsBounded(s, n);
    PinsChange(s, Step(s, t, Go), t, n);
    assert Step(s, t, Go).refs[n] == s.refs[n] + 1;
    assert !a.place[n].Readied?;
  }

  /** A count can only be raised when it is not zero. */
  lemma GetPinStep(s: State, a: Aux, t: nat)
    requires Inv(s, a) && t < |s.threads| && s.threads[t].pc.GetPin? && InRange(s, s.threads[t].pc)
    requires !IsLocal(s, s.threads[t].pc)
    ensures Inv(Step(s, t, Go), Track(s, a, t, Go))
  {
    var s', a', n := Step(s, t, Go), Track(s, a, t, Go), s.threads[t].pc.node;
    GetPinFrame(s, a, t);
    GetPinWord(s, a, t);
    SameChain(s, a, s', a', t, n);
    Assemble(s, a, s', a', t, n);
  }

  lemma Popped(s: State, a: Aux, s': State, a': Aux, n: Node)
    requires |a.place| == |s.refs| == |s.next| == |a'.place| && ChainOk(s, a)
    requires n < |s.refs| && s.head == Ptr(n)
    requires s'.refs == s.refs && s'.next == s.next && s'.head == s.next[n]
    requires a'.chain == a.chain[1..] && a'.place == a.place[n := a'.place[n]] && a'.place[n] != OnList
    ensures ChainOk(s', a')
  {
    assert a.chain == [n] + a'.chain;
    assert s.next[a.chain[0]] == Successor(a.chain, 0);
    forall i | 0 <= i < |a'.chain|
      ensures s'.next[a'.chain[i]] == Successor(a'.chain, i)
    {
      assert s.next[a.chain[i + 1]] == Successor(a.chain, i + 1);
    }
  }

  lemma GetCasFrame(s: State, a: Aux, t: nat)
    requires Inv(s, a) && t < |s.threads| && s.threads[t].pc.GetCas? && InRange(s, s.threads[t].pc)
    requires !IsLocal(s, s.threads[t].pc)
    ensures var n := s.threads[t].pc.node;
      Touches(s, a, Step(s, t, Go), Track(s, a, t, Go), t, n) && OwnOk(Step(s, t, Go), Track(s, a, t, Go), t, n)
  {
    var n := s.threads[t].pc.node;
    assert ThreadOk(s, a, t) && WordOk(s, a, n);
  }

  lemma GetCasWord(s: State, a: Aux, t: nat)
    requires Inv(s, a) && t < |s.threads| && s.threads[t].pc.GetCas? && InRange(s, s.threads[t].pc)
    requires !IsLocal(s, s.threads[t].pc)
    ensures var s', a', n := Step(s, t, Go), Track(s, a, t, Go), s.threads[t].pc.node;
      && |s'.refs| == |a'.place| == |s'.next| == |s.refs| && WordOk(s', a', n)
      && !a'.place[n].OnList?
  {
    var n := s.threads[t].pc.node;
    assert ThreadOk(s, a, t) && WordOk(s, a, n);
    PinsChange(s, Step(s, t, Go), t, n);
  }

  /** The successful pop: the next pointer read earlier is still the head's successor. */
  lemma GetCasStep(s: State, a: Aux, t: nat)
    requires Inv(s, a) && t < |s.threads| && s.threads[t].pc.GetCas? && InRange(s, s.threads[t].pc)
    requires !IsLocal(s, s.threads[t].pc)
    ensures Inv(Step(s, t, Go), Track(s, a, t, Go))
  {
    var s', a', n := Step(s, t, Go), Track(s, a, t, Go), s.threads[t].pc.node;
    GetCasFrame(s, a, t);
    GetCasWord(s, a, t);
    assert ThreadOk(s, a, t);
    Popped(s, a, s', a', n);
    Assemble(s, a, s', a', t, n);
  }

  lemma GetTakeFrame(s: State, a: Aux, t: nat)
    requires Inv(s, a) && t < |s.threads| && s.threads[t].pc.GetTake? && InRange(s, s.threads[t].pc)
    ensures var n := s.threads[t].pc.node;
      Touches(s, a, Step(s, t, Go), Track(s, a, t, Go), t, n) && OwnOk(Step(s, t, Go), Track(s, a, t, Go), t, n)
  {
    var n := s.threads[t].pc.node;
    assert ThreadOk(s, a, t) && WordOk(s, a, n);
  }

  lemma GetTakeWord(s: State, a: Aux, t: nat)
    requires Inv(s, a) && t < |s.threads| && s.threads[t].pc.GetTake? && InRange(s, s.threads[t].pc)
    ensures var s', a', n := Step(s, t, Go), Track(s, a, t, Go), s.threads[t].pc.node;
      && |s'.refs| == |a'.place| == |s'.next| == |s.refs| && WordOk(s', a', n)
      && !a.place[n].OnList? && !a'.place[n].OnList?
  {
    var n := s.threads[t].pc.node;
    assert ThreadOk(s, a, t) && WordOk(s, a, n);
    PinsBounded(s, n);
    PinsChange(s, Step(s, t, Go), t, n);
  }

  lemma GetTakeStep(s: State, a: Aux, t: nat)
    requires Inv(s, a) && t < |s.threads| && s.threads[t].pc.GetTake? && InRange(s, s.threads[t].pc)
    ensures Inv(Step(s, t, Go), Track(s, a, t, Go))
  {
    var s', a', n := Step(s, t, Go), Track(s, a, t, Go), s.threads[t].pc.node;
    GetTakeFrame(s, a, t);
    GetTakeWord(s, a, t);
    SameChain(s, a, s', a', t, n);
    Assemble(s, a, s', a', t, n);
  }

  lemma GetUnpinFrame(s: State, a: Aux, t: nat)
    requires Inv(s, a) && t < |s.threads| && s.threads[t].pc.GetUnpin? && InRange(s, s.threads[t].pc)
    ensures var n := s.threads[t].pc.node;
      Touches(s, a, Step(s, t, Go), Track(s, a, t, Go), t, n) && OwnOk(Step(s, t, Go), Track(s, a, t, Go), t, n)
  {
    var n := s.threads[t].pc.node;
    assert ThreadOk(s, a, t) && WordOk(s, a, n);
    PinsBounded(s, n);
    PinnedIsPositive(s, t, n);
  }

  lemma GetUnpinWord(s: State, a: Aux, t: nat)
    requires Inv(s, a) && t < |s.threads| && s.threads[t].pc.GetUnpin? && InRange(s, s.threads[t].pc)
    ensures var s', a', n := Step(s, t, Go), Track(s, a, t, Go), s.threads[t].pc.node;
      && |s'.refs| == |a'.place| == |s'.next| == |s.refs| && WordOk(s', a', n)
      && (a.place[n] == OnList <==> a'.place[n] == OnList)
  {
    var n := s.threads[t].pc.node;
    assert ThreadOk(s, a, t) && WordOk(s, a, n);
    PinsBounded(s, n);
    PinnedIsPositive(s, t, n);
    assert !a.place[n].Readied?;
    PinsChange(s, Step(s, t, Go), t, n);
    assert s.refs[n] > 0 && Step(s, t, Go).refs[n] == s.refs[n] - 1;
    assert PinCount(Step(s, t, Go), n) == PinCount(s, n) - 1;
  }

  lemma GetUnpinStep(s: State, a: Aux, t: nat)
    requires Inv(s, a) && t < |s.threads| && s.threads[t].pc.GetUnpin? && InRange(s, s.threads[t].pc)
    ensures Inv(Step(s, t, Go), Track(s, a, t, Go))
  {
    var s', a', n := Step(s, t, Go), Track(s, a, t, Go), s.threads[t].pc.node;
    GetUnpinFrame(s, a, t);
    GetUnpinWord(s, a, t);
    SameChain(s, a, s', a', t, n);
    Assemble(s, a, s', a', t, n);
  }

  // ----- Every run -----

  lemma StepKeepsInv(s: State, a: Aux, t: nat, m: Move)
    requires Inv(s, a)
    ensures Inv(Step(s, t, m), Track(s, a, t, m))
  {
    if t < |s.threads| && InRange(s, s.threads[t].pc) {
      if m.Give? {
        if m.node in s.threads[t].owned && m.to < |s.threads| && m.to != t {
          GiveStep(s, a, t, m.node, m.to);
        }
      } else if !m.Go? {
        CallStep(s, a, t, m);
      } else if IsLocal(s, s.threads[t].pc) {
        match s.threads[t].pc
        case GetNext(_) => LoadNextStep(s, a, t);
        case GetPin(_, _) => FailedCasStep(s, a, t);
        case PushCas(_, _, _) => FailedCasStep(s, a, t);
        case GetCas(_, _) => FailedCasStep(s, a, t);
        case _ => LoadStep(s, a, t);
      } else {
        match s.threads[t].pc
        case AddFlag(_) => AddFlagStep(s, a, t);
        case PushNext(_, _, _) => PushNextStep(s, a, t);
        case PushRefs(_, _, _) => PushRefsStep(s, a, t);
        case PushCas(_, _, _) => PushCasStep(s, a, t);
        case PushUndo(_, _, _) => PushUndoStep(s, a, t);
        case GetPin(_, _) => GetPinStep(s, a, t);
        case GetCas(_, _) => GetCasStep(s, a, t);
        case GetTake(_) => GetTakeStep(s, a, t);
        case GetUnpin(_, _) => GetUnpinStep(s, a, t);
      }
    }
  }

  lemma InitOwners(s: State, k: nat) returns (place: seq<Place>)
    requires Init(s) && k <= |s.refs|
    ensures |place| == k
    ensures forall n :: 0 <= n < k ==> place[n].Held? && place[n].t < |s.threads| && n in s.threads[place[n].t].owned
  {
    if k == 0 {
      place := [];
    } else {
      var init := InitOwners(s, k - 1);
      var n: Node := k - 1;
      assert s.refs[n] == 0;
      var t :| 0 <= t < |s.threads| && n in s.threads[t].owned;
      place := init + [Held(t)];
    }
  }

  lemma InitHasInv(s: State) returns (a: Aux)
    requires Init(s)
    ensures Inv(s, a)
  {
    var place := InitOwners(s, |s.refs|);
    a := Aux([], place);
    forall t | 0 <= t < |s.threads|
      ensures ThreadOk(s, a, t)
    {
      forall n | 0 <= n < |s.refs|
        ensures Holds(s.threads[t], n) <==> place[n] == Held(t)
      {
        assert n in s.threads[place[n].t].owned;
        if n in s.threads[t].owned && place[n].t != t {
          assert false;
        }
      }
    }
    forall n | 0 <= n < |s.refs|
      ensures WordOk(s, a, n)
    {
      SumZero(s.threads, PinWeight(n));
    }
  }

  lemma {:induction false} RunKeepsInv(s: State, moves: seq<(nat, Move)>) returns (a: Aux)
    requires Init(s)
    ensures Inv(Run(s, moves), a)
    decreases |moves|
  {
    if moves == [] {
      a := InitHasInv(s);
    } else {
      var last := |moves| - 1;
      var b := RunKeepsInv(s, moves[..last]);
      StepKeepsInv(Run(s, moves[..last]), b, moves[last].0, moves[last].1);
      a := Track(Run(s, moves[..last]), b, moves[last].0, moves[last].1);
    }
  }

  /** `chain` is what one finds by following the next pointers from the head: no node twice, and an end. */
  ghost predicate IsList(s: State, chain: seq<Node>) {
    && |s.next| == |s.refs|
    && s.head == (if chain == [] then Null else Ptr(chain[0]))
    && (forall i :: 0 <= i < |chain| ==> chain[i] < |s.refs| && s.next[chain[i]] == Successor(chain, i))
    && (forall i, j :: 0 <= i < j < |chain| ==> chain[i] != chain[j])
  }

  /** A thread is responsible for the node: it owns it or is pushing it. */
  predicate Claims(th: Thread, n: Node) {
    Holds(th, n) || Readies(th, n) || Offers(th, n)
  }

  /** Each node is in exactly one place: with one thread, on the list once, or waiting with the flag set for
      a thread that has it pinned. */
  ghost predicate OnePlace(s: State, chain: seq<Node>, n: Node)
    requires n < |s.refs|
  {
    && (forall t, u :: 0 <= t < |s.threads| && 0 <= u < |s.threads|
          ==> Claims(s.threads[t], n) && Claims(s.threads[u], n) ==> t == u)
    && (forall t :: 0 <= t < |s.threads| ==>
          && !(Holds(s.threads[t], n) && (Readies(s.threads[t], n) || Offers(s.threads[t], n)))
          && (Claims(s.threads[t], n) ==> n !in chain)
          && (n in chain || Holds(s.threads[t], n) || Offers(s.threads[t], n) ==> s.refs[n] < SHOULD_BE_ON_FREELIST))
    && (n !in chain && (forall t :: 0 <= t < |s.threads| ==> !Claims(s.threads[t], n)) ==>
          s.refs[n] > SHOULD_BE_ON_FREELIST && exists t :: 0 <= t < |s.threads| && Pins(s.threads[t], n))
  }

  ghost predicate Partitioned(s: State, chain: seq<Node>) {
    IsList(s, chain) && forall n :: 0 <= n < |s.refs| ==> OnePlace(s, chain, n)
  }

  lemma InvGivesOnePlace(s: State, a: Aux, n: Node)
    requires Inv(s, a) && n < |s.refs|
    ensures OnePlace(s, a.chain, n)
  {
    assert WordOk(s, a, n);
    PinsBounded(s, n);
    forall t | 0 <= t < |s.threads|
      ensures Holds(s.threads[t], n) <==> a.place[n] == Held(t)
      ensures Readies(s.threads[t], n) <==> a.place[n] == Readied(t)
      ensures Offers(s.threads[t], n) <==> a.place[n] == Offered(t)
    {
      assert ThreadOk(s, a, t);
    }
    var p := a.place[n];
    assert p.Held? || p.Readied? || p.Offered? ==> p.t < |s.threads| && Claims(s.threads[p.t], n);
    if n !in a.chain && (forall t :: 0 <= t < |s.threads| ==> !Claims(s.threads[t], n)) {
      assert p.Waiting?;
      var u := SumPositive(s.threads, PinWeight(n));
      assert Pins(s.threads[u], n);
    }
  }

  /** In every reachable state the list is acyclic and every node is in exactly one place. */
  lemma EveryNodeInOnePlace(s: State, moves: seq<(nat, Move)>)
    requires Init(s)
    ensures exists chain :: Partitioned(Run(s, moves), chain)
  {
    var a := RunKeepsInv(s, moves);
    var r := Run(s, moves);
    assert IsList(r, a.chain);
    forall n | 0 <= n < |r.refs|
      ensures OnePlace(r, a.chain, n)
    {
      InvGivesOnePlace(r, a, n);
    }
    assert Partitioned(r, a.chain);
  }

  /** A node that `try_get` has just taken off the list does not have the flag, whatever its count. */
  lemma {:induction false} TakenNodeHasNoFlag(s: State, moves: seq<(nat, Move)>, t: nat)
    requires Init(s)
    requires var r := Run(s, moves); t < |r.threads| && r.threads[t].pc.GetTake?
    ensures var r := Run(s, moves); var n := r.threads[t].pc.node;
      n < |r.refs| && 2 <= r.refs[n] < SHOULD_BE_ON_FREELIST
  {
    var a := RunKeepsInv(s, moves);
    var r := Run(s, moves);
    var n := r.threads[t].pc.node;
    assert ThreadOk(r, a, t) && WordOk(r, a, n);
    PinsBounded(r, n);
  }

  /** When the CAS of `try_get` is about to succeed, the next pointer read two steps ago is still the
      successor of the head, however many pops and pushes have happened since; so exactly the head goes. */
  lemma {:induction false} PopRemovesExactlyTheHead(s: State, moves: seq<(nat, Move)>, t: nat)
    requires Init(s)
    requires var r := Run(s, moves); t < |r.threads| && r.threads[t].pc.GetCas? && r.head == Ptr(r.threads[t].pc.node)
    ensures var r := Run(s, moves); var n := r.threads[t].pc.node;
      && n < |r.next| && r.threads[t].pc.next == r.next[n]
      && exists chain :: IsList(r, [n] + chain) && IsList(Step(r, t, Go), chain)
  {
    var a := RunKeepsInv(s, moves);
    var r := Run(s, moves);
    var n := r.threads[t].pc.node;
    assert ThreadOk(r, a, t);
    GetCasStep(r, a, t);
    assert a.chain == [n] + a.chain[1..];
    assert IsList(r, [n] + a.chain[1..]);
    assert IsList(Step(r, t, Go), a.chain[1..]);
  }

  /** No node belongs to two threads, and the node `try_get` returns belonged to nobody. */
  lemma {:induction false} NeverTwoOwners(s: State, moves: seq<(nat, Move)>, t: nat, u: nat, n: Node)
    requires Init(s)
    requires var r := Run(s, moves); t < |r.threads| && u < |r.threads| && t != u
    requires Holds(Run(s, moves).threads[t], n)
    ensures !Claims(Run(s, moves).threads[u], n)
    ensures n !in Run(s, moves).threads[u].owned
  {
    var a := RunKeepsInv(s, moves);
    var r := Run(s, moves);
    assert ThreadOk(r, a, t) && ThreadOk(r, a, u);
  }

  /** Once every call has returned nothing is lost: a node no thread owns is on the list, with count one. */
  lemma {:induction false} QuietMeansNoLeak(s: State, moves: seq<(nat, Move)>, n: Node)
    requires Init(s) && n < |Run(s, moves).refs|
    requires forall t :: 0 <= t < |Run(s, moves).threads| ==> Run(s, moves).threads[t].pc == Idle
    requires forall t :: 0 <= t < |Run(s, moves).threads| ==> n !in Run(s, moves).threads[t].owned
    ensures Run(s, moves).refs[n] == 1
    ensures exists chain :: IsList(Run(s, moves), chain) && n in chain
  {
    var a := RunKeepsInv(s, moves);
    var r := Run(s, moves);
    InvGivesOnePlace(r, a, n);
    assert WordOk(r, a, n);
    SumZero(r.threads, PinWeight(n));
    assert IsList(r, a.chain);
  }

  // ----- What a call returns -----

  /** Thread t goes on alone. */
  function Alone(s: State, t: nat, k: nat): State
    decreases k
  {
    if k == 0 then s else Alone(Step(s, t, Go), t, k - 1)
  }

  /** Everybody is between calls. */
  predicate AllIdle(s: State) {
    forall u :: 0 <= u < |s.threads| ==> s.threads[u].pc == Idle
  }

  /** Then a node that is owned has the word 0 and one on the list the word 1. */
  lemma IdleWords(s: State, a: Aux, n: Node)
    requires Inv(s, a) && AllIdle(s) && n < |s.refs|
    ensures n in a.chain ==> s.refs[n] == 1
    ensures forall t :: 0 <= t < |s.threads| && n in s.threads[t].owned ==> s.refs[n] == 0 && n !in a.chain
  {
    assert WordOk(s, a, n);
    SumZero(s.threads, PinWeight(n));
    forall t | 0 <= t < |s.threads| && n in s.threads[t].owned
      ensures s.refs[n] == 0 && n !in a.chain
    {
      assert ThreadOk(s, a, t) && Holds(s.threads[t], n);
    }
  }

  /** The state after the six accesses of a try_get that nobody disturbs. */
  function Taken(s: State, t: nat, n: Node): State
    requires t < |s.threads| && n < |s.refs| == |s.next|
  {
    State(s.next[n], s.refs[n := 0], s.next, s.threads[t := Thread(Idle, s.threads[t].owned + {n})])
  }

  lemma GetSteps(s: State, t: nat, n: Node)
    requires t < |s.threads| && s.threads[t].pc == Idle && n < |s.refs| == |s.next|
    requires s.head == Ptr(n) && s.refs[n] == 1
    ensures Alone(Step(s, t, CallTryGet), t, 6) == Taken(s, t, n)
  {
    var o := s.threads[t].owned;
    var pinned := s.(refs := s.refs[n := 2]);
    var s0 := At(s, t, GetLoad);
    var s2 := At(s, t, GetPin(n, 1));
    var s4 := At(pinned, t, GetCas(n, s.next[n]));
    var s5 := At(pinned.(head := s.next[n]), t, GetTake(n));
    assert Step(Step(s0, t, Go), t, Go) == s2;
    assert Step(Step(s2, t, Go), t, Go) == s4;
    assert Step(s4, t, Go) == s5;
    assert s5.refs[n] == 2 && pinned.refs[n := 0] == s.refs[n := 0];
    assert Step(s5, t, Go) == Taken(s, t, n);
    assert Alone(s0, t, 6) == Alone(s2, t, 4) == Alone(s4, t, 2) == Alone(s5, t, 1) == Step(s5, t, Go);
  }

  /** In every reachable state with nobody else inside, try_get takes the first node of the list, and nothing
      exactly when the list is empty; it takes six accesses, or one. */
  lemma {:induction false} TryGetTakesTheHead(s: State, moves: seq<(nat, Move)>, t: nat)
    returns (chain: seq<Node>)
    requires Init(s) && AllIdle(Run(s, moves)) && t < |Run(s, moves).threads|
    ensures var r := Run(s, moves);
      && IsList(r, chain)
      && if chain == [] then Alone(Step(r, t, CallTryGet), t, 1) == r
         else
           var n := chain[0]; var r' := Alone(Step(r, t, CallTryGet), t, 6);
           && IsList(r', chain[1..])
           && r'.threads == r.threads[t := Thread(Idle, r.threads[t].owned + {n})] && n !in r.threads[t].owned
           && r'.refs == r.refs[n := 0] && r'.next == r.next
  {
    var a := RunKeepsInv(s, moves);
    var r := Run(s, moves);
    chain := a.chain;
    if chain == [] {
      assert At(r, t, GetLoad).head == Null;
      assert Alone(Step(r, t, CallTryGet), t, 1) == Step(At(r, t, GetLoad), t, Go) == r;
    } else {
      var n := chain[0];
      IdleWords(r, a, n);
      GetSteps(r, t, n);
      var r' := Taken(r, t, n);
      assert forall i :: 0 <= i < |chain[1..]| ==> chain[1..][i] == chain[i + 1];
      assert IsList(r', chain[1..]);
    }
  }

  /** The state after the five accesses of an add that nobody disturbs. */
  function Added(s: State, t: nat, n: Node): State
    requires t < |s.threads| && n < |s.refs| == |s.next|
  {
    State(Ptr(n), s.refs[n := 1], s.next[n := s.head], s.threads[t := Thread(Idle, s.threads[t].owned - {n})])
  }

  lemma AddSteps(s: State, t: nat, n: Node)
    requires t < |s.threads| && s.threads[t].pc == Idle && n in s.threads[t].owned && n < |s.refs| == |s.next|
    requires s.refs[n] == 0
    ensures Alone(Step(s, t, CallAdd(n)), t, 5) == Added(s, t, n)
  {
    var o := s.threads[t].owned - {n};
    var flagged := s.(refs := s.refs[n := SHOULD_BE_ON_FREELIST]);
    var ready := s.(refs := s.refs[n := 1], next := s.next[n := s.head]);
    var s0 := s.(threads := s.threads[t := Thread(AddFlag(n), o)]);
    var s2 := flagged.(threads := s.threads[t := Thread(PushNext(n, s.head, Return), o)]);
    var s4 := ready.(threads := s.threads[t := Thread(PushCas(n, s.head, Return), o)]);
    assert Step(Step(s0, t, Go), t, Go) == s2;
    assert Step(Step(s2, t, Go), t, Go) == s4;
    assert Step(s4, t, Go) == Added(s, t, n);
    assert Alone(s0, t, 5) == Alone(s2, t, 3) == Alone(s4, t, 1) == Step(s4, t, Go);
  }

  /** And add puts the node at the front of the list, in five accesses. */
  lemma {:induction false} AddPutsAtTheFront(s: State, moves: seq<(nat, Move)>, t: nat, n: Node)
    returns (chain: seq<Node>)
    requires Init(s) && AllIdle(Run(s, moves)) && t < |Run(s, moves).threads| && n in Run(s, moves).threads[t].owned
    ensures var r := Run(s, moves); var r' := Alone(Step(r, t, CallAdd(n)), t, 5);
      && IsList(r, chain) && IsList(r', [n] + chain) && n !in chain
      && r'.threads == r.threads[t := Thread(Idle, r.threads[t].owned - {n})]
      && n < |r.refs| && r'.refs == r.refs[n := 1]
  {
    var a := RunKeepsInv(s, moves);
    var r := Run(s, moves);
    chain := a.chain;
    assert ThreadOk(r, a, t);
    IdleWords(r, a, n);
    AddSteps(r, t, n);
    var r', longer := Added(r, t, n), [n] + chain;
    forall i | 0 <= i < |longer|
      ensures longer[i] < |r'.refs| && r'.next[longer[i]] == Successor(longer, i)
    {
      if i > 0 {
        assert longer[i] == chain[i - 1];
      }
    }
    assert IsList(r', longer);
  }

  /** The thread is somewhere in try_get, also while that puts back a node. */
  predicate InTryGet(pc: PC) {
    pc.GetLoad? || pc.GetRefs? || pc.GetPin? || pc.GetNext? || pc.GetCas? || pc.GetTake? || pc.GetUnpin?
    || ContOf(pc).Resume?
  }

  /** The last head it has loaded was null. */
  predicate HasNull(pc: PC) {
    ContOf(pc) == Resume(Null) || (pc.GetUnpin? && pc.head == Null)
  }

  /** At move j thread t loads the head, in its first load or in a CAS that fails, and finds it null; from then on
      to the end of the run it is in the same call. */
  ghost predicate SawNull(s: State, moves: seq<(nat, Move)>, t: nat, j: nat) {
    && j < |moves| && moves[j] == (t, Go)
    && Run(s, moves[..j]).head == Null
    && t < |Run(s, moves[..j]).threads| && (Run(s, moves[..j]).threads[t].pc.GetLoad? || Run(s, moves[..j]).threads[t].pc.GetCas?)
    && forall k :: j < k < |moves| ==>
         t < |Run(s, moves[..k]).threads| && InTryGet(Run(s, moves[..k]).threads[t].pc)
  }

  /** One step of thread t: it gives the list up only when the head it has just loaded, or had loaded, is null. */
  lemma NullStep(s: State, t: nat, m: Move)
    requires t < |s.threads|
    ensures var pc, pc' := s.threads[t].pc, Step(s, t, m).threads[t].pc;
      && |Step(s, t, m).threads| == |s.threads|
      && (HasNull(pc') ==> HasNull(pc) || (m == Go && pc.GetCas? && s.head == Null))
      && (InTryGet(pc) && pc' == Idle ==>
            m == Go && (pc.GetTake? || HasNull(pc) || (pc.GetLoad? && s.head == Null)))
      && (HasNull(pc) ==> InTryGet(pc))
  {
  }

  lemma OtherStep(s: State, u: nat, m: Move, t: nat)
    requires t < |s.threads| && t != u
    ensures |Step(s, u, m).threads| == |s.threads| && Step(s, u, m).threads[t].pc == s.threads[t].pc
  {
  }

  lemma SawNullLater(s: State, moves: seq<(nat, Move)>, t: nat, j: nat, m: (nat, Move))
    requires SawNull(s, moves, t, j)
    requires t < |Run(s, moves).threads| && InTryGet(Run(s, moves).threads[t].pc)
    ensures SawNull(s, moves + [m], t, j)
  {
    hide Run;
    var more := moves + [m];
    forall k | 0 <= k <= |moves|
      ensures more[..k] == moves[..k]
    {
    }
    assert moves[..|moves|] == moves;
  }

  lemma SawNullNow(s: State, moves: seq<(nat, Move)>, t: nat)
    requires Run(s, moves).head == Null && t < |Run(s, moves).threads|
    requires Run(s, moves).threads[t].pc.GetLoad? || Run(s, moves).threads[t].pc.GetCas?
    ensures SawNull(s, moves + [(t, Go)], t, |moves|)
  {
    hide Run;
    assert (moves + [(t, Go)])[..|moves|] == moves;
  }

  lemma {:induction false} NullWasSeen(s: State, moves: seq<(nat, Move)>, t: nat) returns (j: nat)
    requires Init(s) && t < |Run(s, moves).threads| && HasNull(Run(s, moves).threads[t].pc)
    ensures SawNull(s, moves, t, j)
    decreases |moves|
  {
    hide Step, SawNull;
    var before, last := moves[..|moves| - 1], moves[|moves| - 1];
    var r := Run(s, before);
    assert moves == before + [last];
    assert Run(s, moves) == Step(r, last.0, last.1);
    ThreadsStay(r, last.0, last.1);
    if last.0 == t {
      NullStep(r, t, last.1);
    } else {
      OtherStep(r, last.0, last.1, t);
      NullStep(r, t, Go);
    }
    if HasNull(r.threads[t].pc) {
      j := NullWasSeen(s, before, t);
      SawNullLater(s, before, t, j, last);
    } else {
      j := |before|;
      SawNullNow(s, before, t);
    }
  }

  lemma ThreadsStay(s: State, t: nat, m: Move)
    ensures |Step(s, t, m).threads| == |s.threads|
  {
  }

  /** However many threads interfere: a try_get that ends has taken the node of its successful CAS, or returns
      null and has, in this call, loaded the head and found the list empty. */
  lemma {:induction false} NullMeansEmpty(s: State, moves: seq<(nat, Move)>, t: nat, m: Move) returns (j: nat)
    requires Init(s)
    requires var r := Run(s, moves); t < |r.threads| && InTryGet(r.threads[t].pc) && Step(r, t, m).threads[t].pc == Idle
    ensures var r := Run(s, moves); var th := r.threads[t];
      if th.pc.GetTake? then Step(r, t, m).threads[t].owned == th.owned + {th.pc.node}
      else Step(r, t, m).threads[t].owned == th.owned && SawNull(s, moves + [(t, m)], t, j)
  {
    var r := Run(s, moves);
    NullStep(r, t, m);
    TryGetOwns(s, moves, t, m);
    hide Step, SawNull;
    j := 0;
    if !r.threads[t].pc.GetTake? {
      if HasNull(r.threads[t].pc) {
        j := NullWasSeen(s, moves, t);
        SawNullLater(s, moves, t, j, (t, m));
      } else {
        j := |moves|;
        SawNullNow(s, moves, t);
      }
    }
  }

  lemma TryGetOwns(s: State, moves: seq<(nat, Move)>, t: nat, m: Move)
    requires Init(s)
    requires var r := Run(s, moves); t < |r.threads| && InTryGet(r.threads[t].pc) && Step(r, t, m).threads[t].pc == Idle
    ensures var r := Run(s, moves); var th := r.threads[t];
      Step(r, t, m).threads[t].owned == if th.pc.GetTake? then th.owned + {th.pc.node} else th.owned
  {
    var a := RunKeepsInv(s, moves);
    assert ThreadOk(Run(s, moves), a, t);
    hide Inv, Run;
  }

  // ----- A call that is left alone ends -----

  /** The steps that are left for try_get when it goes on at `head`: to a node that is no longer the first it
      comes once in vain. */
  function RefsLeft(s: State, head: Link): nat {
    if head == Null then 0 else if head == s.head then 5 else 10
  }

  function ContLeft(k: Cont): nat {
    if k == Return || k == Resume(Null) then 0 else 10
  }

  /** The flag is set, and the thread that asks is the last to have the node pinned. */
  predicate LastPin(s: State, n: Node) {
    n < |s.refs| && s.refs[n] == SHOULD_BE_ON_FREELIST + 1
  }

  predicate PinFails(s: State, n: Node, r: nat) {
    r % SHOULD_BE_ON_FREELIST == 0 || (n < |s.refs| && s.refs[n] != r)
  }

  /** The steps that are left, at most, when nobody else moves. */
  function StepsLeft(s: State, pc: PC): nat {
    match pc
    case Idle => 0
    case AddFlag(_) => 5
    case PushLoad(_, k) => 4 + ContLeft(k)
    case PushNext(_, h, k) => (if s.head == h then 3 else 7) + ContLeft(k)
    case PushRefs(_, h, k) => (if s.head == h then 2 else 6) + ContLeft(k)
    case PushCas(_, h, k) => (if s.head == h then 1 else 5) + ContLeft(k)
    case PushUndo(n, h, k) => (if n < |s.refs| && s.refs[n] != 1 then 1 else if s.head == h then 4 else 8) + ContLeft(k)
    case GetLoad => 6
    case GetRefs(n) => RefsLeft(s, Ptr(n))
    case GetPin(n, r) => if PinFails(s, n, r) then 7 else if s.head == Ptr(n) then 4 else 9
    case GetNext(n) => if s.head == Ptr(n) then 3 else if LastPin(s, n) then 17 else 8
    case GetCas(n, _) => if s.head == Ptr(n) then 2 else if LastPin(s, n) then 16 else 7
    case GetTake(_) => 1
    case GetUnpin(n, h) => if LastPin(s, n) then 15 else 1 + RefsLeft(s, h)
  }

  /** The first node of the list can be pinned. */
  lemma HeadHasCount(s: State, a: Aux)
    requires Inv(s, a) && s.head.Ptr?
    ensures s.head.node < |s.refs| && 0 < s.refs[s.head.node] < SHOULD_BE_ON_FREELIST
  {
    var n := s.head.node;
    assert n in a.chain;
    assert WordOk(s, a, n);
    PinsBounded(s, n);
  }

  lemma PushComesCloser(s: State, t: nat)
    requires t < |s.threads| && InRange(s, s.threads[t].pc)
    requires var pc := s.threads[t].pc; pc.AddFlag? || pc.PushLoad? || pc.PushNext? || pc.PushRefs? || pc.PushCas? || pc.PushUndo?
    ensures var s' := Step(s, t, Go);
      |s'.threads| == |s.threads| && StepsLeft(s', s'.threads[t].pc) < StepsLeft(s, s.threads[t].pc)
  {
  }

  lemma GetComesCloser(s: State, t: nat)
    requires t < |s.threads| && InRange(s, s.threads[t].pc)
    requires var pc := s.threads[t].pc; pc.GetRefs? || pc.GetPin? || pc.GetNext? || pc.GetCas? || pc.GetTake? || pc.GetUnpin?
    requires s.head.Ptr? ==> s.head.node < |s.refs| && 0 < s.refs[s.head.node] < SHOULD_BE_ON_FREELIST
    ensures var s' := Step(s, t, Go);
      |s'.threads| == |s.threads| && StepsLeft(s', s'.threads[t].pc) < StepsLeft(s, s.threads[t].pc)
  {
  }

  lemma ComesCloser(s: State, a: Aux, t: nat)
    requires Inv(s, a) && t < |s.threads| && s.threads[t].pc != Idle
    ensures var s' := Step(s, t, Go);
      |s'.threads| == |s.threads| && StepsLeft(s', s'.threads[t].pc) < StepsLeft(s, s.threads[t].pc)
  {
    assert ThreadOk(s, a, t);
    if s.head.Ptr? {
      HeadHasCount(s, a);
    }
    var pc := s.threads[t].pc;
    if pc.AddFlag? || pc.PushLoad? || pc.PushNext? || pc.PushRefs? || pc.PushCas? || pc.PushUndo? {
      PushComesCloser(s, t);
    } else if pc != GetLoad {
      GetComesCloser(s, t);
    }
  }

  lemma {:induction false} AloneEnds(s: State, a: Aux, t: nat) returns (k: nat)
    requires Inv(s, a) && t < |s.threads|
    ensures k <= StepsLeft(s, s.threads[t].pc)
    ensures t < |Alone(s, t, k).threads| && Alone(s, t, k).threads[t].pc == Idle
    decreases StepsLeft(s, s.threads[t].pc)
  {
    hide Step, Inv, StepsLeft;
    if s.threads[t].pc == Idle {
      k := 0;
    } else {
      ComesCloser(s, a, t);
      StepKeepsInv(s, a, t, Go);
      k := AloneEnds(Step(s, t, Go), Track(s, a, t, Go), t);
      k := k + 1;
    }
  }

  /** In every reachable state, wherever the other threads have stopped, a call that is left alone ends within 18
      accesses: no thread can hold up another one. */
  lemma {:induction false} NobodyIsHeldUp(s: State, moves: seq<(nat, Move)>, t: nat) returns (k: nat)
    requires Init(s) && t < |Run(s, moves).threads|
    ensures var e := Alone(Run(s, moves), t, k); k <= 18 && t < |e.threads| && e.threads[t].pc == Idle
  {
    var a := RunKeepsInv(s, moves);
    hide Inv, Step;
    AtMost18(Run(s, moves), Run(s, moves).threads[t].pc);
    k := AloneEnds(Run(s, moves), a, t);
  }

  lemma AtMost18(s: State, pc: PC)
    ensures StepsLeft(s, pc) <= 18
  {
  }
}
