/**
 The blocking queue: the producers' queues of elements beside a semaphore that counts them. A producer stores its
 elements and then signals; a consumer first acquires permits and then retries the inner queue until it has as many
 elements. The semaphore's steps are those of module Semaphore and the steps inside a producer's queue are those of
 module Tickets, one by one; a consumer finds its way through the producers with the two loads of each size, the
 dequeue of the best one and those of the others, or with a bulk dequeue of one producer after the other.
 */
module BlockingQueue {
  import opened Counting
  import Semaphore
  import Tickets
  import opened Circular

  /** What the scan of the sizes has found so far. */
  datatype Found = Found(nonEmpty: nat, best: nat, bestSize: nat)

  /** Where a consumer is inside the inner try_dequeue, or try_dequeue_bulk. */
  datatype Inner =
    | Scan(i: nat, found: Found)                     // size_approx of producer i: load of tailIndex
    | ScanHead(i: nat, found: Found, tail: nat)      // load of headIndex
    | Best(b: nat)                                   // dequeue of the best one
    | Others(b: nat, i: nat)                         // dequeue of producer i, if it is not the best one
    | Bulk(i: nat)                                   // dequeue_bulk of producer i

  /** What a thread is doing with the queue. */
  datatype Mode =
    | Outside
    | Stored(n: nat)                      // n elements are in the inner queue, not signalled yet
    | Signalling                          // signalled, sleepers still to be posted
    | Asking(got: nat, bulk: bool)        // in a wait, with `got` permits so far
    | Holding(k: nat, bulk: bool)         // k permits without their elements; about to try the inner queue
    | Taking(k: nat, call: Inner)         // in the inner queue, with k permits whose elements are not claimed yet

  /** One inner queue for each producer; thread t is consumer t in each of them. */
  datatype State = State(sem: Semaphore.State, queues: seq<Tickets.State>, users: seq<Mode>)

  datatype Move =
    | Enqueue(p: nat, n: nat, ok: bool)                          // ok: producer p had, or could get, the memory
    | Dequeue(max: nat, bulk: bool, patience: Semaphore.Patience)
    | Sem(m: Semaphore.Move)                                     // the next step of the running semaphore call
    | Go                                                         // the next step in the inner queue

  function WithUser(s: State, t: nat, u: Mode): State
    requires t < |s.users|
  {
    s.(users := s.users[t := u])
  }

  /** The mode after a semaphore step that acquired `got` permits and counted `signalled` in. */
  function AfterSem(u: Mode, got: nat, signalled: nat, idle: bool): Mode {
    match u
    case Asking(k, bulk) => if idle then Ended(k + got, bulk) else Asking(k + got, bulk)
    case Stored(n) => if signalled == n then (if idle then Outside else Signalling) else u
    case Signalling => if idle then Outside else Signalling
    case _ => u
  }

  /** An inner call has returned, or the wait has: try (again) for what is missing. */
  function Ended(k: nat, bulk: bool): Mode {
    if k == 0 then Outside else Holding(k, bulk)
  }

  /** The size of a producer's queue from the two loads; they can be of different times. */
  function SizeSeen(tail: nat, head: nat): nat {
    if Tickets.Less(head, tail) then Wrap(tail - head) else 0
  }

  /** The scan remembers the largest size, the first one if there are several. */
  function Look(f: Found, i: nat, size: nat): Found {
    if size == 0 then f
    else if size > f.bestSize then Found(f.nonEmpty + 1, i, size)
    else f.(nonEmpty := f.nonEmpty + 1)
  }

  /** A producer's dequeue has returned. */
  function AfterQueue(call: Inner, k: nat, got: bool): Mode {
    match call
    case Best(b) => if got then Ended(k, false) else Taking(k, Others(b, 0))
    case Others(b, i) => if got then Ended(k, false) else Taking(k, Others(b, i + 1))
    case Bulk(i) => if k == 0 then Outside else Taking(k, Bulk(i + 1))
    case _ => Taking(k, call)
  }

  datatype Progress = Progress(queue: Tickets.State, user: Mode)

  /** One step of consumer t in one producer's queue. */
  function InQueue(q: Tickets.State, t: nat, k: nat, call: Inner): Progress
    requires t < |q.threads|
  {
    if q.threads[t] == Tickets.Idle then
      Progress(Tickets.Step(q, t, if call.Bulk? then Tickets.CallDequeueBulk(k) else Tickets.CallDequeue), Taking(k, call))
    else
      var q' := Tickets.Step(q, t, Tickets.Go);
      var left: nat := if 0 <= k + q.head - q'.head then k + q.head - q'.head else 0;
      Progress(q', if t < |q'.threads| && q'.threads[t] != Tickets.Idle then Taking(left, call)
                   else AfterQueue(call, left, q.threads[t].Reading?))
  }

  function QueueStep(s: State, t: nat, k: nat, call: Inner, i: nat): State
    requires t < |s.users| && i < |s.queues|
  {
    if t >= |s.queues[i].threads| then s else
    var p := InQueue(s.queues[i], t, k, call);
    WithUser(s, t, p.user).(queues := s.queues[i := p.queue])
  }

  function InnerStep(s: State, t: nat, k: nat, call: Inner): State
    requires t < |s.users|
  {
    match call
    case Scan(i, f) =>
      if f.nonEmpty < 3 && i < |s.queues| then WithUser(s, t, Taking(k, ScanHead(i, f, s.queues[i].tail)))
      else if f.nonEmpty > 0 then WithUser(s, t, Taking(k, Best(f.best)))
      else WithUser(s, t, Holding(k, false))
    case ScanHead(i, f, tail) =>
      if i < |s.queues| then
        WithUser(s, t, Taking(k, Scan(i + 1, Look(f, i, SizeSeen(tail, s.queues[i].head)))))
      else s
    case Best(b) => if b < |s.queues| then QueueStep(s, t, k, call, b) else s
    case Others(b, i) =>
      if i >= |s.queues| then WithUser(s, t, Holding(k, false))
      else if i == b then WithUser(s, t, Taking(k, Others(b, i + 1)))
      else QueueStep(s, t, k, call, i)
    case Bulk(i) =>
      if i >= |s.queues| then WithUser(s, t, Holding(k, true)) else QueueStep(s, t, k, call, i)
  }

  /** A producer whose queue would get 2^63 elements long refuses the new ones. */
  predicate HasRoom(q: Tickets.State, n: nat) {
    q.tail + n < q.head + TWO63
  }

  function Step(s: State, t: nat, m: Move): State {
    if t >= |s.users| || |s.users| != |s.sem.threads| then s else
    var idle := s.sem.threads[t] == Semaphore.Idle;
    match m
    case Enqueue(p, n, ok) =>
      if s.users[t] == Outside && idle && ok && n > 0 && p < |s.queues| && HasRoom(s.queues[p], n) then
        WithUser(s, t, Stored(n)).(queues := s.queues[p := Tickets.Step(s.queues[p], t, Tickets.Enqueue(n))],
                                   sem := Semaphore.Step(s.sem, t, Semaphore.CallSignal(n)))
      else s
    case Dequeue(max, bulk, p) =>
      if s.users[t] == Outside && idle then
        WithUser(s, t, Asking(0, bulk)).(sem := Semaphore.Step(s.sem, t, Semaphore.CallWait(if bulk then max else 1, p)))
      else s
    case Sem(sm) => if idle then s else SemStep(s, t, sm)
    case Go =>
      match s.users[t]
      case Holding(k, bulk) => WithUser(s, t, Taking(k, if bulk then Bulk(0) else Scan(0, Found(0, 0, 0))))
      case Taking(k, call) => InnerStep(s, t, k, call)
      case _ => s
  }

  function SemStep(s: State, t: nat, m: Semaphore.Move): State
    requires t < |s.users|
  {
    var sem' := Semaphore.Step(s.sem, t, m);
    var got: nat := if sem'.acquired >= s.sem.acquired then sem'.acquired - s.sem.acquired else 0;
    var signalled: nat := if sem'.signalled >= s.sem.signalled then sem'.signalled - s.sem.signalled else 0;
    var idle := t < |sem'.threads| && sem'.threads[t] == Semaphore.Idle;
    WithUser(s, t, AfterSem(s.users[t], got, signalled, idle)).(sem := sem')
  }

  function Run(s: State, moves: seq<(nat, Move)>): State
    decreases |moves|
  {
    if moves == [] then s else
    var last := |moves| - 1;
    Step(Run(s, moves[..last]), moves[last].0, moves[last].1)
  }

  predicate Init(s: State) {
    && Semaphore.Init(s.sem) && s.sem.initial == 0
    && |s.users| == |s.sem.threads|
    && (forall t :: 0 <= t < |s.users| ==> s.users[t] == Outside)
    && forall i :: 0 <= i < |s.queues| ==> Tickets.Init(s.queues[i]) && |s.queues[i].threads| == |s.users|
  }

  // ----- Elements and permits -----

  /** Elements stored and not signalled yet. */
  function StoredWeight(u: Mode): nat { if u.Stored? then u.n else 0 }

  /** Permits acquired whose elements have not been claimed. */
  function HeldWeight(u: Mode): nat {
    match u
    case Asking(got, _) => got
    case Holding(k, _) => k
    case Taking(k, _) => k
    case _ => 0
  }

  function BetweenEnqueueAndSignal(s: State): nat { Sum(s.users, StoredWeight) }

  function BetweenPermitAndDequeue(s: State): nat { Sum(s.users, HeldWeight) }

  function Tail(q: Tickets.State): nat { q.tail }

  function Head(q: Tickets.State): nat { q.head }

  /** Everything enqueued less everything claimed. */
  function Elements(s: State): int {
    Sum(s.queues, Tail) - Sum(s.queues, Head)
  }

  predicate ModeOk(u: Mode, pc: Semaphore.PC) {
    match u
    case Outside => pc == Semaphore.Idle
    case Stored(n) => pc == Semaphore.Add(n) && n > 0
    case Signalling => pc.Post?
    case Asking(_, _) => !pc.Idle? && !pc.Add? && !pc.Post?
    case Holding(k, _) => pc == Semaphore.Idle && k > 0
    case Taking(_, _) => pc == Semaphore.Idle
  }

  /** A consumer in a producer's queue never claims more than it has permits for. */
  predicate AtMost(pc: Tickets.PC, k: nat) {
    match pc
    case Idle => k > 0
    case LoadOver(max, _, _) => max <= k && k > 0
    case LoadOpt(max, _, _, _) => max <= k && k > 0
    case FetchOpt(_, d) => d <= k && k > 0
    case LoadTail(_, d, _) => d <= k && k > 0
    case GiveBack(_, keep, _) => keep <= k && k > 0
    case Claim(_, keep) => keep <= k && k > 0
    case Reading(_, _) => true
  }

  /** The queue a consumer is in. */
  predicate IsIn(u: Mode, i: nat) {
    u.Taking? && match u.call
      case Best(b) => i == b
      case Others(b, j) => i == j && i != b
      case Bulk(j) => i == j
      case _ => false
  }

  predicate UserOk(s: State, t: nat, i: nat)
    requires t < |s.users| && i < |s.queues| && t < |s.queues[i].threads|
  {
    var pc := s.queues[i].threads[t];
    if IsIn(s.users[t], i) then AtMost(pc, s.users[t].k) else pc == Tickets.Idle
  }

  predicate TakingOk(s: State, u: Mode) {
    u.Taking? ==> match u.call
      case Scan(_, f) => u.k > 0 && (f.nonEmpty > 0 ==> f.best < |s.queues|) && (f.nonEmpty == 0 ==> f.bestSize == 0)
      case ScanHead(i, f, _) =>
        u.k > 0 && i < |s.queues| && (f.nonEmpty > 0 ==> f.best < |s.queues|) && (f.nonEmpty == 0 ==> f.bestSize == 0)
      case Best(b) => b < |s.queues|
      case Others(b, i) => i == b || i >= |s.queues| ==> u.k > 0
      case Bulk(i) => i >= |s.queues| ==> u.k > 0
  }

  ghost predicate Shape(s: State) {
    && |s.users| == |s.sem.threads|
    && (forall i :: 0 <= i < |s.queues| ==> |s.queues[i].threads| == |s.users|)
    && (forall i :: 0 <= i < |s.queues| ==> s.queues[i].tail < s.queues[i].head + TWO63)
    && (forall t :: 0 <= t < |s.users| ==> ModeOk(s.users[t], s.sem.threads[t]) && TakingOk(s, s.users[t]))
    && forall t, i :: 0 <= t < |s.users| && 0 <= i < |s.queues| ==> UserOk(s, t, i)
  }

  ghost predicate Balanced(s: State) {
    && Semaphore.Conserved(s.sem) && s.sem.initial == 0
    && Elements(s) + s.sem.acquired == s.sem.signalled + BetweenEnqueueAndSignal(s) + BetweenPermitAndDequeue(s)
  }

  ghost predicate Inv(s: State) {
    Shape(s) && Balanced(s)
  }

  /** What a semaphore step does to the permits, for each kind of call. */
  lemma SemStepEffect(s: Semaphore.State, t: nat, m: Semaphore.Move)
    requires t < |s.threads| && !s.threads[t].Idle?
    ensures var s' := Semaphore.Step(s, t, m); var pc, pc' := s.threads[t], s'.threads[t];
      && s'.threads == s.threads[t := pc']
      && (pc.Add? ==> (pc'.Idle? || pc'.Post?) && s'.signalled == s.signalled + pc.n && s'.acquired == s.acquired)
      && (pc.Post? ==> (pc'.Idle? || pc'.Post?) && s'.signalled == s.signalled && s'.acquired == s.acquired)
      && (!pc.Add? && !pc.Post? ==>
            !pc'.Add? && !pc'.Post? && s'.signalled == s.signalled && s'.acquired >= s.acquired)
  {
  }

  /** One step in a queue: what it adds to the head it takes from the permits. */
  lemma InQueueEffect(q: Tickets.State, t: nat, k: nat, call: Inner)
    requires t < |q.threads| && AtMost(q.threads[t], k) && (call.Best? || call.Others? || call.Bulk?)
    ensures var p := InQueue(q, t, k, call); var q' := p.queue; var left := HeldWeight(p.user);
      && |q'.threads| == |q.threads| && q'.threads == q.threads[t := q'.threads[t]]
      && q'.tail == q.tail && q'.head + left == q.head + k && left <= k
      && if q'.threads[t] == Tickets.Idle
         then p.user == AfterQueue(call, left, q.threads[t].Reading?) && (!q.threads[t].Reading? ==> left > 0)
         else p.user == Taking(left, call) && AtMost(q'.threads[t], left)
  {
    hide Wrap, CircularLess, Tickets.LooksNonEmpty, Tickets.StillNonEmpty;
  }

  lemma QueueStepShape(s: State, t: nat, k: nat, call: Inner, i: nat)
    requires Shape(s) && t < |s.users| && s.users[t] == Taking(k, call) && i < |s.queues| && IsIn(s.users[t], i)
    ensures Shape(QueueStep(s, t, k, call, i))
  {
    assert UserOk(s, t, i);
    InQueueEffect(s.queues[i], t, k, call);
    hide InQueue;
    var s' := QueueStep(s, t, k, call, i);
    forall u, j | 0 <= u < |s'.users| && 0 <= j < |s'.queues|
      ensures UserOk(s', u, j)
    {
      assert UserOk(s, u, j);
    }
    forall u | 0 <= u < |s'.users|
      ensures ModeOk(s'.users[u], s'.sem.threads[u]) && TakingOk(s', s'.users[u])
    {
      assert ModeOk(s.users[u], s.sem.threads[u]) && TakingOk(s, s.users[u]);
    }
  }

  /** Only user t changes, and is in no producer's queue before and after. */
  lemma UserShape(s: State, s': State, t: nat)
    requires Shape(s) && t < |s.users| == |s'.users| && s'.users == s.users[t := s'.users[t]]
    requires |s'.sem.threads| == |s.sem.threads| && s'.sem.threads == s.sem.threads[t := s'.sem.threads[t]]
    requires |s'.queues| == |s.queues|
    requires forall i :: 0 <= i < |s.queues| ==> s'.queues[i].threads == s.queues[i].threads
    requires forall i :: 0 <= i < |s.queues| ==> s'.queues[i].tail < s'.queues[i].head + TWO63
    requires forall i :: 0 <= i < |s.queues| ==> s.queues[i].threads[t] == Tickets.Idle
    requires ModeOk(s'.users[t], s'.sem.threads[t]) && TakingOk(s', s'.users[t])
    requires s'.users[t].Taking? ==> s'.users[t].k > 0
    ensures Shape(s')
  {
    forall u, j | 0 <= u < |s'.users| && 0 <= j < |s'.queues|
      ensures UserOk(s', u, j)
    {
      assert UserOk(s, u, j);
    }
    forall u | 0 <= u < |s'.users|
      ensures ModeOk(s'.users[u], s'.sem.threads[u]) && TakingOk(s', s'.users[u])
    {
      assert ModeOk(s.users[u], s.sem.threads[u]) && TakingOk(s, s.users[u]);
    }
  }

  /** A user that is not in a producer's queue is idle in all of them. */
  lemma NotIn(s: State, t: nat)
    requires Shape(s) && t < |s.users| && forall i :: 0 <= i < |s.queues| ==> !IsIn(s.users[t], i)
    ensures forall i :: 0 <= i < |s.queues| ==> s.queues[i].threads[t] == Tickets.Idle
  {
    forall i | 0 <= i < |s.queues|
      ensures s.queues[i].threads[t] == Tickets.Idle
    {
      assert UserOk(s, t, i);
    }
  }

  lemma {:induction false} InnerKeepsShape(s: State, t: nat, k: nat, call: Inner)
    requires Shape(s) && t < |s.users| && s.users[t] == Taking(k, call)
    ensures Shape(InnerStep(s, t, k, call))
  {
    hide SizeSeen;
    var s' := InnerStep(s, t, k, call);
    assert ModeOk(s.users[t], s.sem.threads[t]) && TakingOk(s, s.users[t]);
    var i := match call
      case Best(b) => b
      case Others(b, i) => i
      case Bulk(i) => i
      case _ => |s.queues|;
    if i < |s.queues| && IsIn(s.users[t], i) {
      QueueStepShape(s, t, k, call, i);
    } else if s' != s {
      NotIn(s, t);
      UserShape(s, s', t);
    }
  }

  lemma StepKeepsShape(s: State, t: nat, m: Move)
    requires Shape(s)
    ensures Shape(Step(s, t, m))
  {
    var s' := Step(s, t, m);
    if t >= |s.users| || s' == s {
      return;
    }
    assert ModeOk(s.users[t], s.sem.threads[t]);
    if m == Go && s.users[t].Taking? {
      InnerKeepsShape(s, t, s.users[t].k, s.users[t].call);
    } else {
      NotIn(s, t);
      if m.Sem? {
        SemStepEffect(s.sem, t, m.m);
      }
      UserShape(s, s', t);
    }
  }

  lemma EnqueueBalances(s: State, t: nat, p: nat, n: nat)
    requires Inv(s) && t < |s.users| && s.users[t] == Outside && p < |s.queues| && n > 0 && HasRoom(s.queues[p], n)
    ensures Balanced(Step(s, t, Enqueue(p, n, true)))
  {
    assert ModeOk(s.users[t], s.sem.threads[t]);
    var q := Tickets.Step(s.queues[p], t, Tickets.Enqueue(n));
    SumUpdate(s.users, StoredWeight, t, Stored(n));
    SumUpdate(s.users, HeldWeight, t, Stored(n));
    SumUpdate(s.queues, Tail, p, q);
    SumUpdate(s.queues, Head, p, q);
    Semaphore.StepConserves(s.sem, t, Semaphore.CallSignal(n));
  }

  lemma SemBalances(s: State, t: nat, m: Semaphore.Move)
    requires Inv(s) && t < |s.users| && !s.sem.threads[t].Idle?
    ensures Balanced(SemStep(s, t, m))
  {
    assert ModeOk(s.users[t], s.sem.threads[t]);
    var s' := SemStep(s, t, m);
    SumUpdate(s.users, StoredWeight, t, s'.users[t]);
    SumUpdate(s.users, HeldWeight, t, s'.users[t]);
    Semaphore.StepConserves(s.sem, t, m);
    SemStepEffect(s.sem, t, m);
  }

  lemma QueueStepBalances(s: State, t: nat, k: nat, call: Inner, i: nat)
    requires Inv(s) && t < |s.users| && s.users[t] == Taking(k, call) && i < |s.queues| && IsIn(s.users[t], i)
    ensures Balanced(QueueStep(s, t, k, call, i))
  {
    assert UserOk(s, t, i);
    InQueueEffect(s.queues[i], t, k, call);
    hide InQueue;
    var p := InQueue(s.queues[i], t, k, call);
    SumUpdate(s.users, StoredWeight, t, p.user);
    SumUpdate(s.users, HeldWeight, t, p.user);
    SumUpdate(s.queues, Tail, i, p.queue);
    SumUpdate(s.queues, Head, i, p.queue);
  }

  lemma UserBalances(s: State, s': State, t: nat)
    requires Inv(s) && t < |s.users| == |s'.users| && s'.users == s.users[t := s'.users[t]]
    requires s'.queues == s.queues && s'.sem == s.sem
    requires HeldWeight(s'.users[t]) == HeldWeight(s.users[t]) && StoredWeight(s'.users[t]) == StoredWeight(s.users[t])
    ensures Balanced(s')
  {
    SumUpdate(s.users, StoredWeight, t, s'.users[t]);
    SumUpdate(s.users, HeldWeight, t, s'.users[t]);
  }

  lemma InnerBalances(s: State, t: nat, k: nat, call: Inner)
    requires Inv(s) && t < |s.users| && s.users[t] == Taking(k, call)
    ensures Balanced(InnerStep(s, t, k, call))
  {
    hide SizeSeen;
    var s' := InnerStep(s, t, k, call);
    var i := match call
      case Best(b) => b
      case Others(b, i) => i
      case Bulk(i) => i
      case _ => |s.queues|;
    if i < |s.queues| && IsIn(s.users[t], i) {
      QueueStepBalances(s, t, k, call, i);
    } else if s' != s {
      UserBalances(s, s', t);
    }
  }

  lemma StepBalances(s: State, t: nat, m: Move)
    requires Inv(s)
    ensures Balanced(Step(s, t, m))
  {
    var s' := Step(s, t, m);
    if t >= |s.users| || s' == s {
      return;
    }
    match m
    case Enqueue(p, n, ok) => EnqueueBalances(s, t, p, n);
    case Dequeue(max, bulk, p) =>
      Semaphore.StepConserves(s.sem, t, Semaphore.CallWait(if bulk then max else 1, p));
      UserBalances(s, s'.(sem := s.sem), t);
    case Sem(sm) => SemBalances(s, t, sm);
    case Go =>
      if s.users[t].Taking? {
        InnerBalances(s, t, s.users[t].k, s.users[t].call);
      } else {
        UserBalances(s, s', t);
      }
  }

  lemma StepKeepsInv(s: State, t: nat, m: Move)
    requires Inv(s)
    ensures Inv(Step(s, t, m))
  {
    StepKeepsShape(s, t, m);
    StepBalances(s, t, m);
  }

  lemma {:induction false} RunKeepsInv(s: State, moves: seq<(nat, Move)>)
    requires Init(s)
    ensures Inv(Run(s, moves))
    decreases |moves|
  {
    if moves == [] {
      Semaphore.InitConserved(s.sem);
      SumZero(s.users, StoredWeight);
      SumZero(s.users, HeldWeight);
      SumZero(s.queues, Tail);
      SumZero(s.queues, Head);
    } else {
      var last := |moves| - 1;
      RunKeepsInv(s, moves[..last]);
      StepKeepsInv(Run(s, moves[..last]), moves[last].0, moves[last].1);
    }
  }

  /** Every element of the producers' queues is matched by exactly one free permit, or by a producer that has not
      signalled yet, or by a consumer that has its permit and has not claimed its element. */
  lemma {:induction false} ElementsMatchPermits(s: State, moves: seq<(nat, Move)>)
    requires Init(s)
    ensures var r := Run(s, moves);
      Elements(r) == Semaphore.Permits(r.sem) + BetweenEnqueueAndSignal(r) + BetweenPermitAndDequeue(r)
  {
    RunKeepsInv(s, moves);
  }

  /** As long as a consumer lacks elements for its permits, the producers' queues hold at least as many that nobody
      has claimed, whoever else is inside. */
  lemma HolderHasElements(s: State, moves: seq<(nat, Move)>, t: nat)
    requires Init(s) && t < |Run(s, moves).users|
    ensures HeldWeight(Run(s, moves).users[t]) <= Elements(Run(s, moves))
  {
    RunKeepsInv(s, moves);
    var r := Run(s, moves);
    SumUpdate(r.users, HeldWeight, t, r.users[t]);
  }

  /** The whole queue is empty exactly when no permit is left, once nobody is in a call. */
  lemma QuietCountIsElements(s: State, moves: seq<(nat, Move)>)
    requires Init(s)
    requires forall t :: 0 <= t < |Run(s, moves).users| ==> Run(s, moves).users[t] == Outside
    ensures Elements(Run(s, moves)) == Run(s, moves).sem.count
  {
    RunKeepsInv(s, moves);
    var r := Run(s, moves);
    SumZero(r.users, StoredWeight);
    SumZero(r.users, HeldWeight);
    forall t | 0 <= t < |r.sem.threads|
      ensures r.sem.threads[t] == Semaphore.Idle
    {
      assert ModeOk(r.users[t], r.sem.threads[t]);
    }
    SumZero(r.sem.threads, Semaphore.WaiterWeight);
    SumZero(r.sem.threads, Semaphore.ReleaseWeight);
  }

  // ----- Each producer's queue runs as module Tickets says -----

  /** In every state of the run the positions of every producer's queue are close. */
  predicate CloseRun(s: State, moves: seq<(nat, Move)>)
    decreases |moves|
  {
    && (forall q :: 0 <= q < |Run(s, moves).queues| ==> Tickets.Close(Run(s, moves).queues[q]))
    && (moves != [] ==> CloseRun(s, moves[..|moves| - 1]))
  }

  lemma StepsOneQueue(s: State, t: nat, m: Move, q: nat) returns (tm: Tickets.Move)
    requires q < |s.queues|
    ensures var s' := Step(s, t, m);
      |s'.queues| == |s.queues| && (s'.queues[q] == s.queues[q] || s'.queues[q] == Tickets.Step(s.queues[q], t, tm))
  {
    hide Tickets.Step, SizeSeen, AfterQueue;
    match m
    case Enqueue(p, n, ok) => tm := Tickets.Enqueue(n);
    case Go =>
      tm := Tickets.Go;
      if t < |s.users| && s.users[t].Taking? && t < |s.queues[q].threads| && s.queues[q].threads[t] == Tickets.Idle {
        tm := if s.users[t].call.Bulk? then Tickets.CallDequeueBulk(s.users[t].k) else Tickets.CallDequeue;
      }
    case _ => tm := Tickets.Go;
  }

  /** So what is proved about one producer's queue holds of each queue of the whole. */
  lemma {:induction false} QueueRuns(s: State, moves: seq<(nat, Move)>, q: nat) returns (own: seq<(nat, Tickets.Move)>)
    requires q < |s.queues|
    ensures |Run(s, moves).queues| == |s.queues|
    ensures Run(s, moves).queues[q] == Tickets.Run(s.queues[q], own)
    ensures CloseRun(s, moves) ==> Tickets.CloseRun(s.queues[q], own)
    decreases |moves|
  {
    hide Step, Tickets.Step, Tickets.Close;
    if moves == [] {
      own := [];
    } else {
      var last := |moves| - 1;
      var before := moves[..last];
      own := QueueRuns(s, before, q);
      var r := Run(s, before);
      var (t, m) := moves[last];
      var tm := StepsOneQueue(r, t, m, q);
      if Run(s, moves).queues[q] != r.queues[q] {
        var longer := own + [(t, tm)];
        assert longer[..|own|] == own && longer[|own|] == (t, tm);
        assert Tickets.Run(s.queues[q], longer) == Run(s, moves).queues[q];
        own := longer;
      }
    }
  }

  /** A producer's queue with no consumer inside: its counters are settled and its positions close. */
  predicate Rest(q: Tickets.State, t: nat) {
    && t < |q.threads| && q.threads[t] == Tickets.Idle
    && q.optimistic == q.head + q.overcommit
    && q.head <= q.tail && q.tail - q.head < TWO63
  }

  /** When no consumer is inside the inner queue, all of its queues are at rest. */
  lemma {:induction false} NobodyInsideMeansRest(s: State, moves: seq<(nat, Move)>, t: nat)
    requires Init(s) && CloseRun(s, moves) && t < |Run(s, moves).users|
    requires forall u :: 0 <= u < |Run(s, moves).users| ==> !Run(s, moves).users[u].Taking?
    ensures var r := Run(s, moves); forall i :: 0 <= i < |r.queues| ==> Rest(r.queues[i], t)
  {
    RunKeepsInv(s, moves);
    var r := Run(s, moves);
    forall i | 0 <= i < |r.queues|
      ensures Rest(r.queues[i], t)
    {
      QueuesSame(s, moves);
      var own := QueueRuns(s, moves, i);
      var tk := Tickets.RunKeepsInv(s.queues[i], own);
      Tickets.HeadWithinTail(r.queues[i], tk);
      Tickets.TicketsConserved(s.queues[i], own);
      forall u | 0 <= u < |r.queues[i].threads|
        ensures r.queues[i].threads[u] == Tickets.Idle
      {
        assert UserOk(r, u, i);
      }
      SumZero(r.queues[i].threads, Tickets.InFlight);
    }
  }

  lemma {:induction false} QueuesSame(s: State, moves: seq<(nat, Move)>)
    ensures |Run(s, moves).queues| == |s.queues|
    decreases |moves|
  {
    hide Tickets.Step, SizeSeen;
    if moves != [] {
      QueuesSame(s, moves[..|moves| - 1]);
    }
  }

  // ----- The inner try_dequeue in one piece -----

  /** What the scan finds in these sizes, as it reads them; after three that are positive it stops. */
  function Scanned(sizes: seq<nat>): Found {
    if sizes == [] then Found(0, 0, 0)
    else
      var f := Scanned(sizes[..|sizes| - 1]);
      if f.nonEmpty < 3 then Look(f, |sizes| - 1, sizes[|sizes| - 1]) else f
  }

  function Positive(size: nat): nat {
    if size > 0 then 1 else 0
  }

  /** The scan counts a positive size as long as there were fewer than three before it. */
  predicate Scans(sizes: seq<nat>, i: nat) {
    i < |sizes| && sizes[i] > 0 && Sum(sizes[..i], Positive) < 3
  }

  /** The first of the largest among them. */
  predicate IsBest(sizes: seq<nat>, b: nat) {
    && Scans(sizes, b)
    && forall i :: 0 <= i < |sizes| && Scans(sizes, i) ==> if i < b then sizes[i] < sizes[b] else sizes[i] <= sizes[b]
  }

  lemma ScansSoFar(sizes: seq<nat>, i: nat)
    requires sizes != []
    ensures i < |sizes| - 1 ==> (Scans(sizes, i) <==> Scans(sizes[..|sizes| - 1], i))
  {
    if i < |sizes| - 1 {
      assert sizes[..|sizes| - 1][..i] == sizes[..i];
    }
  }

  lemma {:induction false} ScannedIsBest(sizes: seq<nat>)
    ensures var f := Scanned(sizes);
      && f.nonEmpty == Tickets.Min(3, Sum(sizes, Positive))
      && (if f.nonEmpty == 0 then f.bestSize == 0 else IsBest(sizes, f.best) && f.bestSize == sizes[f.best])
    decreases |sizes|
  {
    if sizes != [] {
      var before := sizes[..|sizes| - 1];
      ScannedIsBest(before);
      SumLast(sizes, Positive);
      hide Sum;
      if Sum(before, Positive) == 0 {
        forall i | 0 <= i < |before|
          ensures before[i] == 0
        {
          SumUpdate(before, Positive, i, 0);
        }
      }
      forall i | 0 <= i < |sizes|
        ensures i < |before| ==> (Scans(sizes, i) <==> Scans(before, i))
      {
        ScansSoFar(sizes, i);
      }
    }
  }

  /** The best producer if it gives something, otherwise the first that does. */
  ghost predicate FirstToGive(sizes: seq<nat>, gives: seq<bool>, from: nat) {
    && from < |gives| && gives[from]
    && exists b: nat | b < |sizes| && IsBest(sizes, b) :: from == b || (!(b < |gives| && gives[b]) && true !in gives[..from])
  }

  /** Scan the producers' sizes, try the best of the first three that look non-empty, then all the others in turn.
      `sizes` is what the scan reads and `gives` what each producer's dequeue returns if it is tried; other threads
      are inside all the while, so that neither follows from the other. The call succeeds exactly when the scan
      has seen something and some producer's dequeue succeeds; the first one to be asked that does is taken. */
  method TryDequeue(sizes: seq<nat>, gives: seq<bool>) returns (ok: bool, from: nat)
    requires |sizes| == |gives|
    ensures ok <==> (exists i :: 0 <= i < |sizes| && sizes[i] > 0) && true in gives
    ensures ok ==> FirstToGive(sizes, gives, from)
  {
    var nonEmptyCount, best, bestSize := 0, 0, 0;
    var i := 0;
    while nonEmptyCount < 3 && i < |sizes|
      invariant 0 <= i <= |sizes|
      invariant Found(nonEmptyCount, best, bestSize) == Scanned(sizes[..i])
      decreases |sizes| - i
    {
      assert sizes[..i + 1][..i] == sizes[..i];
      if sizes[i] > 0 {
        if sizes[i] > bestSize {
          bestSize, best := sizes[i], i;
        }
        nonEmptyCount := nonEmptyCount + 1;
      }
      i := i + 1;
    }
    ScannedStays(sizes, i);
    ScannedIsBest(sizes);
    SomePositive(sizes);
    ok, from := false, 0;
    if nonEmptyCount > 0 {
      if gives[best] {
        return true, best;
      }
      i := 0;
      while i < |gives|
        invariant 0 <= i <= |gives|
        invariant true !in gives[..i]
        decreases |gives| - i
      {
        if i != best && gives[i] {
          return true, i;
        }
        i := i + 1;
      }
    }
  }

  /** Once the scan has stopped, the sizes behind do not matter. */
  lemma {:induction false} ScannedStays(sizes: seq<nat>, i: nat)
    requires i <= |sizes| && (i == |sizes| || Scanned(sizes[..i]).nonEmpty >= 3)
    ensures Scanned(sizes) == Scanned(sizes[..i])
    decreases |sizes|
  {
    if i < |sizes| {
      assert sizes[..|sizes| - 1][..i] == sizes[..i];
      ScannedStays(sizes[..|sizes| - 1], i);
    } else {
      assert sizes[..i] == sizes;
    }
  }

  lemma SomePositive(sizes: seq<nat>)
    ensures Sum(sizes, Positive) > 0 <==> exists i :: 0 <= i < |sizes| && sizes[i] > 0
  {
    if Sum(sizes, Positive) > 0 {
      var i := SumPositive(sizes, Positive);
    } else {
      forall i | 0 <= i < |sizes|
        ensures sizes[i] == 0
      {
        SumUpdate(sizes, Positive, i, 0);
      }
    }
  }

  // ----- A consumer with permits, alone in the inner queue -----

  /** Thread t goes on alone. */
  function Alone(s: State, t: nat, n: nat): State
    decreases n
  {
    if n == 0 then s else Alone(Step(s, t, Go), t, n - 1)
  }

  /** Thread t alone gets from s to s' without leaving its inner call in between. */
  ghost predicate Reaches(s: State, t: nat, n: nat, s': State) {
    && Alone(s, t, n) == s'
    && forall m :: 0 <= m < n ==> t < |Alone(s, t, m).users| && Alone(s, t, m).users[t].Taking?
  }

  lemma {:induction false} AloneMore(s: State, t: nat, n: nat, m: nat)
    ensures Alone(s, t, n + m) == Alone(Alone(s, t, n), t, m)
    decreases n
  {
    hide Step;
    if n > 0 {
      AloneMore(Step(s, t, Go), t, n - 1, m);
    }
  }

  lemma ReachesMore(s: State, t: nat, n: nat, mid: State, m: nat, s': State)
    requires Reaches(s, t, n, mid) && Reaches(mid, t, m, s')
    ensures Reaches(s, t, n + m, s')
  {
    hide Step, Alone;
    AloneMore(s, t, n, m);
    forall j | 0 <= j < n + m
      ensures t < |Alone(s, t, j).users| && Alone(s, t, j).users[t].Taking?
    {
      if j >= n {
        AloneMore(s, t, n, j - n);
      }
    }
  }

  lemma ReachesOne(s: State, t: nat, s': State)
    requires t < |s.users| && s.users[t].Taking? && Step(s, t, Go) == s'
    ensures Reaches(s, t, 1, s')
  {
    hide Step;
    assert Alone(s, t, 1) == Alone(s', t, 0);
    assert forall m :: 0 <= m < 1 ==> Alone(s, t, m) == s;
  }

  lemma ReachesNone(s: State, t: nat)
    ensures Reaches(s, t, 0, s)
  {
  }

  predicate Sized(s: State, t: nat) {
    && t < |s.users| == |s.sem.threads|
    && forall i :: 0 <= i < |s.queues| ==> |s.queues[i].threads| == |s.users|
  }

  /** Consumer t has come to u and producer i's queue to q; nothing else has changed. */
  function Put(s: State, t: nat, i: nat, q: Tickets.State, u: Mode): State
    requires t < |s.users| && i < |s.queues|
  {
    s.(queues := s.queues[i := q], users := s.users[t := u])
  }

  lemma OneGo(s: State, t: nat, i: nat, q: Tickets.State, k: nat, call: Inner, p: Progress)
    requires Sized(s, t) && i < |s.queues| && |q.threads| == |s.users| && IsIn(Taking(k, call), i)
    requires InQueue(q, t, k, call) == p
    ensures Reaches(Put(s, t, i, q, Taking(k, call)), t, 1, Put(s, t, i, p.queue, p.user))
  {
    hide InQueue, Reaches;
    var s0 := Put(s, t, i, q, Taking(k, call));
    assert s0.queues[i] == q && s0.users[t] == Taking(k, call);
    var s1 := Step(s0, t, Go);
    assert s1.queues == s.queues[i := p.queue];
    assert s1.users == s.users[t := p.user];
    assert s1 == Put(s, t, i, p.queue, p.user);
    ReachesOne(s0, t, s1);
  }

  /** The queue goes through these states. */
  lemma {:induction false} ManyGo(s: State, t: nat, i: nat, k: nat, call: Inner, qs: seq<Tickets.State>)
    requires Sized(s, t) && i < |s.queues| && IsIn(Taking(k, call), i) && qs != []
    requires forall j :: 0 <= j < |qs| ==> |qs[j].threads| == |s.users|
    requires forall j :: 0 < j < |qs| ==> InQueue(qs[j - 1], t, k, call) == Progress(qs[j], Taking(k, call))
    ensures var last := |qs| - 1;
      Reaches(Put(s, t, i, qs[0], Taking(k, call)), t, last, Put(s, t, i, qs[last], Taking(k, call)))
    decreases |qs|
  {
    hide InQueue, Reaches;
    var last := |qs| - 1;
    if last == 0 {
      ReachesNone(Put(s, t, i, qs[0], Taking(k, call)), t);
    } else {
      ManyGo(s, t, i, k, call, qs[..last]);
      OneGo(s, t, i, qs[last - 1], k, call, Progress(qs[last], Taking(k, call)));
      ReachesMore(Put(s, t, i, qs[0], Taking(k, call)), t, last - 1, Put(s, t, i, qs[last - 1], Taking(k, call)),
                  1, Put(s, t, i, qs[last], Taking(k, call)));
    }
  }

  /** How many elements are in a queue. */
  function QueueLength(q: Tickets.State): nat {
    if q.head < q.tail then q.tail - q.head else 0
  }

  /** How many elements a dequeue gets that has the queue for itself. */
  function Gets(q: Tickets.State, k: nat, call: Inner): nat {
    Tickets.Min(if call.Bulk? then k else 1, QueueLength(q))
  }

  /** A queue whose first n elements have been claimed, and moved out. */
  function Without(q: Tickets.State, n: nat): Tickets.State {
    q.(head := q.head + n, optimistic := q.optimistic + n)
  }

  lemma EmptyTry(s: State, t: nat, i: nat, k: nat, call: Inner)
    requires Sized(s, t) && i < |s.queues| && Rest(s.queues[i], t) && QueueLength(s.queues[i]) == 0
    requires k > 0 && IsIn(Taking(k, call), i) && s.users[t] == Taking(k, call)
    ensures Reaches(s, t, 3, Put(s, t, i, s.queues[i], AfterQueue(call, k, false)))
  {
    var q := s.queues[i];
    var max := if call.Bulk? then k else 1;
    var q1 := Tickets.At(q, t, Tickets.LoadOver(max, call.Bulk?, q.tail));
    var q2 := Tickets.At(q, t, Tickets.LoadOpt(max, call.Bulk?, q.tail, q.overcommit));
    Tickets.TestsAreOrder(q.head, q.tail);
    hide Wrap, CircularLess;
    assert InQueue(q, t, k, call) == Progress(q1, Taking(k, call));
    assert InQueue(q1, t, k, call) == Progress(q2, Taking(k, call));
    assert InQueue(q2, t, k, call) == Progress(q, AfterQueue(call, k, false));
    hide InQueue, Reaches, AfterQueue;
    ManyGo(s, t, i, k, call, [q, q1, q2]);
    OneGo(s, t, i, q2, k, call, Progress(q, AfterQueue(call, k, false)));
    assert Put(s, t, i, q, Taking(k, call)) == s;
    ReachesMore(s, t, 2, Put(s, t, i, q2, Taking(k, call)), 1, Put(s, t, i, q, AfterQueue(call, k, false)));
  }

  /** The first three accesses of a dequeue at rest: the test says that there is something. */
  lemma LooksIn(q: Tickets.State, t: nat, k: nat, call: Inner)
    returns (q1: Tickets.State, q2: Tickets.State, q3: Tickets.State)
    requires Rest(q, t) && QueueLength(q) > 0 && k > 0
    ensures InQueue(q, t, k, call) == Progress(q1, Taking(k, call)) && |q1.threads| == |q.threads|
    ensures InQueue(q1, t, k, call) == Progress(q2, Taking(k, call)) && |q2.threads| == |q.threads|
    ensures InQueue(q2, t, k, call) == Progress(q3, Taking(k, call)) && |q3.threads| == |q.threads|
    ensures q3 == Tickets.At(q, t, Tickets.FetchOpt(q.overcommit, Gets(q, k, call)))
  {
    var bulk := call.Bulk?;
    var max := if bulk then k else 1;
    Tickets.TestsAreOrder(q.head, q.tail);
    hide Wrap, CircularLess;
    q1 := Tickets.At(q, t, Tickets.LoadOver(max, bulk, q.tail));
    q2 := Tickets.At(q, t, Tickets.LoadOpt(max, bulk, q.tail, q.overcommit));
    q3 := Tickets.At(q, t, Tickets.FetchOpt(q.overcommit, Gets(q, k, call)));
    assert Tickets.Desired(max, bulk, q.tail, q.overcommit, q.optimistic) == Gets(q, k, call);
  }

  /** The next two: the tickets taken are let through. */
  lemma GetsIn(q: Tickets.State, t: nat, k: nat, call: Inner) returns (q4: Tickets.State, q5: Tickets.State)
    requires Rest(q, t) && QueueLength(q) > 0 && k > 0
    ensures var n := Gets(q, k, call);
      && InQueue(Tickets.At(q, t, Tickets.FetchOpt(q.overcommit, n)), t, k, call) == Progress(q4, Taking(k, call))
      && InQueue(q4, t, k, call) == Progress(q5, Taking(k, call))
      && |q4.threads| == |q.threads|
      && q5 == Tickets.At(q.(optimistic := q.optimistic + n), t, Tickets.Claim(q.optimistic, n))
  {
    var n := Gets(q, k, call);
    Tickets.TestsAreOrder(q.head, q.tail);
    hide Wrap, CircularLess;
    q4 := Tickets.At(q.(optimistic := q.optimistic + n), t, Tickets.LoadTail(q.overcommit, n, q.optimistic));
    q5 := Tickets.At(q.(optimistic := q.optimistic + n), t, Tickets.Claim(q.optimistic, n));
  }

  /** The five accesses of a dequeue at rest, up to the claim. */
  lemma FullSteps(q: Tickets.State, t: nat, k: nat, call: Inner) returns (qs: seq<Tickets.State>)
    requires Rest(q, t) && QueueLength(q) > 0 && k > 0
    ensures |qs| == 6 && qs[0] == q && forall j :: 0 <= j < 6 ==> |qs[j].threads| == |q.threads|
    ensures forall j :: 0 < j < 6 ==> InQueue(qs[j - 1], t, k, call) == Progress(qs[j], Taking(k, call))
    ensures var n := Gets(q, k, call);
      qs[5] == Tickets.At(q.(optimistic := q.optimistic + n), t, Tickets.Claim(q.optimistic, n))
  {
    var q1, q2, q3 := LooksIn(q, t, k, call);
    var q4, q5 := GetsIn(q, t, k, call);
    hide InQueue, Gets;
    qs := [q, q1, q2, q3, q4, q5];
  }

  lemma ClaimAndRead(q: Tickets.State, t: nat, k: nat, call: Inner) returns (q': Tickets.State)
    requires Rest(q, t) && QueueLength(q) > 0 && k > 0
    ensures |q'.threads| == |q.threads|
    ensures var n := Gets(q, k, call);
      && n <= k
      && InQueue(Tickets.At(q.(optimistic := q.optimistic + n), t, Tickets.Claim(q.optimistic, n)), t, k, call)
           == Progress(q', Taking(k - n, call))
      && InQueue(q', t, k - n, call) == Progress(Without(q, n), AfterQueue(call, k - n, true))
  {
    var n := Gets(q, k, call);
    q' := Tickets.At(Without(q, n), t, Tickets.Reading(q.head, n));
    assert Tickets.Step(q', t, Tickets.Go) == Without(q, n);
  }

  /** From the claim on. */
  lemma ClaimGo(s: State, t: nat, i: nat, k: nat, call: Inner, q: Tickets.State, claim: Tickets.State)
    requires Sized(s, t) && i < |s.queues| && |q.threads| == |s.users|
    requires k > 0 && IsIn(Taking(k, call), i) && Rest(q, t) && QueueLength(q) > 0
    requires var n := Gets(q, k, call); claim == Tickets.At(q.(optimistic := q.optimistic + n), t, Tickets.Claim(q.optimistic, n))
    ensures var n := Gets(q, k, call);
      && n <= k
      && Reaches(Put(s, t, i, claim, Taking(k, call)), t, 2, Put(s, t, i, Without(q, n), AfterQueue(call, k - n, true)))
  {
    var n := Gets(q, k, call);
    var q' := ClaimAndRead(q, t, k, call);
    hide InQueue, Reaches, AfterQueue, Gets, Rest, Put;
    OneGo(s, t, i, claim, k, call, Progress(q', Taking(k - n, call)));
    OneGo(s, t, i, q', k - n, call, Progress(Without(q, n), AfterQueue(call, k - n, true)));
    ReachesMore(Put(s, t, i, claim, Taking(k, call)), t, 1, Put(s, t, i, q', Taking(k - n, call)),
                1, Put(s, t, i, Without(q, n), AfterQueue(call, k - n, true)));
  }

  lemma PutSame(s: State, t: nat, i: nat)
    requires t < |s.users| && i < |s.queues|
    ensures Put(s, t, i, s.queues[i], s.users[t]) == s
  {
  }

  lemma FullTry(s: State, t: nat, i: nat, k: nat, call: Inner)
    requires Sized(s, t) && i < |s.queues| && Rest(s.queues[i], t) && QueueLength(s.queues[i]) > 0
    requires k > 0 && IsIn(Taking(k, call), i) && s.users[t] == Taking(k, call)
    ensures var n := Gets(s.queues[i], k, call);
      n <= k && Reaches(s, t, 7, Put(s, t, i, Without(s.queues[i], n), AfterQueue(call, k - n, true)))
  {
    hide InQueue, Reaches, AfterQueue, Gets, Put, Rest, QueueLength, Without, Tickets.At, IsIn;
    var q := s.queues[i];
    var qs := FullSteps(q, t, k, call);
    PutSame(s, t, i);
    ManyGo(s, t, i, k, call, qs);
    ClaimGo(s, t, i, k, call, q, qs[5]);
    var n := Gets(q, k, call);
    ReachesMore(s, t, 5, Put(s, t, i, qs[5], Taking(k, call)),
                2, Put(s, t, i, Without(q, n), AfterQueue(call, k - n, true)));
  }

  ghost predicate AllRest(s: State, t: nat) {
    Sized(s, t) && forall i :: 0 <= i < |s.queues| ==> Rest(s.queues[i], t)
  }

  function Lengths(qs: seq<Tickets.State>): seq<nat> {
    seq(|qs|, i requires 0 <= i < |qs| => QueueLength(qs[i]))
  }

  lemma SomeLength(qs: seq<Tickets.State>)
    requires Sum(qs, QueueLength) > 0
    ensures Scanned(Lengths(qs)).nonEmpty > 0
  {
    var i := SumPositive(qs, QueueLength);
    assert Lengths(qs)[i] > 0;
    SomePositive(Lengths(qs));
    ScannedIsBest(Lengths(qs));
  }

  /** The two loads of one size. */
  lemma SizeGo(s: State, t: nat, k: nat, i: nat, f: Found)
    requires AllRest(s, t) && i < |s.queues| && f.nonEmpty < 3 && s.users[t] == Taking(k, Scan(i, f))
    ensures Reaches(s, t, 2, WithUser(s, t, Taking(k, Scan(i + 1, Look(f, i, QueueLength(s.queues[i]))))))
  {
    hide Reaches, Wrap, CircularLess, InQueue, Look;
    var q := s.queues[i];
    Tickets.TestsAreOrder(q.head, q.tail);
    assert SizeSeen(q.tail, q.head) == QueueLength(q);
    var s1 := WithUser(s, t, Taking(k, ScanHead(i, f, q.tail)));
    var s2 := WithUser(s, t, Taking(k, Scan(i + 1, Look(f, i, QueueLength(q)))));
    ReachesOne(s, t, s1);
    assert Step(s1, t, Go) == s2;
    ReachesOne(s1, t, s2);
    ReachesMore(s, t, 1, s1, 1, s2);
  }

  lemma ScanStops(s: State, t: nat, k: nat, i: nat)
    requires AllRest(s, t) && i <= |s.queues| && s.users[t] == Taking(k, Scan(i, Scanned(Lengths(s.queues)[..i])))
    requires Sum(s.queues, QueueLength) > 0 && (i == |s.queues| || Scanned(Lengths(s.queues)[..i]).nonEmpty >= 3)
    ensures var b := Scanned(Lengths(s.queues)[..i]).best;
      b < |s.queues| && IsBest(Lengths(s.queues), b) && Reaches(s, t, 1, WithUser(s, t, Taking(k, Best(b))))
  {
    hide Reaches, Rest, QueueLength;
    var sizes := Lengths(s.queues);
    ScannedStays(sizes, i);
    SomeLength(s.queues);
    ScannedIsBest(sizes);
    ReachesOne(s, t, WithUser(s, t, Taking(k, Best(Scanned(sizes).best))));
  }

  /** The scan of the sizes, alone, from producer i on: it ends with the producer that is best. */
  lemma {:induction false} ScanFinds(s: State, t: nat, k: nat, i: nat) returns (n: nat, b: nat)
    requires AllRest(s, t) && i <= |s.queues| && s.users[t] == Taking(k, Scan(i, Scanned(Lengths(s.queues)[..i])))
    requires Sum(s.queues, QueueLength) > 0
    ensures b < |s.queues| && IsBest(Lengths(s.queues), b)
    ensures Reaches(s, t, n, WithUser(s, t, Taking(k, Best(b))))
    decreases |s.queues| - i
  {
    hide Reaches, Step, IsBest, Rest, QueueLength;
    var sizes := Lengths(s.queues);
    var f := Scanned(sizes[..i]);
    if f.nonEmpty < 3 && i < |s.queues| {
      SizeGo(s, t, k, i, f);
      assert sizes[..i + 1][..i] == sizes[..i];
      var s2 := WithUser(s, t, Taking(k, Scan(i + 1, Scanned(sizes[..i + 1]))));
      n, b := ScanFinds(s2, t, k, i + 1);
      var s3 := WithUser(s, t, Taking(k, Best(b)));
      assert WithUser(s2, t, Taking(k, Best(b))) == s3;
      ReachesMore(s, t, 2, s2, n, s3);
      n := n + 2;
    } else {
      n, b := 1, f.best;
      ScanStops(s, t, k, i);
    }
  }

  /** The bulk dequeue, alone, from producer i on: it gets everything it has permits for. */
  lemma {:induction false} BulkGets(s: State, t: nat, k: nat, i: nat) returns (n: nat, s': State)
    requires AllRest(s, t) && i <= |s.queues| && s.users[t] == Taking(k, Bulk(i)) && 0 < k
    requires k <= Sum(s.queues[i..], QueueLength)
    ensures Reaches(s, t, n, s') && s'.users == s.users[t := Outside] && s'.sem == s.sem
    decreases |s.queues| - i
  {
    hide Reaches, InQueue, Step, Alone;
    var q := s.queues[i];
    assert s.queues[i..][0] == q && s.queues[i..][1..] == s.queues[i + 1..];
    var got := Gets(q, k, Bulk(i));
    var next, steps;
    if QueueLength(q) == 0 {
      EmptyTry(s, t, i, k, Bulk(i));
      next, steps := Put(s, t, i, q, AfterQueue(Bulk(i), k, false)), 3;
    } else {
      FullTry(s, t, i, k, Bulk(i));
      next, steps := Put(s, t, i, Without(q, got), AfterQueue(Bulk(i), k - got, true)), 7;
    }
    if got == k {
      n, s' := steps, next;
    } else {
      assert next.queues[i + 1..] == s.queues[i + 1..];
      n, s' := BulkGets(next, t, k - got, i + 1);
      ReachesMore(s, t, steps, next, n, s');
      n := n + steps;
    }
  }

  lemma {:induction false} SumDifference(a: seq<Tickets.State>)
    requires forall i :: 0 <= i < |a| ==> a[i].head <= a[i].tail
    ensures Sum(a, QueueLength) == Sum(a, Tail) - Sum(a, Head)
  {
    if a != [] {
      forall i | 0 <= i < |a[1..]|
        ensures a[1..][i].head <= a[1..][i].tail
      {
        assert a[1..][i] == a[i + 1];
      }
      SumDifference(a[1..]);
    }
  }

  /** With no consumer inside, the unclaimed elements are those in the queues. */
  lemma ElementsAreLengths(s: State, t: nat)
    requires AllRest(s, t)
    ensures Elements(s) == Sum(s.queues, QueueLength)
  {
    SumDifference(s.queues);
  }

  /** Permits for which there are no elements yet after one successful call. */
  function LeftOver(k: nat, bulk: bool): nat {
    if bulk || k == 0 then 0 else k - 1
  }

  /** The queue that the scan finds best has lost its head. */
  ghost predicate OneTaken(qs: seq<Tickets.State>, qs': seq<Tickets.State>) {
    exists b: nat | b < |qs| && IsBest(Lengths(qs), b) :: qs' == qs[b := Without(qs[b], 1)]
  }

  lemma BestIsTaken(s: State, t: nat, k: nat, b: nat)
    requires AllRest(s, t) && s.users[t] == Taking(k, Best(b)) && k > 0
    requires b < |s.queues| && QueueLength(s.queues[b]) > 0
    ensures Reaches(s, t, 7, Put(s, t, b, Without(s.queues[b], 1), Ended(k - 1, false)))
  {
    hide Reaches;
    FullTry(s, t, b, k, Best(b));
  }

  /** The first attempt: one element from a queue that has one, or everything from as many queues as it takes. */
  lemma FirstTry(s: State, t: nat, k: nat, bulk: bool) returns (n: nat, s': State)
    requires AllRest(s, t) && s.users[t] == Taking(k, if bulk then Bulk(0) else Scan(0, Found(0, 0, 0)))
    requires 0 < k <= Sum(s.queues, QueueLength)
    ensures Reaches(s, t, n, s') && s'.sem == s.sem && s'.users == s.users[t := Ended(LeftOver(k, bulk), bulk)]
    ensures !bulk ==> OneTaken(s.queues, s'.queues)
  {
    hide Reaches, Rest, QueueLength, Without;
    assert s.queues[0..] == s.queues;
    if bulk {
      n, s' := BulkGets(s, t, k, 0);
    } else {
      var b;
      assert Lengths(s.queues)[..0] == [];
      n, b := ScanFinds(s, t, k, 0);
      assert Lengths(s.queues)[b] > 0;
      var s1 := WithUser(s, t, Taking(k, Best(b)));
      BestIsTaken(s1, t, k, b);
      s' := Put(s1, t, b, Without(s.queues[b], 1), Ended(k - 1, false));
      ReachesMore(s, t, n, s1, 7, s');
      n := n + 7;
    }
  }

  /** In every reachable state in which no other consumer is inside, a consumer that has its permits gets its
      elements from its first call of the inner queue: without coming back to try again it leaves with one
      element, the head of some queue, or with as many as it has permits for. */
  lemma PermitMeansSuccess(s: State, moves: seq<(nat, Move)>, t: nat) returns (n: nat, s': State)
    requires Init(s) && CloseRun(s, moves)
    requires t < |Run(s, moves).users| && Run(s, moves).users[t].Holding?
    requires forall u :: 0 <= u < |Run(s, moves).users| ==> !Run(s, moves).users[u].Taking?
    ensures var r := Run(s, moves); var Holding(k, bulk) := r.users[t];
      && Reaches(Step(r, t, Go), t, n, s') && s'.sem == r.sem
      && s'.users == r.users[t := Ended(LeftOver(k, bulk), bulk)]
      && Elements(s') == Elements(r) - (if bulk then k else 1)
      && (!bulk ==> OneTaken(r.queues, s'.queues))
  {
    var r := Run(s, moves);
    var Holding(k, bulk) := r.users[t];
    RunKeepsInv(s, moves);
    NobodyInsideMeansRest(s, moves, t);
    HolderHasElements(s, moves, t);
    assert ModeOk(r.users[t], r.sem.threads[t]);
    ElementsAreLengths(r, t);
    hide Inv, CloseRun;
    var s1 := Step(r, t, Go);
    n, s' := FirstTry(s1, t, k, bulk);
    assert s'.users == r.users[t := Ended(LeftOver(k, bulk), bulk)];
    StepKeepsInv(r, t, Go);
    AloneKeepsInv(s1, t, n, s');
    Freed(r, s', t);
  }

  lemma {:induction false} AloneKeepsInv(s: State, t: nat, n: nat, s': State)
    requires Inv(s) && Alone(s, t, n) == s'
    ensures Inv(s')
    decreases n
  {
    hide Step, Inv;
    if n > 0 {
      StepKeepsInv(s, t, Go);
      AloneKeepsInv(Step(s, t, Go), t, n - 1, s');
    }
  }

  lemma Freed(s: State, s': State, t: nat)
    requires Inv(s) && Inv(s') && s'.sem == s.sem && t < |s.users| == |s'.users| && s'.users == s.users[t := s'.users[t]]
    requires !s.users[t].Stored? && !s'.users[t].Stored?
    ensures Elements(s') == Elements(s) - HeldWeight(s.users[t]) + HeldWeight(s'.users[t])
  {
    SumUpdate(s.users, HeldWeight, t, s'.users[t]);
    SumUpdate(s.users, StoredWeight, t, s'.users[t]);
  }

  // ----- Whole calls, when no other call is in progress -----

  predicate Quiet(s: State) {
    forall t :: 0 <= t < |s.users| ==> s.users[t] == Outside
  }

  /** The permits that a dequeue asks for. */
  function Wanted(max: nat, bulk: bool): nat {
    if bulk then max else 1
  }

  /** The state when its wait has acquired k permits. */
  function WithPermits(s: State, t: nat, k: nat, bulk: bool): State
    requires t < |s.users|
  {
    WithUser(s, t, Ended(k, bulk)).(sem := s.sem.(count := s.sem.count - k, acquired := s.sem.acquired + k))
  }

  lemma WaitAcquires(s: State, t: nat, max: nat, bulk: bool, p: Semaphore.Patience)
    requires t < |s.users| == |s.sem.threads| && s.users[t] == Outside && s.sem.threads[t] == Semaphore.Idle
    ensures s.sem.count > 0 ==>
      var k := Tickets.Min(s.sem.count, Wanted(max, bulk));
      Step(Step(Step(s, t, Dequeue(max, bulk, p)), t, Sem(Semaphore.Go)), t, Sem(Semaphore.Go)) == WithPermits(s, t, k, bulk)
    ensures s.sem.count <= 0 && p == Semaphore.NoWait ==>
      Step(Step(s, t, Dequeue(max, bulk, p)), t, Sem(Semaphore.Go)) == s
  {
    var want := Wanted(max, bulk);
    var s1 := WithUser(s, t, Asking(0, bulk)).(sem := Semaphore.At(s.sem, t, Semaphore.TryLoad(want, p)));
    assert Step(s, t, Dequeue(max, bulk, p)) == s1;
    assert s.sem.threads[t := Semaphore.Idle] == s.sem.threads;
    assert s.users[t := Outside] == s.users;
    if s.sem.count > 0 {
      var k := Tickets.Min(s.sem.count, want);
      var s2 := s1.(sem := Semaphore.At(s.sem, t, Semaphore.TryCas(s.sem.count, want, p)));
      assert Semaphore.Step(s1.sem, t, Semaphore.Go) == s2.sem;
      assert Step(s1, t, Sem(Semaphore.Go)) == s2;
      assert Semaphore.Step(s2.sem, t, Semaphore.Go) == s.sem.(count := s.sem.count - k, acquired := s.sem.acquired + k);
      assert Step(s2, t, Sem(Semaphore.Go)) == WithPermits(s, t, k, bulk);
    } else if p == Semaphore.NoWait {
      assert Semaphore.Step(s1.sem, t, Semaphore.Go) == s.sem;
    }
  }

  lemma RunMore(s: State, moves: seq<(nat, Move)>, t: nat, m: Move)
    requires CloseRun(s, moves) && Step(Run(s, moves), t, m).queues == Run(s, moves).queues
    ensures Run(s, moves + [(t, m)]) == Step(Run(s, moves), t, m) && CloseRun(s, moves + [(t, m)])
  {
    assert (moves + [(t, m)])[..|moves|] == moves;
  }

  /** In every reachable state with no call in progress a dequeue, run alone, gets its elements: one, or in a bulk
      call as many as it asks for or as there are. It gets none exactly when there is none, and one that does not
      want to wait then changes nothing. */
  lemma DequeueGetsWhatIsThere(s: State, moves: seq<(nat, Move)>, t: nat, max: nat, bulk: bool, p: Semaphore.Patience)
    returns (n: nat, s': State)
    requires Init(s) && CloseRun(s, moves) && Quiet(Run(s, moves)) && t < |Run(s, moves).users|
    ensures var r := Run(s, moves); var r1 := Step(Step(r, t, Dequeue(max, bulk, p)), t, Sem(Semaphore.Go));
      && (Elements(r) == 0 && p == Semaphore.NoWait ==> r1 == r)
      && (Elements(r) > 0 && Wanted(max, bulk) > 0 ==>
            && Reaches(Step(Step(r1, t, Sem(Semaphore.Go)), t, Go), t, n, s')
            && s'.users == r.users && Elements(s') == Elements(r) - Tickets.Min(Elements(r), Wanted(max, bulk))
            && s'.sem.count == Elements(s')
            && (!bulk ==> OneTaken(r.queues, s'.queues)))
  {
    var r := Run(s, moves);
    n, s' := 0, r;
    RunKeepsInv(s, moves);
    assert ModeOk(r.users[t], r.sem.threads[t]);
    QuietCountIsElements(s, moves);
    WaitAcquires(r, t, max, bulk, p);
    if Elements(r) > 0 && Wanted(max, bulk) > 0 {
      n, s' := DequeueSucceeds(s, moves, t, max, bulk, p, Tickets.Min(Elements(r), Wanted(max, bulk)));
    }
  }

  lemma DequeueSucceeds(s: State, moves: seq<(nat, Move)>, t: nat, max: nat, bulk: bool, p: Semaphore.Patience, k: nat)
    returns (n: nat, s': State)
    requires Init(s) && CloseRun(s, moves) && Quiet(Run(s, moves)) && t < |Run(s, moves).users|
    requires Inv(Run(s, moves)) && Run(s, moves).sem.threads[t] == Semaphore.Idle
    requires Run(s, moves).sem.count == Elements(Run(s, moves)) > 0 && k == Tickets.Min(Elements(Run(s, moves)), Wanted(max, bulk)) > 0
    ensures var r := Run(s, moves);
      && Reaches(Step(WithPermits(r, t, k, bulk), t, Go), t, n, s')
      && s'.users == r.users && Elements(s') == Elements(r) - k && s'.sem.count == Elements(s')
      && (!bulk ==> OneTaken(r.queues, s'.queues))
  {
    var r := Run(s, moves);
    WaitAcquires(r, t, max, bulk, p);
    QueuesStay(r, t, max, bulk, p);
    hide Step, Inv, Init, Run, CloseRun, Reaches, OneTaken;
    var m := moves;
    RunMore(s, m, t, Dequeue(max, bulk, p));
    m := m + [(t, Dequeue(max, bulk, p))];
    RunMore(s, m, t, Sem(Semaphore.Go));
    m := m + [(t, Sem(Semaphore.Go))];
    RunMore(s, m, t, Sem(Semaphore.Go));
    m := m + [(t, Sem(Semaphore.Go))];
    assert Run(s, m) == WithPermits(r, t, k, bulk);
    n, s' := PermitMeansSuccess(s, m, t);
    assert s'.users == r.users;
  }

  lemma QueuesStay(s: State, t: nat, max: nat, bulk: bool, p: Semaphore.Patience)
    requires t < |s.users|
    ensures var s1 := Step(s, t, Dequeue(max, bulk, p)); var s2 := Step(s1, t, Sem(Semaphore.Go));
      s1.queues == s2.queues == Step(s2, t, Sem(Semaphore.Go)).queues == s.queues
  {
    hide Semaphore.Step;
  }

  /** In every reachable state an enqueue that has memory and room puts its n elements into the producer's queue
      and, with its next step, n permits into the semaphore; one that has not changes nothing. */
  lemma EnqueueGives(s: State, moves: seq<(nat, Move)>, t: nat, p: nat, n: nat, ok: bool)
    requires Init(s) && t < |Run(s, moves).users| && Run(s, moves).users[t] == Outside && p < |Run(s, moves).queues| && n > 0
    ensures var r := Run(s, moves); var r1 := Step(r, t, Enqueue(p, n, ok)); var r2 := Step(r1, t, Sem(Semaphore.Go));
      if ok && r.queues[p].tail + n - r.queues[p].head < TWO63 then
        && r1.queues == r2.queues == r.queues[p := r.queues[p].(tail := r.queues[p].tail + n)]
        && Elements(r1) == Elements(r) + n && r1.sem.count == r.sem.count
        && r2.sem.count == r.sem.count + n && r2.sem.signalled == r.sem.signalled + n
        && (r.sem.count >= 0 ==> r2.users == r.users)
      else r1 == r
  {
    hide Run, Init, Step, Elements;
    var r := Run(s, moves);
    OutsideIsIdle(s, moves, t);
    if ok && HasRoom(r.queues[p], n) {
      Stores(r, t, p, n);
      Signals(Step(r, t, Enqueue(p, n, true)), t, n);
      assert r.sem.count >= 0 ==> r.users[t := Outside] == r.users;
    } else {
      Refuses(r, t, p, n, ok);
    }
  }

  lemma OutsideIsIdle(s: State, moves: seq<(nat, Move)>, t: nat)
    requires Init(s) && t < |Run(s, moves).users| && Run(s, moves).users[t] == Outside
    ensures var r := Run(s, moves); |r.users| == |r.sem.threads| && r.sem.threads[t] == Semaphore.Idle
  {
    RunKeepsInv(s, moves);
    var r := Run(s, moves);
    assert ModeOk(r.users[t], r.sem.threads[t]);
  }

  lemma Refuses(s: State, t: nat, p: nat, n: nat, ok: bool)
    requires p < |s.queues| && !(ok && HasRoom(s.queues[p], n))
    ensures Step(s, t, Enqueue(p, n, ok)) == s
  {
  }

  /** The elements are in the queue before the semaphore knows. */
  lemma Stores(s: State, t: nat, p: nat, n: nat)
    requires t < |s.users| == |s.sem.threads| && s.users[t] == Outside && s.sem.threads[t] == Semaphore.Idle
    requires p < |s.queues| && HasRoom(s.queues[p], n) && n > 0
    ensures var s1 := Step(s, t, Enqueue(p, n, true)); var q := s.queues[p].(tail := s.queues[p].tail + n);
      && s1 == WithUser(s, t, Stored(n)).(queues := s.queues[p := q], sem := Semaphore.At(s.sem, t, Semaphore.Add(n)))
      && Elements(s1) == Elements(s) + n
  {
    var q := s.queues[p].(tail := s.queues[p].tail + n);
    SumUpdate(s.queues, Tail, p, q);
    SumUpdate(s.queues, Head, p, q);
  }

  lemma Signals(s: State, t: nat, n: nat)
    requires t < |s.users| == |s.sem.threads| && s.users[t] == Stored(n) && s.sem.threads[t] == Semaphore.Add(n)
    ensures var s2 := Step(s, t, Sem(Semaphore.Go));
      && s2.queues == s.queues && s2.sem.count == s.sem.count + n && s2.sem.signalled == s.sem.signalled + n
      && (s.sem.count >= 0 ==> s2.users == s.users[t := Outside])
  {
    var k := Semaphore.Min(-s.sem.count, n);
    assert Semaphore.Step(s.sem, t, Semaphore.Go)
      == Semaphore.At(s.sem.(count := s.sem.count + n, signalled := s.sem.signalled + n), t,
                      if k > 0 then Semaphore.Post(k) else Semaphore.Idle);
  }

  // ----- What an inner call that comes back without an element has seen -----

  /** What a step of consumer t says about producer i: its size is read as 0, its dequeue returns nothing, or its
      dequeue_bulk returns. */
  datatype Sign = SeenEmpty | Refusal | Finish

  predicate Shows(s: State, t: nat, i: nat, sign: Sign) {
    && t < |s.users| && s.users[t].Taking? && i < |s.queues| && t < |s.queues[i].threads|
    && match sign
       case SeenEmpty =>
         s.users[t].call.ScanHead? && s.users[t].call.i == i && SizeSeen(s.users[t].call.tail, s.queues[i].head) == 0
       case Refusal =>
         var p := InQueue(s.queues[i], t, s.users[t].k, s.users[t].call);
         && IsIn(s.users[t], i) && !s.queues[i].threads[t].Reading? && !s.queues[i].threads[t].Idle?
         && t < |p.queue.threads| && p.queue.threads[t] == Tickets.Idle
       case Finish =>
         var p := InQueue(s.queues[i], t, s.users[t].k, s.users[t].call);
         && IsIn(s.users[t], i) && !s.queues[i].threads[t].Idle?
         && t < |p.queue.threads| && p.queue.threads[t] == Tickets.Idle
  }

  /** A step of this call of consumer t has shown that. */
  ghost predicate HasShown(s: State, moves: seq<(nat, Move)>, t: nat, i: nat, sign: Sign) {
    exists j: nat | j < |moves| :: ShownAt(s, moves, t, i, sign, j)
  }

  ghost predicate ShownAt(s: State, moves: seq<(nat, Move)>, t: nat, i: nat, sign: Sign, j: nat) {
    && j < |moves| && moves[j] == (t, Go) && Shows(Run(s, moves[..j]), t, i, sign)
    && forall k :: j < k <= |moves| ==> t < |Run(s, moves[..k]).users| && Run(s, moves[..k]).users[t].Taking?
  }

  lemma ShownLater(s: State, moves: seq<(nat, Move)>, t: nat, i: nat, sign: Sign)
    requires moves != [] && HasShown(s, moves[..|moves| - 1], t, i, sign)
    requires t < |Run(s, moves).users| && Run(s, moves).users[t].Taking?
    ensures HasShown(s, moves, t, i, sign)
  {
    hide Run, Shows;
    var before := moves[..|moves| - 1];
    var j: nat :| j < |before| && ShownAt(s, before, t, i, sign, j);
    forall k | 0 <= k <= |before|
      ensures before[..k] == moves[..k]
    {
    }
    assert moves[..|moves|] == moves;
    assert ShownAt(s, moves, t, i, sign, j);
  }

  lemma ShownNow(s: State, moves: seq<(nat, Move)>, t: nat, i: nat, sign: Sign)
    requires moves != [] && moves[|moves| - 1] == (t, Go) && Shows(Run(s, moves[..|moves| - 1]), t, i, sign)
    requires t < |Run(s, moves).users| && Run(s, moves).users[t].Taking?
    ensures HasShown(s, moves, t, i, sign)
  {
    hide Run, Shows;
    assert moves[..|moves|] == moves;
    assert ShownAt(s, moves, t, i, sign, |moves| - 1);
  }

  /** How far the call has got says what it has shown. */
  ghost predicate CallHistory(s: State, moves: seq<(nat, Move)>, t: nat, call: Inner) {
    match call
    case Scan(n, f) => f.nonEmpty == 0 ==> forall i :: 0 <= i < n ==> HasShown(s, moves, t, i, SeenEmpty)
    case ScanHead(n, f, _) => f.nonEmpty == 0 ==> forall i :: 0 <= i < n ==> HasShown(s, moves, t, i, SeenEmpty)
    case Best(_) => true
    case Others(b, n) =>
      && HasShown(s, moves, t, b, Refusal)
      && forall i :: 0 <= i < n && i != b ==> HasShown(s, moves, t, i, Refusal)
    case Bulk(n) => forall i :: 0 <= i < n ==> HasShown(s, moves, t, i, Finish)
  }

  /** One step of the consumer itself. */
  lemma CallGoesOn(s: State, t: nat)
    requires Shape(s) && t < |s.users| && s.users[t].Taking? && Step(s, t, Go).users[t].Taking?
    ensures var call, call' := s.users[t].call, Step(s, t, Go).users[t].call;
      match call'
      case Scan(n, f) =>
        call.ScanHead? && n == call.i + 1 && (f.nonEmpty == 0 ==> call.found.nonEmpty == 0 && Shows(s, t, call.i, SeenEmpty))
      case ScanHead(n, f, _) => call == Scan(n, f)
      case Best(_) => true
      case Others(b, n) =>
        || call == call'
        || (call == Best(b) && n == 0 && Shows(s, t, b, Refusal))
        || (n > 0 && call == Others(b, n - 1) && (n - 1 == b || Shows(s, t, n - 1, Refusal)))
      case Bulk(n) => call == call' || (n > 0 && call == Bulk(n - 1) && Shows(s, t, n - 1, Finish))
  {
    hide Tickets.Step, SizeSeen;
    assert TakingOk(s, s.users[t]);
    var call := s.users[t].call;
    var i := match call
      case Best(b) => b
      case Others(b, i) => i
      case Bulk(i) => i
      case _ => |s.queues|;
    if i < |s.queues| && IsIn(s.users[t], i) {
      assert UserOk(s, t, i);
      InQueueEffect(s.queues[i], t, s.users[t].k, call);
    }
  }

  lemma CallStarts(s: State, t: nat, m: Move)
    requires Shape(s) && t < |s.users| && t < |Step(s, t, m).users| && Step(s, t, m).users[t].Taking?
    ensures s.users[t].Taking? || s.users[t].Holding?
    ensures m == Go || Step(s, t, m).users[t] == s.users[t]
    ensures s.users[t].Holding? && m == Go ==>
      var call := Step(s, t, m).users[t].call; call == Bulk(0) || call == Scan(0, Found(0, 0, 0))
  {
    hide Semaphore.Step, InnerStep;
    assert ModeOk(s.users[t], s.sem.threads[t]);
  }

  lemma OtherUsersStay(s: State, u: nat, m: Move, t: nat)
    requires t < |s.users| && u != t
    ensures |Step(s, u, m).users| == |s.users| && Step(s, u, m).users[t] == s.users[t]
  {
    hide Semaphore.Step, Tickets.Step, SizeSeen, AfterQueue;
  }

  lemma UsersStay(s: State, u: nat, m: Move)
    ensures |Step(s, u, m).users| == |s.users|
  {
    hide Semaphore.Step, Tickets.Step, SizeSeen, AfterQueue;
  }

  /** The history that was right stays right while the call goes on. */
  lemma HistoryLater(s: State, moves: seq<(nat, Move)>, t: nat, call: Inner)
    requires moves != [] && CallHistory(s, moves[..|moves| - 1], t, call)
    requires t < |Run(s, moves).users| && Run(s, moves).users[t].Taking?
    ensures CallHistory(s, moves, t, call)
  {
    hide Run, HasShown;
    var before := moves[..|moves| - 1];
    forall i: nat, sign | HasShown(s, before, t, i, sign)
      ensures HasShown(s, moves, t, i, sign)
    {
      ShownLater(s, moves, t, i, sign);
    }
  }

  lemma {:induction false} HistoryIsRight(s: State, moves: seq<(nat, Move)>, t: nat)
    requires Init(s) && t < |Run(s, moves).users| && Run(s, moves).users[t].Taking?
    ensures CallHistory(s, moves, t, Run(s, moves).users[t].call)
    decreases |moves|
  {
    var before := moves[..|moves| - 1];
    var (u, m) := moves[|moves| - 1];
    var r := Run(s, before);
    RunKeepsInv(s, before);
    hide Step, Shape, CallHistory, Shows, Init;
    UsersStay(r, u, m);
    if u != t {
      OtherUsersStay(r, u, m, t);
      HistoryIsRight(s, before, t);
      HistoryLater(s, moves, t, r.users[t].call);
    } else {
      CallStarts(r, t, m);
      if r.users[t].Holding? {
        HistoryStarts(s, moves, t, Run(s, moves).users[t].call);
      } else {
        HistoryIsRight(s, before, t);
        HistoryLater(s, moves, t, r.users[t].call);
        if m == Go {
          CallGoesOn(r, t);
          HistoryGrows(s, moves, t);
        }
      }
    }
  }

  lemma HistoryStarts(s: State, moves: seq<(nat, Move)>, t: nat, call: Inner)
    requires call == Bulk(0) || call == Scan(0, Found(0, 0, 0))
    ensures CallHistory(s, moves, t, call)
  {
  }

  lemma HistoryGrows(s: State, moves: seq<(nat, Move)>, t: nat)
    requires moves != [] && moves[|moves| - 1] == (t, Go)
    requires var r := Run(s, moves[..|moves| - 1]);
      Shape(r) && t < |r.users| && r.users[t].Taking? && CallHistory(s, moves, t, r.users[t].call)
    requires t < |Run(s, moves).users| && Run(s, moves).users[t].Taking?
    ensures CallHistory(s, moves, t, Run(s, moves).users[t].call)
  {
    var r := Run(s, moves[..|moves| - 1]);
    CallGoesOn(r, t);
    assert Run(s, moves) == Step(r, t, Go);
    hide Run, Step, Shape, HasShown, Shows;
    forall i: nat, sign | Shows(r, t, i, sign)
      ensures HasShown(s, moves, t, i, sign)
    {
      ShownNow(s, moves, t, i, sign);
    }
  }

  /** The consumer is moving out what it has claimed. */
  predicate IsReading(s: State, t: nat) {
    t < |s.users| && exists i :: 0 <= i < |s.queues| && IsIn(s.users[t], i) && t < |s.queues[i].threads| && s.queues[i].threads[t].Reading?
  }

  /** However many others interfere: when an inner call comes back without having moved an element out, then in this
      call either the sizes of all producers were seen as 0, or every
      producer's dequeue returned nothing, or, in a bulk call, every producer has been asked. */
  lemma {:induction false} NothingMeansAllAsked(s: State, moves: seq<(nat, Move)>, t: nat)
    requires Init(s) && t < |Run(s, moves).users| && Run(s, moves).users[t].Taking?
    requires !Step(Run(s, moves), t, Go).users[t].Taking? && !IsReading(Run(s, moves), t)
    ensures var n := |Run(s, moves).queues|;
      || (forall i :: 0 <= i < n ==> HasShown(s, moves, t, i, SeenEmpty))
      || (forall i :: 0 <= i < n ==> HasShown(s, moves, t, i, Refusal))
      || (Run(s, moves).users[t].call.Bulk? && forall i :: 0 <= i < n ==> HasShown(s, moves, t, i, Finish))
  {
    var r := Run(s, moves);
    RunKeepsInv(s, moves);
    HistoryIsRight(s, moves, t);
    hide HasShown, Run, Init;
    ComesBack(r, t);
  }

  lemma ComesBack(s: State, t: nat)
    requires Shape(s) && t < |s.users| && s.users[t].Taking?
    requires !Step(s, t, Go).users[t].Taking? && !IsReading(s, t)
    ensures match s.users[t].call
      case Scan(n, f) => n >= |s.queues| && f.nonEmpty == 0
      case Others(b, n) => n >= |s.queues|
      case Bulk(n) => n >= |s.queues|
      case _ => false
  {
    hide SizeSeen;
    assert TakingOk(s, s.users[t]);
    var call := s.users[t].call;
    var i := match call
      case Best(b) => b
      case Others(b, i) => i
      case Bulk(i) => i
      case _ => |s.queues|;
    if i < |s.queues| && IsIn(s.users[t], i) {
      assert UserOk(s, t, i);
      InQueueEffect(s.queues[i], t, s.users[t].k, call);
      hide Tickets.Step;
    }
  }

  // ----- An inner call ends, whatever the others do -----

  /** The steps that are left of consumer t's inner call, at most. */
  function CallStepsLeft(s: State, t: nat, call: Inner): int {
    var n := |s.queues|;
    match call
    case Scan(i, _) => 9 * n + 11 + if i < n then 2 * (n - i) else 0
    case ScanHead(i, _, _) => 9 * n + 10 + if i < n then 2 * (n - i) else 0
    case Best(b) => 9 * n + 1 + QueueStepsLeft(s, t, b)
    case Others(b, i) => if i < n then 9 * (n - i - 1) + 1 + QueueStepsLeft(s, t, i) else 1
    case Bulk(i) => if i < n then 9 * (n - i - 1) + 1 + QueueStepsLeft(s, t, i) else 1
  }

  function QueueStepsLeft(s: State, t: nat, i: nat): (n: nat)
    ensures n <= 8
  {
    if i < |s.queues| && t < |s.queues[i].threads| then Tickets.StepsLeft(s.queues[i].threads[t]) else 0
  }

  /** The inner calls are wait-free: with each step of its own a call is nearer to its end, and the steps of others
      do not set it back. */
  lemma InnerCallIsWaitFree(s: State, t: nat)
    requires Shape(s) && t < |s.users| && s.users[t].Taking?
    ensures 0 < CallStepsLeft(s, t, s.users[t].call) <= 11 * |s.queues| + 11
    ensures var s' := Step(s, t, Go);
      s'.users[t].Taking? ==> CallStepsLeft(s', t, s'.users[t].call) < CallStepsLeft(s, t, s.users[t].call)
    ensures forall u, m :: u != t ==>
      var s' := Step(s, u, m);
      |s'.users| == |s.users| && s'.users[t] == s.users[t]
      && CallStepsLeft(s', t, s'.users[t].call) == CallStepsLeft(s, t, s.users[t].call)
  {
    CallEnds(s, t);
    forall u, m | u != t
      ensures var s' := Step(s, u, m);
        |s'.users| == |s.users| && s'.users[t] == s.users[t]
        && CallStepsLeft(s', t, s'.users[t].call) == CallStepsLeft(s, t, s.users[t].call)
    {
      OtherUsersStay(s, u, m, t);
      hide Step, Shape;
      OtherStepsKeep(s, u, m, t);
    }
  }

  lemma CallEnds(s: State, t: nat)
    requires Shape(s) && t < |s.users| && s.users[t].Taking?
    ensures 0 < CallStepsLeft(s, t, s.users[t].call) <= 11 * |s.queues| + 11
    ensures var s' := Step(s, t, Go);
      s'.users[t].Taking? ==> CallStepsLeft(s', t, s'.users[t].call) < CallStepsLeft(s, t, s.users[t].call)
  {
    hide SizeSeen;
    assert TakingOk(s, s.users[t]);
    var call := s.users[t].call;
    var i := match call
      case Best(b) => b
      case Others(b, i) => i
      case Bulk(i) => i
      case _ => |s.queues|;
    if i < |s.queues| && IsIn(s.users[t], i) {
      assert UserOk(s, t, i);
      InQueueEffect(s.queues[i], t, s.users[t].k, call);
      if s.queues[i].threads[t] != Tickets.Idle {
        Tickets.DequeueIsWaitFree(s.queues[i], t);
      }
      hide Tickets.Step;
    }
  }

  lemma OtherStepsKeep(s: State, u: nat, m: Move, t: nat)
    requires u != t
    ensures |Step(s, u, m).queues| == |s.queues|
    ensures forall i :: 0 <= i < |s.queues| ==> QueueStepsLeft(Step(s, u, m), t, i) == QueueStepsLeft(s, t, i)
    ensures forall call :: CallStepsLeft(Step(s, u, m), t, call) == CallStepsLeft(s, t, call)
  {
    var s' := Step(s, u, m);
    QueuesOfOthers(s, u, m, t);
    hide Step;
  }

  lemma QueuesOfOthers(s: State, u: nat, m: Move, t: nat)
    requires u != t
    ensures |Step(s, u, m).queues| == |s.queues|
    ensures forall i :: 0 <= i < |s.queues| ==> QueueStepsLeft(Step(s, u, m), t, i) == QueueStepsLeft(s, t, i)
  {
    var s' := Step(s, u, m);
    forall i | 0 <= i < |s.queues|
      ensures |s'.queues| == |s.queues| && QueueStepsLeft(s', t, i) == QueueStepsLeft(s, t, i)
    {
      var tm := StepsOneQueue(s, u, m, i);
      TicketsOfOthers(s.queues[i], u, tm, t);
    }
  }

  lemma TicketsOfOthers(q: Tickets.State, u: nat, m: Tickets.Move, t: nat)
    requires u != t
    ensures var q' := Tickets.Step(q, u, m);
      |q'.threads| == |q.threads| && (t < |q.threads| ==> q'.threads[t] == q.threads[t])
  {
    hide Wrap, CircularLess;
  }
}
