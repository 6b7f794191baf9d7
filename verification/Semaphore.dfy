/**
 The semaphore under the blocking queue: an atomic count that goes negative by one for each thread that has to
 wait, and a kernel semaphore on which those threads sleep. A wait that times out has to take its decrement
 back unless a signaller has already counted it in. Each atomic access, each kernel post and each wake-up is
 a step; threads interleave freely. Waiting for one permit and for up to `max` permits is the same code.
 */
module Semaphore {
  import opened Counting

  const SPINS: nat := 10000

  datatype Patience = NoWait | Forever | Timed

  datatype PC =
    | Idle
    | TryLoad(max: nat, p: Patience)                          // load of m_count in tryWait(Many)
    | TryCas(seen: nat, max: nat, p: Patience)                // its CAS
    | SpinLoad(spin: nat, max: nat, p: Patience)              // load of m_count in the spinning loop
    | SpinCas(seen: nat, spin: nat, max: nat, p: Patience)    // its CAS
    | FetchSub(max: nat, p: Patience)                         // fetch_sub that may announce a waiter
    | Sleep(max: nat, p: Patience)                            // in the kernel wait
    | LateLoad(max: nat)                                      // timed out: load of m_count
    | LateTry(max: nat)                                       // the count was >= 0: kernel try_wait
    | LateCas(below: int, max: nat)                            // the count was negative: CAS to old + 1
    | Add(n: nat)                                             // signal: fetch_add
    | Post(k: nat)                                            // signal: k kernel posts to go

  /** `initial`, `signalled` and `acquired` count permits since the start. */
  datatype State = State(
    count: int, kernel: nat, threads: seq<PC>, initial: nat, signalled: nat, acquired: nat)

  /** A CAS may fail spuriously; a timed sleep may end without a token. */
  datatype Move = CallWait(max: nat, p: Patience) | CallSignal(n: nat) | Go | Spurious | TimeOut

  function Min(a: int, b: int): int {
    if a < b then a else b
  }

  function At(s: State, t: nat, pc: PC): State
    requires t < |s.threads|
  {
    s.(threads := s.threads[t := pc])
  }

  function Acquire(s: State, k: nat): State {
    s.(acquired := s.acquired + k)
  }

  /** After a permit from the slow path: try for the rest without waiting. */
  function Rest(max: nat): PC {
    if max > 1 then TryLoad(max - 1, NoWait) else Idle
  }

  /** What tryWaitMany does with the count it has just seen. */
  function Seen(count: int, max: nat, p: Patience): PC {
    if count > 0 then TryCas(count, max, p)
    else if p == NoWait || max == 0 then Idle
    else SpinLoad(SPINS, max, p)
  }

  function SpinOn(spin: nat, max: nat, p: Patience): PC {
    if spin == 0 then FetchSub(max, p) else SpinLoad(spin, max, p)
  }

  function Step(s: State, t: nat, m: Move): State {
    if t >= |s.threads| then s else
    match s.threads[t]
    case Idle =>
      (match m
       case CallWait(max, p) => At(s, t, TryLoad(max, p))
       case CallSignal(n) => At(s, t, Add(n))
       case _ => s)
    case TryLoad(max, p) => At(s, t, Seen(s.count, max, p))
    case TryCas(seen, max, p) =>
      if s.count == seen && m != Spurious then
        var taken: nat := Min(seen, max);
        At(Acquire(s.(count := seen - taken), taken), t, Idle)
      else At(s, t, Seen(s.count, max, p))
    case SpinLoad(spin, max, p) =>
      if spin == 0 then At(s, t, FetchSub(max, p))
      else if s.count > 0 then At(s, t, SpinCas(s.count, spin - 1, max, p))
      else At(s, t, SpinOn(spin - 1, max, p))
    case SpinCas(seen, spin, max, p) =>
      if s.count == seen then
        var taken: nat := Min(seen, max);
        At(Acquire(s.(count := seen - taken), taken), t, Idle)
      else At(s, t, SpinOn(spin, max, p))
    case FetchSub(max, p) =>
      if s.count > 0 then At(Acquire(s.(count := s.count - 1), 1), t, Rest(max))
      else At(s.(count := s.count - 1), t, Sleep(max, p))
    case Sleep(max, p) =>
      if m == TimeOut then (if p == Timed then At(s, t, LateLoad(max)) else s)
      else if s.kernel > 0 then At(Acquire(s.(kernel := s.kernel - 1), 1), t, Rest(max))
      else s
    case LateLoad(max) => At(s, t, if s.count >= 0 then LateTry(max) else LateCas(s.count, max))
    case LateTry(max) =>
      if s.kernel > 0 then At(Acquire(s.(kernel := s.kernel - 1), 1), t, Rest(max))
      else At(s, t, LateLoad(max))
    case LateCas(below, max) =>
      if s.count == below then At(s.(count := below + 1), t, Idle) else At(s, t, LateLoad(max))
    case Add(n) =>
      var toRelease := Min(-s.count, n);
      At(s.(count := s.count + n, signalled := s.signalled + n), t, if toRelease > 0 then Post(toRelease) else Idle)
    case Post(k) =>
      if k == 0 then At(s, t, Idle)
      else At(s.(kernel := s.kernel + 1), t, if k == 1 then Idle else Post(k - 1))
  }

  function Run(s: State, moves: seq<(nat, Move)>): State
    decreases |moves|
  {
    if moves == [] then s else
    var last := |moves| - 1;
    Step(Run(s, moves[..last]), moves[last].0, moves[last].1)
  }

  predicate Init(s: State) {
    && s.count == s.initial && s.kernel == s.signalled == s.acquired == 0
    && forall t :: 0 <= t < |s.threads| ==> s.threads[t] == Idle
  }

  // ----- Conservation -----

  function Positive(x: int): (r: nat)
    ensures x >= 0 ==> r == x
  {
    if x > 0 then x else 0
  }

  /** A thread that has announced itself by a decrement below zero and has neither been served nor given up. */
  function WaiterWeight(pc: PC): nat {
    if pc.Sleep? || pc.LateLoad? || pc.LateTry? || pc.LateCas? then 1 else 0
  }

  /** Kernel posts a signaller has promised and not made yet. */
  function ReleaseWeight(pc: PC): nat {
    if pc.Post? then pc.k else 0
  }

  function Waiters(s: State): nat { Sum(s.threads, WaiterWeight) }

  function Releases(s: State): nat { Sum(s.threads, ReleaseWeight) }

  /** The permits nobody has acquired yet, wherever they are. */
  function Permits(s: State): nat {
    Positive(s.count) + s.kernel + Releases(s)
  }

  predicate Conserved(s: State) {
    && s.initial + s.signalled == s.acquired + Permits(s)
    && Waiters(s) == Positive(-s.count) + s.kernel + Releases(s)
    && SightsOk(s)
  }

  /** A count in a local that a CAS is going to compare was positive, or negative. */
  predicate SightOk(pc: PC) {
    match pc
    case TryCas(seen, _, _) => seen > 0
    case SpinCas(seen, _, _, _) => seen > 0
    case LateCas(below, _) => below < 0
    case _ => true
  }

  predicate SightsOk(s: State) {
    forall t :: 0 <= t < |s.threads| ==> SightOk(s.threads[t])
  }

  lemma InitConserved(s: State)
    requires Init(s)
    ensures Conserved(s)
  {
    SumZero(s.threads, WaiterWeight);
    SumZero(s.threads, ReleaseWeight);
  }

  /** What one step gives and takes, looking at the stepping thread alone. */
  predicate Balanced(s: State, s': State, pc: PC, pc': PC) {
    && s'.initial == s.initial
    && s'.signalled - s.signalled == s'.acquired - s.acquired + Positive(s'.count) - Positive(s.count)
         + s'.kernel - s.kernel + ReleaseWeight(pc') - ReleaseWeight(pc)
    && WaiterWeight(pc') - WaiterWeight(pc) == Positive(-s'.count) - Positive(-s.count)
         + s'.kernel - s.kernel + ReleaseWeight(pc') - ReleaseWeight(pc)
    && SightOk(pc')
  }

  lemma FastPathBalances(s: State, t: nat, m: Move)
    requires t < |s.threads| && SightOk(s.threads[t])
    requires var pc := s.threads[t]; pc.Idle? || pc.TryLoad? || pc.TryCas? || pc.SpinLoad? || pc.SpinCas?
    ensures Balanced(s, Step(s, t, m), s.threads[t], Step(s, t, m).threads[t])
    ensures Step(s, t, m).threads == s.threads[t := Step(s, t, m).threads[t]]
  {
  }

  lemma WaitPathBalances(s: State, t: nat, m: Move)
    requires t < |s.threads| && SightOk(s.threads[t])
    requires var pc := s.threads[t]; pc.FetchSub? || pc.Sleep? || pc.LateLoad? || pc.LateTry? || pc.LateCas?
    ensures Balanced(s, Step(s, t, m), s.threads[t], Step(s, t, m).threads[t])
    ensures Step(s, t, m).threads == s.threads[t := Step(s, t, m).threads[t]]
  {
  }

  lemma SignalPathBalances(s: State, t: nat, m: Move)
    requires t < |s.threads| && (s.threads[t].Add? || s.threads[t].Post?)
    ensures Balanced(s, Step(s, t, m), s.threads[t], Step(s, t, m).threads[t])
    ensures Step(s, t, m).threads == s.threads[t := Step(s, t, m).threads[t]]
  {
  }

  lemma StepBalances(s: State, t: nat, m: Move)
    requires t < |s.threads| && SightOk(s.threads[t])
    ensures Balanced(s, Step(s, t, m), s.threads[t], Step(s, t, m).threads[t])
    ensures Step(s, t, m).threads == s.threads[t := Step(s, t, m).threads[t]]
  {
    var pc := s.threads[t];
    if pc.Idle? || pc.TryLoad? || pc.TryCas? || pc.SpinLoad? || pc.SpinCas? {
      FastPathBalances(s, t, m);
    } else if pc.Add? || pc.Post? {
      SignalPathBalances(s, t, m);
    } else {
      WaitPathBalances(s, t, m);
    }
  }

  lemma BalanceConserves(s: State, s': State, t: nat)
    requires Conserved(s) && t < |s.threads| == |s'.threads|
    requires s'.threads == s.threads[t := s'.threads[t]]
    requires Balanced(s, s', s.threads[t], s'.threads[t])
    ensures Conserved(s')
  {
    SumUpdate(s.threads, WaiterWeight, t, s'.threads[t]);
    SumUpdate(s.threads, ReleaseWeight, t, s'.threads[t]);
  }

  lemma StepConserves(s: State, t: nat, m: Move)
    requires Conserved(s)
    ensures Conserved(Step(s, t, m))
    ensures Step(s, t, m).initial == s.initial
  {
    if t < |s.threads| {
      StepBalances(s, t, m);
      BalanceConserves(s, Step(s, t, m), t);
    }
  }

  /** Over every interleaving no permit is lost or invented, and every waiter is accounted for. */
  lemma {:induction false} PermitsConserved(s: State, moves: seq<(nat, Move)>)
    requires Init(s)
    ensures Conserved(Run(s, moves)) && Run(s, moves).initial == s.initial
    decreases |moves|
  {
    if moves == [] {
      InitConserved(s);
    } else {
      var last := |moves| - 1;
      PermitsConserved(s, moves[..last]);
      StepConserves(Run(s, moves[..last]), moves[last].0, moves[last].1);
    }
  }

  /** No waiter sleeps while a permit is free: when the count is not negative, each waiter has a kernel token
      waiting for it or a post on its way. */
  lemma FreePermitMeansNoForgottenWaiter(s: State, moves: seq<(nat, Move)>)
    requires Init(s)
    ensures var r := Run(s, moves); r.count >= 0 ==> Waiters(r) == r.kernel + Releases(r)
    ensures var r := Run(s, moves); Waiters(r) > r.kernel + Releases(r) ==> r.count < 0
  {
    PermitsConserved(s, moves);
  }

  /** A thread that has timed out is never stuck: it can take its decrement back, or a token is for it. */
  lemma {:induction false} TimedOutWaiterCanFinish(s: State, moves: seq<(nat, Move)>, t: nat)
    requires Init(s)
    requires t < |Run(s, moves).threads| && WaiterWeight(Run(s, moves).threads[t]) == 1
    ensures var r := Run(s, moves); r.count < 0 || r.kernel > 0 || Releases(r) > 0
  {
    PermitsConserved(s, moves);
    var r := Run(s, moves);
    SumUpdate(r.threads, WaiterWeight, t, r.threads[t]);
  }

  /** With no call in progress the count is exactly what was given minus what was taken, and the kernel
      semaphore holds no stray token. */
  lemma QuietCountIsExact(s: State, moves: seq<(nat, Move)>)
    requires Init(s)
    requires forall t :: 0 <= t < |Run(s, moves).threads| ==> Run(s, moves).threads[t] == Idle
    ensures var r := Run(s, moves);
      r.kernel == 0 && r.count == s.initial + r.signalled - r.acquired && r.count >= 0
  {
    PermitsConserved(s, moves);
    SumZero(Run(s, moves).threads, WaiterWeight);
    SumZero(Run(s, moves).threads, ReleaseWeight);
  }

  // ----- What a call returns -----

  /** Thread t goes on alone. */
  function Alone(s: State, t: nat, k: nat): State
    decreases k
  {
    if k == 0 then s else Alone(Step(s, t, Go), t, k - 1)
  }

  lemma {:induction false} AloneMore(s: State, t: nat, j: nat, k: nat)
    ensures Alone(s, t, j + k) == Alone(Alone(s, t, j), t, k)
    decreases j
  {
    hide Step;
    if j > 0 {
      AloneMore(Step(s, t, Go), t, j - 1, k);
    }
  }

  /** A wait that finds permits takes them, whatever its patience: as many as it wants or as there are, in two
      accesses. One that does not want to wait and finds none changes nothing, in one access. */
  lemma WaitTakesWhatIsThere(s: State, t: nat, max: nat, p: Patience)
    requires t < |s.threads| && s.threads[t] == Idle
    ensures s.count > 0 ==>
      var k := Min(s.count, max);
      k >= 0 && Alone(Step(s, t, CallWait(max, p)), t, 2) == s.(count := s.count - k, acquired := s.acquired + k)
    ensures s.count <= 0 && p == NoWait ==> Alone(Step(s, t, CallWait(max, p)), t, 1) == s
  {
    var s0 := At(s, t, TryLoad(max, p));
    if s.count > 0 {
      var s1 := At(s, t, TryCas(s.count, max, p));
      assert Step(s0, t, Go) == s1;
      assert Alone(s0, t, 2) == Alone(s1, t, 1) == Step(s1, t, Go);
      assert s.threads[t := Idle] == s.threads;
    } else if p == NoWait {
      assert Alone(s0, t, 1) == Step(s0, t, Go) == At(s, t, Idle) == s;
    }
  }

  lemma {:induction false} SpinsAlone(s: State, t: nat, spin: nat, max: nat, p: Patience)
    requires t < |s.threads| && s.threads[t] == SpinLoad(spin, max, p) && spin > 0 && s.count <= 0
    ensures Alone(s, t, spin) == At(s, t, FetchSub(max, p))
    decreases spin
  {
    var s1 := Step(s, t, Go);
    assert s1 == At(s, t, SpinOn(spin - 1, max, p));
    if spin > 1 {
      SpinsAlone(s1, t, spin - 1, max, p);
    } else {
      assert Alone(s, t, 1) == Alone(s1, t, 0);
    }
  }

  /** Where a wait gets that finds no permit and has patience. */
  function Asleep(s: State, t: nat, max: nat, p: Patience): State
    requires t < |s.threads|
  {
    At(s.(count := s.count - 1), t, Sleep(max, p))
  }

  /** It spins 10000 times, announces itself and sleeps. A token then gives it its first permit; a timeout, when
      there is none, takes everything back. */
  lemma WaitSleeps(s: State, t: nat, max: nat, p: Patience)
    requires t < |s.threads| && s.threads[t] == Idle && s.count <= 0 && max > 0 && p != NoWait
    ensures Alone(Step(s, t, CallWait(max, p)), t, SPINS + 2) == Asleep(s, t, max, p)
    ensures s.kernel > 0 ==>
      Step(Asleep(s, t, max, p), t, Go)
      == At(s.(count := s.count - 1, kernel := s.kernel - 1, acquired := s.acquired + 1), t, Rest(max))
    ensures p == Timed ==> Alone(Step(Asleep(s, t, max, p), t, TimeOut), t, 2) == s
  {
    var s0 := At(s, t, TryLoad(max, p));
    var s1 := At(s, t, SpinLoad(SPINS, max, p));
    var s2 := At(s, t, FetchSub(max, p));
    assert Step(s0, t, Go) == s1;
    SpinsAlone(s1, t, SPINS, max, p);
    assert At(s1, t, FetchSub(max, p)) == s2;
    AloneMore(s1, t, SPINS, 1);
    assert Alone(s2, t, 1) == Step(s2, t, Go) == Asleep(s, t, max, p);
    assert Alone(s0, t, SPINS + 2) == Alone(s1, t, SPINS + 1);
    if p == Timed {
      TimesOut(s, t, max);
    }
  }

  lemma TimesOut(s: State, t: nat, max: nat)
    requires t < |s.threads| && s.threads[t] == Idle && s.count <= 0
    ensures Alone(Step(Asleep(s, t, max, Timed), t, TimeOut), t, 2) == s
  {
    var late := At(s.(count := s.count - 1), t, LateLoad(max));
    var cas := At(s.(count := s.count - 1), t, LateCas(s.count - 1, max));
    assert Step(Asleep(s, t, max, Timed), t, TimeOut) == late && Step(late, t, Go) == cas;
    assert s.threads[t := Idle] == s.threads;
    assert Alone(late, t, 2) == Alone(cas, t, 1) == Step(cas, t, Go) == s;
  }

  /** Signal adds its permits to the count and posts a token for each waiter they are enough for. */
  lemma SignalGives(s: State, t: nat, n: nat)
    requires t < |s.threads| && s.threads[t] == Idle
    ensures var k := Positive(Min(-s.count, n));
      Alone(Step(s, t, CallSignal(n)), t, 1 + k)
      == s.(count := s.count + n, signalled := s.signalled + n, kernel := s.kernel + k)
  {
    var k := Positive(Min(-s.count, n));
    var s0 := At(s, t, Add(n));
    var s1 := s.(count := s.count + n, signalled := s.signalled + n);
    assert Step(s0, t, Go) == At(s1, t, if k > 0 then Post(k) else Idle);
    assert s.threads[t := Idle] == s.threads;
    if k > 0 {
      PostsAlone(At(s1, t, Post(k)), t, k);
    }
  }

  lemma {:induction false} PostsAlone(s: State, t: nat, k: nat)
    requires t < |s.threads| && s.threads[t] == Post(k) && k > 0
    ensures Alone(s, t, k) == At(s.(kernel := s.kernel + k), t, Idle)
    decreases k
  {
    var s1 := Step(s, t, Go);
    if k > 1 {
      PostsAlone(s1, t, k - 1);
    } else {
      assert Alone(s, t, 1) == Alone(s1, t, 0);
    }
  }

  /** How many permits a wait still wants, and whether it may do without. */
  function Wants(pc: PC): nat {
    if pc.TryLoad? || pc.TryCas? || pc.SpinLoad? || pc.SpinCas? || pc.FetchSub? || pc.Sleep? || pc.LateLoad?
       || pc.LateTry? || pc.LateCas? then pc.max
    else 0
  }

  predicate WaitsForever(pc: PC) {
    (pc.TryLoad? || pc.TryCas? || pc.SpinLoad? || pc.SpinCas? || pc.FetchSub? || pc.Sleep?) && pc.p == Forever
  }

  lemma EmptyHandedStep(s: State, t: nat, m: Move)
    requires t < |s.threads| && Wants(s.threads[t]) > 0 && SightOk(s.threads[t]) && Step(s, t, m).threads[t] == Idle
    ensures var s' := Step(s, t, m);
      s'.acquired == s.acquired ==> s.count <= 0 && !WaitsForever(s.threads[t]) && s'.count >= s.count
  {
  }

  /** However many threads interfere: a wait that still wants permits ends without one only at a moment when none
      is free, and one that waits forever only with one. */
  lemma {:induction false} EmptyHandedMeansNone(s: State, moves: seq<(nat, Move)>, t: nat, m: Move)
    requires Init(s) && t < |Run(s, moves).threads| && Wants(Run(s, moves).threads[t]) > 0
    requires Step(Run(s, moves), t, m).threads[t] == Idle
    ensures var r := Run(s, moves); var r' := Step(r, t, m);
      r'.acquired == r.acquired ==> r.count <= 0 && !WaitsForever(r.threads[t]) && r'.count >= r.count
  {
    PermitsConserved(s, moves);
    hide Step, Run;
    EmptyHandedStep(Run(s, moves), t, m);
  }

  /** A wait that got its first permit on the slow way, or by a token, goes on to what else is there. */
  lemma RestIsTaken(s: State, t: nat, max: nat)
    requires t < |s.threads| && s.threads[t] == Rest(max) && max > 0
    ensures var k := Positive(Min(s.count, max - 1));
      Alone(s, t, if max == 1 then 0 else if s.count > 0 then 2 else 1)
      == At(s.(count := s.count - k, acquired := s.acquired + k), t, Idle)
  {
    if max > 1 {
      var s0 := At(s, t, Idle);
      WaitTakesWhatIsThere(s0, t, max - 1, NoWait);
      assert Step(s0, t, CallWait(max - 1, NoWait)) == s;
    } else {
      assert s.threads[t := Idle] == s.threads;
    }
  }

  /** Three ways to come there: a token for a sleeper, one for a wait that has timed out, and a count that has
      become positive just before the wait announces itself. */
  lemma FirstPermit(s: State, t: nat)
    requires t < |s.threads|
    ensures var pc := s.threads[t]; s.kernel > 0 && (pc.Sleep? || pc.LateTry?) ==>
      Step(s, t, Go) == At(s.(kernel := s.kernel - 1, acquired := s.acquired + 1), t, Rest(pc.max))
    ensures var pc := s.threads[t]; s.count > 0 && pc.FetchSub? ==>
      Step(s, t, Go) == At(s.(count := s.count - 1, acquired := s.acquired + 1), t, Rest(pc.max))
  {
  }

  /** And a spinning wait takes what it sees. */
  lemma SpinTakes(s: State, t: nat)
    requires t < |s.threads| && s.threads[t].SpinLoad? && s.count > 0 && s.threads[t].spin > 0
    ensures var k := Min(s.count, s.threads[t].max);
      k >= 0 && Alone(s, t, 2) == At(s.(count := s.count - k, acquired := s.acquired + k), t, Idle)
  {
    var SpinLoad(spin, m, p) := s.threads[t];
    var s1 := At(s, t, SpinCas(s.count, spin - 1, m, p));
    assert Step(s, t, Go) == s1;
    assert s1.threads[t := Idle] == s.threads[t := Idle];
    assert Alone(s, t, 2) == Alone(s1, t, 1) == Step(s1, t, Go);
  }

  // ----- A call that is left alone ends -----

  /** Asleep without a token; or timed out, when the count says that a token is coming. */
  predicate HasToWait(s: State, pc: PC) {
    s.kernel == 0 && (pc.Sleep? || ((pc.LateLoad? || pc.LateTry?) && s.count >= 0))
  }

  /** The steps that are left, at most, when nobody else moves. */
  function StepsLeft(s: State, pc: PC): nat {
    match pc
    case Idle => 0
    case TryLoad(_, p) => if p == NoWait then 2 else SPINS + 6
    case TryCas(seen, _, p) => if s.count == seen then 1 else if p == NoWait then 2 else SPINS + 6
    case SpinLoad(spin, _, _) => spin + 5
    case SpinCas(seen, spin, _, _) => if s.count == seen then 1 else spin + 6
    case FetchSub(_, _) => 4
    case Sleep(_, _) => 3
    case LateLoad(_) => if s.count < 0 then 2 else 4
    case LateTry(_) => 3
    case LateCas(below, _) => if s.count == below then 1 else 5
    case Add(n) => n + 2
    case Post(k) => k + 1
  }

  lemma ComesCloser(s: State, t: nat)
    requires t < |s.threads| && s.threads[t] != Idle && !HasToWait(s, s.threads[t])
    ensures var s' := Step(s, t, Go);
      |s'.threads| == |s.threads| && StepsLeft(s', s'.threads[t]) < StepsLeft(s, s.threads[t])
  {
  }

  lemma {:induction false} AloneEnds(s: State, t: nat) returns (k: nat)
    requires t < |s.threads|
    ensures k <= StepsLeft(s, s.threads[t])
    ensures var e := Alone(s, t, k); t < |e.threads| && (e.threads[t] == Idle || HasToWait(e, e.threads[t]))
    decreases StepsLeft(s, s.threads[t])
  {
    hide Step, StepsLeft, HasToWait;
    if s.threads[t] == Idle || HasToWait(s, s.threads[t]) {
      k := 0;
    } else {
      ComesCloser(s, t);
      k := AloneEnds(Step(s, t, Go), t);
      k := k + 1;
    }
  }

  /** A thread that has timed out and has to wait waits for a post that is on its way. */
  lemma {:induction false} LateWaitIsShort(s: State, moves: seq<(nat, Move)>, t: nat)
    requires Init(s) && t < |Run(s, moves).threads|
    requires var r := Run(s, moves); HasToWait(r, r.threads[t]) && !r.threads[t].Sleep?
    ensures Releases(Run(s, moves)) > 0
  {
    PermitsConserved(s, moves);
    SumUpdate(Run(s, moves).threads, WaiterWeight, t, Run(s, moves).threads[t]);
  }
}
