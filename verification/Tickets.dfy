/**
 How the consumers of one producer's queue share its elements: a consumer first takes tickets from an
 optimistic counter, then checks them against the tail, and only then either claims elements by moving the
 head or gives the tickets back through the overcommit counter. The loads are separate steps, so the values a
 consumer compares may be stale; single and bulk dequeues mix freely, for any number of consumers.

 Counters are true counts; the tests compare their 64-bit residues, as the program does.
 */
module Tickets {
  import opened Counting
  import opened Circular

  datatype PC =
    | Idle
    | LoadOver(max: nat, bulk: bool, tail: nat)              // load of dequeueOvercommit
    | LoadOpt(max: nat, bulk: bool, tail: nat, over: nat)    // load of dequeueOptimisticCount, first test
    | FetchOpt(over: nat, d: nat)                            // fetch_add on dequeueOptimisticCount
    | LoadTail(over: nat, d: nat, my: nat)                   // second load of tailIndex, second test
    | GiveBack(my: nat, keep: nat, n: nat)                   // fetch_add on dequeueOvercommit
    | Claim(my: nat, keep: nat)                              // fetch_add on headIndex
    | Reading(first: nat, n: nat)                            // moving out elements first .. first + n

  datatype State = State(tail: nat, head: nat, optimistic: nat, overcommit: nat, threads: seq<PC>)

  datatype Move = CallDequeue | CallDequeueBulk(max: nat) | Go | Enqueue(n: nat)

  predicate Less(x: int, y: int) {
    CircularLess(Wrap(x), Wrap(y))
  }

  function Min(a: nat, b: nat): nat {
    if a < b then a else b
  }

  /** The first test: do the counters, as loaded, leave anything before the tail? */
  predicate LooksNonEmpty(bulk: bool, tail: nat, over: nat, opt: nat) {
    if bulk then CircularLess(0, Wrap(tail - (opt - over))) else Less(opt - over, tail)
  }

  /** How many tickets to take. */
  function Desired(max: nat, bulk: bool, tail: nat, over: nat, opt: nat): nat {
    if bulk then Min(Wrap(tail - (opt - over)), max) else 1
  }

  /** The second test, on the tail as it is now and the place of the tickets taken. */
  predicate StillNonEmpty(over: nat, my: nat, tail: nat) {
    CircularLess(0, Wrap(tail - (my - over)))
  }

  /** How many of the d tickets the second test lets through. */
  function Granted(over: nat, d: nat, my: nat, tail: nat): nat {
    Min(d, Wrap(tail - (my - over)))
  }

  function At(s: State, t: nat, pc: PC): State
    requires t < |s.threads|
  {
    s.(threads := s.threads[t := pc])
  }

  /** One step of thread t; a producer's enqueue of n elements is one step of its own. */
  function Step(s: State, t: nat, m: Move): State {
    if m.Enqueue? then s.(tail := s.tail + m.n) else
    if t >= |s.threads| then s else
    match s.threads[t]
    case Idle =>
      (match m
       case CallDequeue => At(s, t, LoadOver(1, false, s.tail))
       case CallDequeueBulk(max) => At(s, t, LoadOver(max, true, s.tail))
       case _ => s)
    case LoadOver(max, bulk, tail) => At(s, t, LoadOpt(max, bulk, tail, s.overcommit))
    case LoadOpt(max, bulk, tail, over) =>
      At(s, t, if LooksNonEmpty(bulk, tail, over, s.optimistic)
               then FetchOpt(over, Desired(max, bulk, tail, over, s.optimistic)) else Idle)
    case FetchOpt(over, d) =>
      At(s.(optimistic := s.optimistic + d), t, LoadTail(over, d, s.optimistic))
    case LoadTail(over, d, my) =>
      if StillNonEmpty(over, my, s.tail) then
        var keep := Granted(over, d, my, s.tail);
        At(s, t, if keep < d then GiveBack(my, keep, d - keep) else Claim(my, keep))
      else At(s, t, GiveBack(my, 0, d))
    case GiveBack(my, keep, n) =>
      At(s.(overcommit := s.overcommit + n), t, if keep == 0 then Idle else Claim(my, keep))
    case Claim(my, keep) => At(s.(head := s.head + keep), t, Reading(s.head, keep))
    case Reading(first, n) => At(s, t, Idle)
  }

  function Run(s: State, moves: seq<(nat, Move)>): State
    decreases |moves|
  {
    if moves == [] then s else
    var last := |moves| - 1;
    Step(Run(s, moves[..last]), moves[last].0, moves[last].1)
  }

  predicate Init(s: State) {
    && s.tail == s.head == s.optimistic == s.overcommit == 0
    && forall t :: 0 <= t < |s.threads| ==> s.threads[t] == Idle
  }

  /** What the queue assumes of its positions: the two sides of a test are less than 2^63 apart. */
  predicate Close(s: State) {
    forall t :: 0 <= t < |s.threads| ==>
      match s.threads[t]
      case LoadOpt(_, _, tail, over) => -TWO63 < s.optimistic - over - tail < TWO63
      case LoadTail(over, _, my) => -TWO63 < my - over - s.tail < TWO63
      case _ => true
  }

  /** In every state of the run. */
  predicate CloseRun(s: State, moves: seq<(nat, Move)>)
    decreases |moves|
  {
    Close(Run(s, moves)) && (moves != [] ==> CloseRun(s, moves[..|moves| - 1]))
  }

  /** Between close positions the tests are the order of the true counts. */
  lemma TestsAreOrder(x: int, y: int)
    requires -TWO63 < x - y < TWO63
    ensures Less(x, y) <==> x < y
    ensures CircularLess(0, Wrap(y - x)) <==> x < y
    ensures x < y ==> Wrap(y - x) == y - x
  {
    CircularLessIsOrder(x, y);
    CircularLessIsOrder(0, y - x);
    WrapNear(0);
    WrapNear(y - x);
  }

  // ----- Every ticket ever taken -----

  /** The fate of a ticket: not checked yet, let through or refused by the second test, and then accounted
      for by the head or by the overcommit counter. */
  datatype Ticket = Pending(t: nat) | Won(t: nat) | Lost(t: nat) | Claimed | Returned

  function GoodWeight(k: Ticket): nat { if k.Won? || k.Claimed? then 1 else 0 }

  function FailedWeight(k: Ticket): nat { if k.Lost? || k.Returned? then 1 else 0 }

  function ClaimedWeight(k: Ticket): nat { if k.Claimed? then 1 else 0 }

  function ReturnedWeight(k: Ticket): nat { if k.Returned? then 1 else 0 }

  function Good(tk: seq<Ticket>): nat { Sum(tk, GoodWeight) }

  function Failed(tk: seq<Ticket>): nat { Sum(tk, FailedWeight) }

  /** The n tickets from lo on get a new fate. */
  function Mark(tk: seq<Ticket>, lo: nat, n: nat, fate: Ticket): seq<Ticket>
    requires lo + n <= |tk|
  {
    seq(|tk|, i requires 0 <= i < |tk| => if lo <= i < lo + n then fate else tk[i])
  }

  lemma {:induction false} SumMark(tk: seq<Ticket>, lo: nat, n: nat, was: Ticket, fate: Ticket, w: Ticket -> nat)
    requires lo + n <= |tk|
    requires forall i :: lo <= i < lo + n ==> tk[i] == was
    ensures w(was) == w(fate) ==> Sum(Mark(tk, lo, n, fate), w) == Sum(tk, w)
    ensures w(was) == 0 && w(fate) == 1 ==> Sum(Mark(tk, lo, n, fate), w) == Sum(tk, w) + n
  {
    if n == 0 {
      assert Mark(tk, lo, n, fate) == tk;
    } else {
      var part := Mark(tk, lo, n - 1, fate);
      SumMark(tk, lo, n - 1, was, fate, w);
      SumUpdate(part, w, lo + n - 1, fate);
      assert Mark(tk, lo, n, fate) == part[lo + n - 1 := fate];
    }
  }

  /** Sums split at a prefix. */
  lemma {:induction false} SumSplit(tk: seq<Ticket>, k: nat, w: Ticket -> nat)
    requires k <= |tk|
    ensures Sum(tk, w) == Sum(tk[..k], w) + Sum(tk[k..], w)
  {
    if k == 0 {
      assert tk[..0] == [] && tk[0..] == tk;
    } else {
      SumSplit(tk[1..], k - 1, w);
      assert tk[1..][..k - 1] == tk[..k][1..] && tk[1..][k - 1..] == tk[k..];
    }
  }

  lemma {:induction false} SumMonotone(a: seq<Ticket>, b: seq<Ticket>, w: Ticket -> nat)
    requires |a| == |b| && forall i :: 0 <= i < |a| ==> w(a[i]) <= w(b[i])
    ensures Sum(a, w) <= Sum(b, w)
  {
    if a != [] {
      forall i | 0 <= i < |a[1..]|
        ensures w(a[1..][i]) <= w(b[1..][i])
      {
        assert a[1..][i] == a[i + 1] && b[1..][i] == b[i + 1];
      }
      SumMonotone(a[1..], b[1..], w);
    }
  }

  // ----- The invariant -----

  ghost predicate CountsOk(s: State, tk: seq<Ticket>) {
    && |tk| == s.optimistic
    && Sum(tk, ClaimedWeight) == s.head
    && Sum(tk, ReturnedWeight) == s.overcommit
    && (forall i :: 0 <= i < |tk| ==> tk[i].Claimed? || tk[i].Returned? || tk[i].t < |s.threads|)
  }

  /** The tickets in the hands of thread t, and how stale its copies can be. */
  ghost predicate HandOk(s: State, tk: seq<Ticket>, t: nat)
    requires t < |s.threads|
  {
    var pc := s.threads[t];
    && (forall i :: 0 <= i < |tk| ==>
          && (tk[i] == Pending(t) <==> pc.LoadTail? && pc.my <= i < pc.my + pc.d)
          && (tk[i] == Won(t) <==> (pc.GiveBack? || pc.Claim?) && pc.my <= i < pc.my + pc.keep)
          && (tk[i] == Lost(t) <==> pc.GiveBack? && pc.my + pc.keep <= i < pc.my + pc.keep + pc.n))
    && (match pc
        case LoadOpt(_, _, _, over) => over <= Failed(tk)
        case FetchOpt(over, _) => over <= Failed(tk)
        case LoadTail(over, d, my) => my + d <= |tk| && over <= Failed(tk[..my])
        case GiveBack(my, keep, n) => my + keep + n <= |tk|
        case Claim(my, keep) => my + keep <= |tk|
        case Reading(first, n) => first + n <= s.head
        case _ => true)
  }

  /** A ticket that was let through has at most `tail` tickets up to it that were not refused. */
  ghost predicate BoundOk(s: State, tk: seq<Ticket>) {
    forall i :: 0 <= i < |tk| && GoodWeight(tk[i]) == 1 ==> i + 1 - Failed(tk[..i + 1]) <= s.tail
  }

  /** Elements being read are claimed once. */
  ghost predicate ReadsDisjoint(s: State) {
    forall t, u :: 0 <= t < |s.threads| && 0 <= u < |s.threads| && t != u
      ==> Disjoint(s.threads[t], s.threads[u])
  }

  predicate Disjoint(p: PC, q: PC) {
    p.Reading? && q.Reading? ==> p.first + p.n <= q.first || q.first + q.n <= p.first
  }

  ghost predicate Inv(s: State, tk: seq<Ticket>) {
    && CountsOk(s, tk)
    && (forall t :: 0 <= t < |s.threads| ==> HandOk(s, tk, t))
    && BoundOk(s, tk)
    && ReadsDisjoint(s)
  }

  /** How a step changes the fates. */
  function Track(s: State, tk: seq<Ticket>, t: nat, m: Move): seq<Ticket> {
    if m.Enqueue? || t >= |s.threads| then tk else
    match s.threads[t]
    case FetchOpt(over, d) => tk + seq(d, _ => Pending(t))
    case LoadTail(over, d, my) =>
      if my + d > |tk| then tk
      else if StillNonEmpty(over, my, s.tail) then
        var keep := Granted(over, d, my, s.tail);
        Mark(Mark(tk, my, keep, Won(t)), my + keep, d - keep, Lost(t))
      else Mark(tk, my, d, Lost(t))
    case GiveBack(my, keep, n) => if my + keep + n > |tk| then tk else Mark(tk, my + keep, n, Returned)
    case Claim(my, keep) => if my + keep > |tk| then tk else Mark(tk, my, keep, Claimed)
    case _ => tk
  }

  /** Fates only move forward: what was let through or refused stays so. */
  predicate Forward(tk: seq<Ticket>, tk': seq<Ticket>) {
    && |tk| <= |tk'|
    && forall i :: 0 <= i < |tk| ==>
         FailedWeight(tk[i]) <= FailedWeight(tk'[i]) && (FailedWeight(tk[i]) == 1 ==> GoodWeight(tk'[i]) == 0)
  }

  lemma PrefixForward(tk: seq<Ticket>, tk': seq<Ticket>, k: nat)
    requires Forward(tk, tk') && k <= |tk|
    ensures Failed(tk[..k]) <= Failed(tk'[..k])
    ensures Failed(tk) <= Failed(tk')
  {
    SumMonotone(tk[..k], tk'[..k], FailedWeight);
    SumMonotone(tk, tk'[..|tk|], FailedWeight);
    SumSplit(tk', |tk|, FailedWeight);
  }

  /** Only thread t's hand changes between tk and tk'. */
  predicate HandOfOnly(tk: seq<Ticket>, tk': seq<Ticket>, t: nat) {
    && Forward(tk, tk')
    && (forall i :: 0 <= i < |tk| && tk'[i] != tk[i] ==> !InOtherHand(tk[i], t) && !InOtherHand(tk'[i], t))
    && (forall i :: |tk| <= i < |tk'| ==> !InOtherHand(tk'[i], t))
  }

  predicate InOtherHand(k: Ticket, t: nat) {
    (k.Pending? || k.Won? || k.Lost?) && k.t != t
  }

  lemma OtherHand(s: State, tk: seq<Ticket>, s': State, tk': seq<Ticket>, t: nat, u: nat)
    requires t < |s.threads| == |s'.threads| && u < |s.threads| && u != t
    requires s'.threads == s.threads[t := s'.threads[t]] && s.head <= s'.head
    requires HandOk(s, tk, u) && HandOfOnly(tk, tk', t)
    ensures HandOk(s', tk', u)
  {
    var pc := s.threads[u];
    PrefixForward(tk, tk', if pc.LoadTail? then pc.my else 0);
  }

  lemma HandsKept(s: State, tk: seq<Ticket>, s': State, tk': seq<Ticket>, t: nat)
    requires t < |s.threads| == |s'.threads|
    requires s'.threads == s.threads[t := s'.threads[t]] && s.head <= s'.head
    requires HandOfOnly(tk, tk', t)
    requires forall u :: 0 <= u < |s.threads| ==> HandOk(s, tk, u)
    requires HandOk(s', tk', t)
    ensures forall u :: 0 <= u < |s'.threads| ==> HandOk(s', tk', u)
  {
    forall u | 0 <= u < |s'.threads|
      ensures HandOk(s', tk', u)
    {
      if u != t {
        OtherHand(s, tk, s', tk', t, u);
      }
    }
  }

  /** The bound holds on when no further ticket has been let through. */
  lemma BoundKept(s: State, tk: seq<Ticket>, s': State, tk': seq<Ticket>)
    requires BoundOk(s, tk) && Forward(tk, tk') && s.tail <= s'.tail
    requires forall i :: 0 <= i < |tk'| && GoodWeight(tk'[i]) == 1 ==> i < |tk| && GoodWeight(tk[i]) == 1
    ensures BoundOk(s', tk')
  {
    forall i | 0 <= i < |tk'| && GoodWeight(tk'[i]) == 1
      ensures i + 1 - Failed(tk'[..i + 1]) <= s'.tail
    {
      PrefixForward(tk, tk', i + 1);
    }
  }

  // ----- Each step keeps the invariant -----

  /** Calls, loads, the first test, the producer and the end of a read change no ticket and no counter of
      the consumers. */
  lemma LocalStep(s: State, tk: seq<Ticket>, t: nat, m: Move)
    requires Inv(s, tk)
    requires m.Enqueue? || t >= |s.threads|
      || !(s.threads[t].FetchOpt? || s.threads[t].LoadTail? || s.threads[t].GiveBack? || s.threads[t].Claim?)
    ensures Inv(Step(s, t, m), tk)
  {
    var s' := Step(s, t, m);
    assert !m.Enqueue? && t < |s.threads| ==> HandOk(s, tk, t);
    SumSplit(tk, 0, ReturnedWeight);
    SumMonotone(tk, tk, FailedWeight);
    ReturnedAreFailed(tk);
    forall u | 0 <= u < |s'.threads|
      ensures HandOk(s', tk, u)
    {
      assert HandOk(s, tk, u);
    }
  }

  lemma {:induction false} ReturnedAreFailed(tk: seq<Ticket>)
    ensures Sum(tk, ReturnedWeight) <= Failed(tk)
    ensures Failed(tk) <= |tk|
  {
    if tk != [] {
      ReturnedAreFailed(tk[1..]);
    }
  }

  lemma FetchOptCounts(s: State, tk: seq<Ticket>, t: nat)
    requires CountsOk(s, tk) && t < |s.threads| && s.threads[t].FetchOpt?
    ensures CountsOk(Step(s, t, Go), Track(s, tk, t, Go))
  {
    var tk' := Track(s, tk, t, Go);
    assert tk'[..|tk|] == tk;
    SumSplit(tk', |tk|, ClaimedWeight);
    SumSplit(tk', |tk|, ReturnedWeight);
    SumZero(tk'[|tk|..], ClaimedWeight);
    SumZero(tk'[|tk|..], ReturnedWeight);
  }

  lemma FetchOptHand(s: State, tk: seq<Ticket>, t: nat)
    requires t < |s.threads| && s.threads[t].FetchOpt? && HandOk(s, tk, t)
    requires |tk| == s.optimistic
    ensures HandOk(Step(s, t, Go), Track(s, tk, t, Go), t)
    ensures HandOfOnly(tk, Track(s, tk, t, Go), t)
  {
    assert Track(s, tk, t, Go)[..|tk|] == tk;
  }

  lemma FetchOptStep(s: State, tk: seq<Ticket>, t: nat)
    requires Inv(s, tk) && t < |s.threads| && s.threads[t].FetchOpt?
    ensures Inv(Step(s, t, Go), Track(s, tk, t, Go))
  {
    var s', tk' := Step(s, t, Go), Track(s, tk, t, Go);
    assert HandOk(s, tk, t);
    FetchOptCounts(s, tk, t);
    FetchOptHand(s, tk, t);
    HandsKept(s, tk, s', tk', t);
    BoundKept(s, tk, s', tk');
  }

  lemma GiveBackHand(s: State, tk: seq<Ticket>, t: nat)
    requires t < |s.threads| && s.threads[t].GiveBack? && HandOk(s, tk, t)
    ensures HandOk(Step(s, t, Go), Track(s, tk, t, Go), t)
    ensures HandOfOnly(tk, Track(s, tk, t, Go), t)
  {
  }

  lemma GiveBackCounts(s: State, tk: seq<Ticket>, t: nat)
    requires CountsOk(s, tk) && t < |s.threads| && s.threads[t].GiveBack? && HandOk(s, tk, t)
    ensures CountsOk(Step(s, t, Go), Track(s, tk, t, Go))
  {
    var GiveBack(my, keep, n) := s.threads[t];
    SumMark(tk, my + keep, n, Lost(t), Returned, ClaimedWeight);
    SumMark(tk, my + keep, n, Lost(t), Returned, ReturnedWeight);
  }

  lemma GiveBackStep(s: State, tk: seq<Ticket>, t: nat)
    requires Inv(s, tk) && t < |s.threads| && s.threads[t].GiveBack?
    ensures Inv(Step(s, t, Go), Track(s, tk, t, Go))
  {
    var s', tk' := Step(s, t, Go), Track(s, tk, t, Go);
    assert HandOk(s, tk, t);
    GiveBackHand(s, tk, t);
    GiveBackCounts(s, tk, t);
    HandsKept(s, tk, s', tk', t);
    BoundKept(s, tk, s', tk');
  }

  lemma ClaimHand(s: State, tk: seq<Ticket>, t: nat)
    requires t < |s.threads| && s.threads[t].Claim? && HandOk(s, tk, t)
    ensures HandOk(Step(s, t, Go), Track(s, tk, t, Go), t)
    ensures HandOfOnly(tk, Track(s, tk, t, Go), t)
  {
  }

  lemma ClaimStep(s: State, tk: seq<Ticket>, t: nat)
    requires Inv(s, tk) && t < |s.threads| && s.threads[t].Claim?
    ensures Inv(Step(s, t, Go), Track(s, tk, t, Go))
  {
    var s', tk' := Step(s, t, Go), Track(s, tk, t, Go);
    var Claim(my, keep) := s.threads[t];
    assert HandOk(s, tk, t);
    ClaimHand(s, tk, t);
    SumMark(tk, my, keep, Won(t), Claimed, ClaimedWeight);
    SumMark(tk, my, keep, Won(t), Claimed, ReturnedWeight);
    HandsKept(s, tk, s', tk', t);
    BoundKept(s, tk, s', tk');
    NewReadDisjoint(s, tk, t, s');
  }

  lemma NewReadDisjoint(s: State, tk: seq<Ticket>, t: nat, s': State)
    requires t < |s.threads| && ReadsDisjoint(s) && forall u :: 0 <= u < |s.threads| ==> HandOk(s, tk, u)
    requires |s'.threads| == |s.threads| && s'.threads == s.threads[t := s'.threads[t]]
    requires s'.threads[t].Reading? && s'.threads[t].first == s.head
    ensures ReadsDisjoint(s')
  {
    forall u | 0 <= u < |s.threads| && u != t
      ensures Disjoint(s'.threads[u], s'.threads[t])
      ensures Disjoint(s'.threads[t], s'.threads[u])
    {
      assert HandOk(s, tk, u);
    }
    forall u, v | 0 <= u < |s.threads| && 0 <= v < |s.threads| && u != v && u != t && v != t
      ensures Disjoint(s'.threads[u], s'.threads[v])
    {
      assert Disjoint(s.threads[u], s.threads[v]);
    }
  }

  /** The second test: what it lets through is within the tail, because at least `over` of the tickets
      before `my` had been refused. */
  lemma LoadTailStep(s: State, tk: seq<Ticket>, t: nat)
    requires Inv(s, tk) && t < |s.threads| && s.threads[t].LoadTail? && Close(s)
    ensures Inv(Step(s, t, Go), Track(s, tk, t, Go))
  {
    var s', tk' := Step(s, t, Go), Track(s, tk, t, Go);
    var LoadTail(over, d, my) := s.threads[t];
    assert HandOk(s, tk, t);
    var keep := LoadTailHand(s, tk, t);
    LoadTailCounts(s, tk, t, keep);
    HandsKept(s, tk, s', tk', t);
    LetThrough(s, tk, tk', my, keep, over);
  }

  /** What the second test does to the tickets of thread t. */
  lemma LoadTailHand(s: State, tk: seq<Ticket>, t: nat) returns (keep: nat)
    requires t < |s.threads| && s.threads[t].LoadTail? && Close(s) && HandOk(s, tk, t)
    ensures var LoadTail(over, d, my) := s.threads[t];
      && keep <= d && (keep > 0 ==> keep <= s.tail - (my - over))
      && my + d <= |tk|
      && Track(s, tk, t, Go) == Mark(Mark(tk, my, keep, Won(t)), my + keep, d - keep, Lost(t))
    ensures HandOk(Step(s, t, Go), Track(s, tk, t, Go), t)
    ensures HandOfOnly(tk, Track(s, tk, t, Go), t)
  {
    var LoadTail(over, d, my) := s.threads[t];
    TestsAreOrder(my - over, s.tail);
    if StillNonEmpty(over, my, s.tail) {
      keep := Granted(over, d, my, s.tail);
    } else {
      keep := 0;
      assert Mark(tk, my, 0, Won(t)) == tk;
    }
  }

  lemma LetThrough(s: State, tk: seq<Ticket>, tk': seq<Ticket>, my: nat, keep: nat, over: nat)
    requires BoundOk(s, tk) && Forward(tk, tk') && |tk| == |tk'| && my + keep <= |tk|
    requires over <= Failed(tk[..my]) && (keep > 0 ==> keep <= s.tail - (my - over))
    requires forall i :: 0 <= i < |tk| && !(my <= i < my + keep) && GoodWeight(tk'[i]) == 1 ==> GoodWeight(tk[i]) == 1
    ensures BoundOk(s, tk')
  {
    forall i | 0 <= i < |tk'| && GoodWeight(tk'[i]) == 1
      ensures i + 1 - Failed(tk'[..i + 1]) <= s.tail
    {
      if my <= i < my + keep {
        PrefixForward(tk, tk', my);
        assert tk'[..i + 1][..my] == tk'[..my];
        SumSplit(tk'[..i + 1], my, FailedWeight);
      } else {
        PrefixForward(tk, tk', i + 1);
      }
    }
  }

  lemma LoadTailCounts(s: State, tk: seq<Ticket>, t: nat, keep: nat)
    requires CountsOk(s, tk) && t < |s.threads| && s.threads[t].LoadTail? && HandOk(s, tk, t)
    requires var LoadTail(over, d, my) := s.threads[t];
      && keep <= d
      && Track(s, tk, t, Go) == Mark(Mark(tk, my, keep, Won(t)), my + keep, d - keep, Lost(t))
    ensures CountsOk(Step(s, t, Go), Track(s, tk, t, Go))
  {
    var LoadTail(over, d, my) := s.threads[t];
    MarkTwice(tk, my, keep, d - keep, t);
  }

  lemma MarkTwice(tk: seq<Ticket>, my: nat, keep: nat, n: nat, t: nat)
    requires my + keep + n <= |tk|
    requires forall i :: my <= i < my + keep + n ==> tk[i] == Pending(t)
    ensures var tk' := Mark(Mark(tk, my, keep, Won(t)), my + keep, n, Lost(t));
      && Sum(tk', ClaimedWeight) == Sum(tk, ClaimedWeight)
      && Sum(tk', ReturnedWeight) == Sum(tk, ReturnedWeight)
  {
    var mid := Mark(tk, my, keep, Won(t));
    SumMark(tk, my, keep, Pending(t), Won(t), ClaimedWeight);
    SumMark(tk, my, keep, Pending(t), Won(t), ReturnedWeight);
    SumMark(mid, my + keep, n, Pending(t), Lost(t), ClaimedWeight);
    SumMark(mid, my + keep, n, Pending(t), Lost(t), ReturnedWeight);
  }

  lemma StepKeepsInv(s: State, tk: seq<Ticket>, t: nat, m: Move)
    requires Inv(s, tk) && Close(s)
    ensures Inv(Step(s, t, m), Track(s, tk, t, m))
  {
    if m.Enqueue? || t >= |s.threads| {
      LocalStep(s, tk, t, m);
    } else {
      match s.threads[t]
      case FetchOpt(_, _) => FetchOptStep(s, tk, t);
      case LoadTail(_, _, _) => LoadTailStep(s, tk, t);
      case GiveBack(_, _, _) => GiveBackStep(s, tk, t);
      case Claim(_, _) => ClaimStep(s, tk, t);
      case _ => LocalStep(s, tk, t, m);
    }
  }

  lemma {:induction false} RunKeepsInv(s: State, moves: seq<(nat, Move)>) returns (tk: seq<Ticket>)
    requires Init(s) && CloseRun(s, moves)
    ensures Inv(Run(s, moves), tk)
    decreases |moves|
  {
    if moves == [] {
      tk := [];
    } else {
      var last := |moves| - 1;
      var tk0 := RunKeepsInv(s, moves[..last]);
      StepKeepsInv(Run(s, moves[..last]), tk0, moves[last].0, moves[last].1);
      tk := Track(Run(s, moves[..last]), tk0, moves[last].0, moves[last].1);
    }
  }

  // ----- What every run guarantees -----

  lemma {:induction false} GoodAndFailed(tk: seq<Ticket>)
    ensures Good(tk) + Failed(tk) <= |tk|
    ensures Sum(tk, ClaimedWeight) <= Good(tk)
  {
    if tk != [] {
      GoodAndFailed(tk[1..]);
    }
  }

  /** The tickets let through so far never outnumber the elements enqueued so far: look at the last one. */
  lemma {:induction false} LetThroughWithinTail(s: State, tk: seq<Ticket>, k: nat)
    requires BoundOk(s, tk) && k <= |tk|
    ensures Good(tk[..k]) <= s.tail
    decreases k
  {
    if k > 0 {
      assert tk[..k][..k - 1] == tk[..k - 1] && tk[..k][k - 1..] == [tk[k - 1]];
      SumSplit(tk[..k], k - 1, GoodWeight);
      if GoodWeight(tk[k - 1]) == 1 {
        GoodAndFailed(tk[..k]);
        assert k - Failed(tk[..k]) <= s.tail;
      } else {
        LetThroughWithinTail(s, tk, k - 1);
      }
    }
  }

  lemma HeadWithinTail(s: State, tk: seq<Ticket>)
    requires CountsOk(s, tk) && BoundOk(s, tk)
    ensures s.head <= s.tail
  {
    LetThroughWithinTail(s, tk, |tk|);
    assert tk[..|tk|] == tk;
    GoodAndFailed(tk);
  }

  lemma ClaimWithinTail(s: State, tk: seq<Ticket>, my: nat, keep: nat, t: nat)
    requires CountsOk(s, tk) && BoundOk(s, tk)
    requires my + keep <= |tk| && forall i :: my <= i < my + keep ==> tk[i] == Won(t)
    ensures s.head + keep <= s.tail
  {
    LetThroughWithinTail(s, tk, |tk|);
    assert tk[..|tk|] == tk;
    SumMark(tk, my, keep, Won(t), Claimed, ClaimedWeight);
    SumMark(tk, my, keep, Won(t), Claimed, GoodWeight);
    GoodAndFailed(Mark(tk, my, keep, Claimed));
  }

  /** Once a consumer is past the second test there really are elements for it: the indices it is about to
      claim are all before the tail, whatever the other consumers claim or give back meanwhile. */
  lemma ClaimsNeverPassTail(s: State, moves: seq<(nat, Move)>, t: nat)
    requires Init(s) && CloseRun(s, moves)
    requires t < |Run(s, moves).threads| && Run(s, moves).threads[t].Claim?
    ensures var r := Run(s, moves); r.head + r.threads[t].keep <= r.tail
  {
    var tk := RunKeepsInv(s, moves);
    var r := Run(s, moves);
    assert HandOk(r, tk, t);
    ClaimWithinTail(r, tk, r.threads[t].my, r.threads[t].keep, t);
  }

  /** Elements being moved out were enqueued, and no two consumers move out the same element. */
  lemma ReadsAreSafe(s: State, moves: seq<(nat, Move)>, t: nat, u: nat)
    requires Init(s) && CloseRun(s, moves)
    requires var r := Run(s, moves);
      t < |r.threads| && u < |r.threads| && t != u && r.threads[t].Reading? && r.threads[u].Reading?
    ensures var r := Run(s, moves); var p, q := r.threads[t], r.threads[u];
      && p.first + p.n <= r.head <= r.tail
      && (p.first + p.n <= q.first || q.first + q.n <= p.first)
  {
    var tk := RunKeepsInv(s, moves);
    var r := Run(s, moves);
    assert HandOk(r, tk, t) && Disjoint(r.threads[t], r.threads[u]);
    HeadWithinTail(r, tk);
  }

  /** A stale overcommit count is never above the place of the tickets: true of the counts. */
  lemma OvercommitAtMostMyCount(s: State, moves: seq<(nat, Move)>, t: nat)
    requires Init(s) && CloseRun(s, moves)
    requires var r := Run(s, moves); t < |r.threads| && r.threads[t].LoadTail?
    ensures var r := Run(s, moves); r.threads[t].over <= r.threads[t].my
  {
    var tk := RunKeepsInv(s, moves);
    var r := Run(s, moves);
    assert HandOk(r, tk, t);
    ReturnedAreFailed(tk[..r.threads[t].my]);
  }

  /** The assertion of the program, which compares what the two counters hold. */
  predicate AssertionHolds(over: nat, my: nat) {
    Wrap(over) <= Wrap(my)
  }

  /** It holds in every reachable state in which the tickets are among the first 2^64; beyond that exactly when
      the difference of the counters does not carry into a new round of 2^64. */
  lemma AssertionHoldsExactly(s: State, moves: seq<(nat, Move)>, t: nat)
    requires Init(s) && CloseRun(s, moves)
    requires var r := Run(s, moves); t < |r.threads| && r.threads[t].LoadTail?
    ensures var r := Run(s, moves); var over, my := r.threads[t].over, r.threads[t].my;
      && (my < TWO64 ==> AssertionHolds(over, my))
      && (my - over < TWO64 ==> (AssertionHolds(over, my) <==> over / TWO64 == my / TWO64))
      && (AssertionHolds(over, my) <==> my / TWO64 == over / TWO64 + (my - over) / TWO64)
  {
    hide Step, CloseRun, Init, AssertionHolds;
    OvercommitAtMostMyCount(s, moves, t);
    AssertionExact(Run(s, moves).threads[t].over, Run(s, moves).threads[t].my);
  }

  lemma AssertionExact(over: nat, my: nat)
    requires over <= my
    ensures my < TWO64 ==> AssertionHolds(over, my)
    ensures my - over < TWO64 ==> (AssertionHolds(over, my) <==> over / TWO64 == my / TWO64)
    ensures AssertionHolds(over, my) <==> my / TWO64 == over / TWO64 + (my - over) / TWO64
  {
    hide Wrap;
    NoCarry(over, my - over);
  }

  lemma NoCarry(x: nat, d: nat)
    ensures Wrap(x) <= Wrap(x + d) <==> (x + d) / TWO64 == x / TWO64 + d / TWO64
    ensures d < TWO64 ==> d / TWO64 == 0
    ensures x + d < TWO64 ==> x / TWO64 == 0 && (x + d) / TWO64 == 0
  {
    hide Wrap;
    WrapQuotient(x);
    WrapQuotient(d);
    WrapQuotient(x + d);
    var q, p, r := x / TWO64, d / TWO64, (x + d) / TWO64;
    assert Wrap(x) + Wrap(d) == (r - q - p) * TWO64 + Wrap(x + d);
  }

  lemma WrapQuotient(x: nat)
    ensures x == x / TWO64 * TWO64 + Wrap(x) && Wrap(x) < TWO64
  {
  }

  /** What the first test lets a consumer ask for: nothing exactly if the tail it has loaded is not past the place
      where the tickets stand, otherwise what it wants or what lies between them. */
  lemma LooksUpToTail(s: State, t: nat)
    requires t < |s.threads| && s.threads[t].LoadOpt? && Close(s)
    ensures var LoadOpt(max, bulk, tail, over) := s.threads[t]; var place := s.optimistic - over;
      Step(s, t, Go).threads[t] ==
        if tail <= place then Idle else FetchOpt(over, if !bulk then 1 else if tail - place < max then tail - place else max)
  {
    var LoadOpt(max, bulk, tail, over) := s.threads[t];
    TestsAreOrder(s.optimistic - over, tail);
    hide Wrap, CircularLess;
  }

  /** What the second test lets through of d tickets, whoever else is inside: those before the tail. Only what lies
      past it is refused and given back. */
  lemma GrantsUpToTail(s: State, t: nat)
    requires t < |s.threads| && s.threads[t].LoadTail? && Close(s)
    ensures var LoadTail(over, d, my) := s.threads[t]; var place := my - over;
      Step(s, t, Go).threads[t] ==
        if s.tail <= place then GiveBack(my, 0, d)
        else if d <= s.tail - place then Claim(my, d)
        else GiveBack(my, s.tail - place, d - (s.tail - place))
  {
    var LoadTail(over, d, my) := s.threads[t];
    TestsAreOrder(my - over, s.tail);
    hide Wrap, CircularLess;
  }

  /** The accesses that are left of a dequeue, at most; for a thread that has not begun, one more than all. */
  function StepsLeft(pc: PC): nat {
    match pc
    case Idle => 8
    case LoadOver(_, _, _) => 7
    case LoadOpt(_, _, _, _) => 6
    case FetchOpt(_, _) => 5
    case LoadTail(_, _, _) => 4
    case GiveBack(_, _, _) => 3
    case Claim(_, _) => 2
    case Reading(_, _) => 1
  }

  /** A dequeue is wait-free: each of its own steps brings it nearer to its end, whatever others have done. */
  lemma DequeueIsWaitFree(s: State, t: nat)
    requires t < |s.threads| && s.threads[t] != Idle
    ensures |Step(s, t, Go).threads| == |s.threads|
    ensures var pc' := Step(s, t, Go).threads[t]; pc' == Idle || StepsLeft(pc') < StepsLeft(s.threads[t])
  {
    hide Wrap, CircularLess;
  }

  /** The tickets a thread has taken that neither the head nor the overcommit counter shows yet. */
  function InFlight(pc: PC): nat {
    match pc
    case LoadTail(_, d, _) => d
    case GiveBack(_, keep, n) => keep + n
    case Claim(_, keep) => keep
    case _ => 0
  }

  /** What one step does to the counters is what it does to the tickets in flight of its thread. */
  lemma StepBalances(s: State, t: nat, m: Move)
    requires t < |s.threads| && !m.Enqueue?
    ensures var s' := Step(s, t, m);
      && s'.threads == s.threads[t := s'.threads[t]]
      && s'.optimistic + InFlight(s.threads[t]) + s.head + s.overcommit
           == s.optimistic + InFlight(s'.threads[t]) + s'.head + s'.overcommit
  {
    hide Wrap, CircularLess;
  }

  lemma StepConserves(s: State, t: nat, m: Move)
    requires s.optimistic == s.head + s.overcommit + Sum(s.threads, InFlight)
    ensures var s' := Step(s, t, m); s'.optimistic == s'.head + s'.overcommit + Sum(s'.threads, InFlight)
  {
    if t < |s.threads| && !m.Enqueue? {
      StepBalances(s, t, m);
      hide Step, InFlight;
      SumUpdate(s.threads, InFlight, t, Step(s, t, m).threads[t]);
    }
  }

  /** Conservation of tickets, in every reachable state and without any assumption on distances. */
  lemma {:induction false} TicketsConserved(s: State, moves: seq<(nat, Move)>)
    requires Init(s)
    ensures var r := Run(s, moves); r.optimistic == r.head + r.overcommit + Sum(r.threads, InFlight)
    decreases |moves|
  {
    if moves == [] {
      SumZero(s.threads, InFlight);
    } else {
      var last := |moves| - 1;
      TicketsConserved(s, moves[..last]);
      StepConserves(Run(s, moves[..last]), moves[last].0, moves[last].1);
    }
  }

  /** Thread t takes k steps on its own. */
  function Alone(s: State, t: nat, k: nat): State
    decreases k
  {
    if k == 0 then s else Alone(Step(s, t, Go), t, k - 1)
  }

  /** What a dequeue gets when it has the queue for itself. */
  function Taken(s: State, t: nat, call: Move): State
    requires s.head <= s.tail && t < |s.threads|
  {
    var n := if call.CallDequeueBulk? then Min(call.max, s.tail - s.head) else 1;
    if s.head < s.tail
    then At(s.(head := s.head + n, optimistic := s.optimistic + n), t, Reading(s.head, n))
    else s
  }

  /** At rest a dequeue, with its five atomic accesses, gets what is there, as much as it asks for, and
      nothing exactly when there is nothing: refused tickets of the past have left no trace. */
  lemma AtRestDequeueIsExact(s: State, moves: seq<(nat, Move)>, t: nat, call: Move)
    requires Init(s) && CloseRun(s, moves) && (call.CallDequeue? || call.CallDequeueBulk?)
    requires t < |Run(s, moves).threads|
    requires forall u :: 0 <= u < |Run(s, moves).threads| ==> Run(s, moves).threads[u] == Idle
    requires Run(s, moves).tail - Run(s, moves).head < TWO63
    ensures Run(s, moves).head <= Run(s, moves).tail
    ensures Alone(Step(Run(s, moves), t, call), t, 5) == Taken(Run(s, moves), t, call)
  {
    var r := Run(s, moves);
    var tk := RunKeepsInv(s, moves);
    HeadWithinTail(r, tk);
    TicketsConserved(s, moves);
    SumZero(r.threads, InFlight);
    TestsAreOrder(r.head, r.tail);
    AloneAtRest(r, t, call);
  }

  lemma AloneAtRest(r: State, t: nat, call: Move)
    requires t < |r.threads| && r.threads[t] == Idle && (call.CallDequeue? || call.CallDequeueBulk?)
    requires r.optimistic == r.head + r.overcommit && r.head <= r.tail
    requires Less(r.head, r.tail) <==> r.head < r.tail
    requires CircularLess(0, Wrap(r.tail - r.head)) <==> r.head < r.tail
    requires r.head < r.tail ==> Wrap(r.tail - r.head) == r.tail - r.head
    ensures Alone(Step(r, t, call), t, 5) == Taken(r, t, call)
  {
    var bulk := call.CallDequeueBulk?;
    var max := if bulk then call.max else 1;
    var s2 := At(r, t, LoadOpt(max, bulk, r.tail, r.overcommit));
    assert Step(Step(r, t, call), t, Go) == s2;
    if r.head < r.tail {
      var d := Desired(max, bulk, r.tail, r.overcommit, r.optimistic);
      var s3 := At(r, t, FetchOpt(r.overcommit, d));
      assert Step(s2, t, Go) == s3;
      var s5 := At(r.(optimistic := r.optimistic + d), t, Claim(r.optimistic, d));
      assert Step(Step(s3, t, Go), t, Go) == s5;
      assert Alone(Step(r, t, call), t, 5) == Alone(s2, t, 4) == Alone(s3, t, 3);
      assert Alone(s3, t, 3) == Alone(s5, t, 1) == Step(s5, t, Go);
    } else {
      assert Step(s2, t, Go) == r == Step(r, t, Go);
      assert Alone(Step(r, t, call), t, 5) == Alone(s2, t, 4) == Alone(r, t, 3);
      assert Alone(r, t, 3) == Alone(r, t, 2) == Alone(r, t, 1) == r;
    }
  }

  // ----- A run in which the assertion fails -----

  lemma RunMore(s: State, moves: seq<(nat, Move)>, t: nat, m: Move)
    requires CloseRun(s, moves) && Close(Step(Run(s, moves), t, m))
    ensures Run(s, moves + [(t, m)]) == Step(Run(s, moves), t, m) && CloseRun(s, moves + [(t, m)])
  {
    assert (moves + [(t, m)])[..|moves|] == moves;
  }

  /** Two consumers at rest, with one ticket given back: n more elements come and the first consumer takes them. */
  function AfterBatch(k: nat): State {
    State(1 + k, 1 + k, 2 + k, 1, [Idle, Idle])
  }

  lemma BatchTests(k: nat, n: nat)
    requires 0 < n < TWO63
    ensures LooksNonEmpty(true, 1 + k + n, 1, 2 + k) && Desired(n, true, 1 + k + n, 1, 2 + k) == n
    ensures StillNonEmpty(1, 2 + k, 1 + k + n) && Granted(1, n, 2 + k, 1 + k + n) == n
  {
    TestsAreOrder(1 + k, 1 + k + n);
  }

  lemma BatchTickets(s: State, moves: seq<(nat, Move)>, k: nat, n: nat) returns (more: seq<(nat, Move)>)
    requires CloseRun(s, moves) && 0 < n < TWO63
    requires Run(s, moves) == State(1 + k + n, 1 + k, 2 + k, 1, [LoadOver(n, true, 1 + k + n), Idle])
    ensures CloseRun(s, more)
    ensures Run(s, more) == State(1 + k + n, 1 + k, 2 + k + n, 1, [Claim(2 + k, n), Idle])
  {
    BatchTests(k, n);
    hide Wrap, CircularLess, LooksNonEmpty, StillNonEmpty, Desired, Granted;
    var t := 1 + k + n;
    more := Go2(s, moves, State(t, 1 + k, 2 + k, 1, [LoadOpt(n, true, t, 1), Idle]),
                State(t, 1 + k, 2 + k, 1, [FetchOpt(1, n), Idle]));
    more := Go2(s, more, State(t, 1 + k, 2 + k + n, 1, [LoadTail(1, n, 2 + k), Idle]),
                State(t, 1 + k, 2 + k + n, 1, [Claim(2 + k, n), Idle]));
  }

  lemma BatchCalls(s: State, moves: seq<(nat, Move)>, k: nat, n: nat) returns (more: seq<(nat, Move)>)
    requires CloseRun(s, moves) && Run(s, moves) == AfterBatch(k)
    ensures CloseRun(s, more)
    ensures Run(s, more) == State(1 + k + n, 1 + k, 2 + k, 1, [LoadOver(n, true, 1 + k + n), Idle])
  {
    hide Wrap, CircularLess, CloseRun;
    RunMore(s, moves, 0, Enqueue(n));
    more := moves + [(0, Enqueue(n))];
    RunMore(s, more, 0, CallDequeueBulk(n));
    more := more + [(0, CallDequeueBulk(n))];
  }

  lemma Batch(s: State, moves: seq<(nat, Move)>, k: nat, n: nat) returns (more: seq<(nat, Move)>)
    requires CloseRun(s, moves) && Run(s, moves) == AfterBatch(k) && 0 < n < TWO63
    ensures CloseRun(s, more) && Run(s, more) == AfterBatch(k + n)
  {
    hide Wrap, CircularLess, CloseRun;
    more := BatchCalls(s, moves, k, n);
    more := BatchTickets(s, more, k, n);
    more := Go2(s, more, State(1 + k + n, 1 + k + n, 2 + k + n, 1, [Reading(1 + k, n), Idle]), AfterBatch(k + n));
  }

  /** Two steps of the first consumer. */
  lemma Go2(s: State, moves: seq<(nat, Move)>, r1: State, r2: State) returns (more: seq<(nat, Move)>)
    requires CloseRun(s, moves) && Step(Run(s, moves), 0, Go) == r1 && Step(r1, 0, Go) == r2 && Close(r1) && Close(r2)
    ensures CloseRun(s, more) && Run(s, more) == r2
  {
    RunMore(s, moves, 0, Go);
    more := moves + [(0, Go)];
    RunMore(s, more, 0, Go);
    more := more + [(0, Go)];
  }

  /** Two consumers both see one element and take a ticket each. */
  lemma TwoLook(s: State) returns (moves: seq<(nat, Move)>)
    requires s == State(0, 0, 0, 0, [Idle, Idle])
    ensures CloseRun(s, moves) && Run(s, moves) == State(1, 0, 0, 0, [LoadOver(1, false, 1), LoadOver(1, false, 1)])
  {
    hide Wrap, CircularLess;
    moves := [];
    assert CloseRun(s, moves);
    hide CloseRun;
    RunMore(s, moves, 0, Enqueue(1));
    moves := moves + [(0, Enqueue(1))];
    assert Run(s, moves) == State(1, 0, 0, 0, [Idle, Idle]);
    RunMore(s, moves, 0, CallDequeue);
    moves := moves + [(0, CallDequeue)];
    assert Run(s, moves) == State(1, 0, 0, 0, [LoadOver(1, false, 1), Idle]);
    RunMore(s, moves, 1, CallDequeue);
    moves := moves + [(1, CallDequeue)];
  }

  lemma TwoTake(s: State, moves: seq<(nat, Move)>) returns (more: seq<(nat, Move)>)
    requires CloseRun(s, moves)
    requires Run(s, moves) == State(1, 0, 0, 0, [LoadOver(1, false, 1), LoadOver(1, false, 1)])
    ensures CloseRun(s, more) && Run(s, more) == State(1, 0, 0, 0, [FetchOpt(0, 1), FetchOpt(0, 1)])
  {
    TestsAreOrder(0, 1);
    more := Go2(s, moves, State(1, 0, 0, 0, [LoadOpt(1, false, 1, 0), LoadOver(1, false, 1)]),
                State(1, 0, 0, 0, [FetchOpt(0, 1), LoadOver(1, false, 1)]));
    RunMore(s, more, 1, Go);
    more := more + [(1, Go)];
    RunMore(s, more, 1, Go);
    more := more + [(1, Go)];
  }

  lemma FirstGets(s: State, moves: seq<(nat, Move)>) returns (more: seq<(nat, Move)>)
    requires CloseRun(s, moves) && Run(s, moves) == State(1, 0, 0, 0, [FetchOpt(0, 1), FetchOpt(0, 1)])
    ensures CloseRun(s, more) && Run(s, more) == State(1, 1, 1, 0, [Idle, FetchOpt(0, 1)])
  {
    TestsAreOrder(0, 1);
    more := Go2(s, moves, State(1, 0, 1, 0, [LoadTail(0, 1, 0), FetchOpt(0, 1)]),
                State(1, 0, 1, 0, [Claim(0, 1), FetchOpt(0, 1)]));
    more := Go2(s, more, State(1, 1, 1, 0, [Reading(0, 1), FetchOpt(0, 1)]), State(1, 1, 1, 0, [Idle, FetchOpt(0, 1)]));
  }

  /** Of two consumers that try for one element, the one that is refused gives its ticket back. */
  lemma OneRefused(s: State) returns (moves: seq<(nat, Move)>)
    requires s == State(0, 0, 0, 0, [Idle, Idle])
    ensures CloseRun(s, moves) && Run(s, moves) == AfterBatch(0)
  {
    moves := TwoLook(s);
    moves := TwoTake(s, moves);
    moves := FirstGets(s, moves);
    TestsAreOrder(1, 1);
    RunMore(s, moves, 1, Go);
    moves := moves + [(1, Go)];
    assert Run(s, moves) == State(1, 1, 2, 0, [Idle, LoadTail(0, 1, 1)]);
    RunMore(s, moves, 1, Go);
    moves := moves + [(1, Go)];
    RunMore(s, moves, 1, Go);
    moves := moves + [(1, Go)];
  }

  lemma LastTicket(s: State, moves: seq<(nat, Move)>, k: nat) returns (more: seq<(nat, Move)>)
    requires CloseRun(s, moves) && Run(s, moves) == AfterBatch(k)
    ensures CloseRun(s, more) && Run(s, more) == State(2 + k, 1 + k, 3 + k, 1, [LoadTail(1, 1, 2 + k), Idle])
  {
    TestsAreOrder(1 + k, 2 + k);
    hide Wrap, CircularLess, CloseRun;
    RunMore(s, moves, 0, Enqueue(1));
    more := moves + [(0, Enqueue(1))];
    RunMore(s, more, 0, CallDequeue);
    more := more + [(0, CallDequeue)];
    assert Run(s, more) == State(2 + k, 1 + k, 2 + k, 1, [LoadOver(1, false, 2 + k), Idle]);
    more := Go2(s, more, State(2 + k, 1 + k, 2 + k, 1, [LoadOpt(1, false, 2 + k, 1), Idle]),
                State(2 + k, 1 + k, 2 + k, 1, [FetchOpt(1, 1), Idle]));
    RunMore(s, more, 0, Go);
    more := more + [(0, Go)];
  }

  /** After 2^64 tickets, one of which was given back, the next consumer finds the assertion false: it holds 1
      as the overcommit count and 0 as its own. All positions are close throughout. */
  lemma AssertionFails() returns (s: State, moves: seq<(nat, Move)>)
    ensures Init(s) && CloseRun(s, moves)
    ensures var r := Run(s, moves);
      |r.threads| == 2 && r.threads[0] == LoadTail(1, 1, TWO64) && !AssertionHolds(1, TWO64)
  {
    hide Step, CloseRun;
    var q := TWO63 / 2;
    s := State(0, 0, 0, 0, [Idle, Idle]);
    moves := OneRefused(s);
    moves := Batch(s, moves, 0, q);
    moves := Batch(s, moves, q, q);
    moves := Batch(s, moves, 2 * q, q);
    moves := Batch(s, moves, 3 * q, q - 2);
    moves := LastTicket(s, moves, TWO64 - 2);
    WrapNear(1);
  }
}
