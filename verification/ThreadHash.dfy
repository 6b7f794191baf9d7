/**
 The hash from threads to their implicit producers: a chain of open-addressing tables, each at least twice the
 one before. A thread looks itself up from the newest table back, copies its entry forward when it was found
 in an older one, and otherwise registers; registering may first grow the chain under a try-lock. Tables only
 gain keys, so the question is whether a probe always ends and always finds the thread's own entry.

 Thread t has the id t and the arbitrary hash `hash[t]`. A producer is a positive number; 0 stands for null.
 */
module ThreadHash {
  import opened Circular

  datatype Key = Free | Of(t: nat)

  datatype Table = Table(keys: seq<Key>, values: seq<nat>)

  datatype PC =
    | Idle
    | LoadMain                                             // load of the newest table
    | Find(h: nat, k: nat, main: nat)                      // k-th probe of table h
    | Put(v: nat, k: nat, main: nat, isNew: bool)          // k-th probe for a free slot of table main
    | PutCas(v: nat, k: nat, main: nat, isNew: bool)       // CAS of the key from free to the thread's id
    | PutStore(v: nat, k: nat, main: nat, isNew: bool)     // store of the value
    | Fetch(main: nat)                                     // fetch_add on the count of producers
    | Check(main: nat, nc: nat)                            // half full? then try the resize lock
    | LockedLoad(nc: nat)                                  // lock held: load of the newest table
    | Allocate(main: nat, nc: nat)                         // allocate, fill and publish a bigger table
    | AllocFailed                                          // fetch_sub on the count
    | FailUnlock                                           // lock released, null returned
    | Unlock(main: nat, nc: nat)                           // lock released
    | Decide(main: nat, nc: nat)                           // below three quarters?
    | Reload(nc: nat)                                      // somebody else resizes: load again
    | Create(main: nat, nc: nat)                           // make a producer
    | CreateFailed                                         // fetch_sub on the count, null returned
    | Done(v: nat)                                         // the call returns v

  /** `mine` is what each thread has been given when it registered, 0 before that. */
  datatype State = State(
    tables: seq<Table>, count: nat, locked: bool, produced: nat,
    hash: seq<nat>, mine: seq<nat>, pcs: seq<PC>)

  /** Fail: the allocation at this step returns null. */
  datatype Move = Call | Go | Fail

  function Capacity(s: State, h: nat): nat
    requires h < |s.tables|
  {
    |s.tables[h].keys|
  }

  /** The k-th slot probed for a hash value. */
  function SlotAt(keys: seq<Key>, x: nat, k: nat): (i: nat)
    requires |keys| > 0
    ensures i < |keys|
  {
    (x + k) % |keys|
  }

  /** Half and a quarter of the capacity, each rounded down. */
  function Limit(capacity: nat): nat {
    capacity / 2 + capacity / 4
  }

  function Grown(capacity: nat, nc: nat): (c: nat)
    requires capacity > 0
    ensures c >= capacity && nc < c / 2
    decreases if nc >= capacity / 2 then 2 * nc + 2 - capacity else 0
  {
    if nc >= capacity / 2 then Grown(2 * capacity, nc) else capacity
  }

  function FreshTable(capacity: nat): Table {
    Table(seq(capacity, _ => Free), seq(capacity, _ => 0))
  }

  function At(s: State, t: nat, pc: PC): State
    requires t < |s.pcs|
  {
    s.(pcs := s.pcs[t := pc])
  }

  predicate Shape(s: State) {
    && |s.hash| == |s.mine| == |s.pcs|
    && |s.tables| > 0
    && forall h :: 0 <= h < |s.tables| ==> |s.tables[h].keys| == |s.tables[h].values| > 0
  }

  /** The tables a thread refers to exist. */
  predicate InRange(s: State, pc: PC) {
    match pc
    case Find(h, k, main) => h <= main < |s.tables|
    case Put(_, _, main, _) => main < |s.tables|
    case PutCas(_, _, main, _) => main < |s.tables|
    case PutStore(_, _, main, _) => main < |s.tables|
    case Fetch(main) => main < |s.tables|
    case Check(main, _) => main < |s.tables|
    case Allocate(main, _) => main < |s.tables|
    case Unlock(main, _) => main < |s.tables|
    case Decide(main, _) => main < |s.tables|
    case Create(main, _) => main < |s.tables|
    case _ => true
  }

  function Newest(s: State): nat
    requires |s.tables| > 0
  {
    |s.tables| - 1
  }

  /** The steps that leave the tables alone. */
  function Local(s: State, t: nat, m: Move): (r: State)
    requires Shape(s) && t < |s.pcs| && InRange(s, s.pcs[t])
    ensures r.tables == s.tables && r.mine == s.mine && r.hash == s.hash
    ensures |r.pcs| == |s.pcs| && r.pcs == s.pcs[t := r.pcs[t]]
  {
    match s.pcs[t]
    case Idle => if m == Call then At(s, t, LoadMain) else s
    case Done(v) => At(s, t, Idle)
    case LoadMain => At(s, t, Find(Newest(s), 0, Newest(s)))
    case Find(h, k, main) => At(s, t, Found(s, t, h, k, main))
    case Put(v, k, main, isNew) =>
      At(s, t, if s.tables[main].keys[SlotAt(s.tables[main].keys, s.hash[t], k)].Free? then PutCas(v, k, main, isNew)
               else Put(v, k + 1, main, isNew))
    case PutCas(v, k, main, isNew) => At(s, t, Put(v, k + 1, main, isNew))
    case Fetch(main) => At(s.(count := s.count + 1), t, Check(main, s.count + 1))
    case Check(main, nc) =>
      if nc >= Capacity(s, main) / 2 && !s.locked then At(s.(locked := true), t, LockedLoad(nc))
      else At(s, t, Decide(main, nc))
    case LockedLoad(nc) =>
      At(s, t, if nc >= Capacity(s, Newest(s)) / 2 then Allocate(Newest(s), nc) else Unlock(Newest(s), nc))
    case Allocate(main, nc) => At(s, t, AllocFailed)
    case AllocFailed => At(s.(count := if s.count > 0 then s.count - 1 else 0), t, FailUnlock)
    case FailUnlock => At(s.(locked := false), t, Done(0))
    case Unlock(main, nc) => At(s.(locked := false), t, Decide(main, nc))
    case Decide(main, nc) => At(s, t, if nc < Limit(Capacity(s, main)) then Create(main, nc) else Reload(nc))
    case Reload(nc) => At(s, t, Check(Newest(s), nc))
    case Create(main, nc) =>
      if m == Fail then At(s, t, CreateFailed)
      else At(s.(produced := s.produced + 1), t, Put(s.produced + 1, 0, main, true))
    case CreateFailed => At(s.(count := if s.count > 0 then s.count - 1 else 0), t, Done(0))
    case PutStore(_, _, _, _) => s
  }

  /** What a probe of the look-up finds. */
  function Found(s: State, t: nat, h: nat, k: nat, main: nat): PC
    requires Shape(s) && t < |s.pcs| && h <= main < |s.tables|
  {
    var i := SlotAt(s.tables[h].keys, s.hash[t], k);
    match s.tables[h].keys[i]
    case Of(u) =>
      if u != t then Find(h, k + 1, main)
      else if h == main then Done(s.tables[h].values[i])
      else Put(s.tables[h].values[i], 0, main, false)
    case Free => if h > 0 then Find(h - 1, 0, main) else Fetch(main)
  }

  predicate SetsKey(s: State, t: nat)
    requires Shape(s) && t < |s.pcs| && InRange(s, s.pcs[t])
  {
    var pc := s.pcs[t];
    pc.PutCas? && s.tables[pc.main].keys[SlotAt(s.tables[pc.main].keys, s.hash[t], pc.k)].Free?
  }

  function WithKey(s: State, h: nat, i: nat, t: nat): State
    requires h < |s.tables| && i < Capacity(s, h)
  {
    s.(tables := s.tables[h := s.tables[h].(keys := s.tables[h].keys[i := Of(t)])])
  }

  function WithValue(s: State, h: nat, i: nat, v: nat): State
    requires h < |s.tables| && i < |s.tables[h].values|
  {
    s.(tables := s.tables[h := s.tables[h].(values := s.tables[h].values[i := v])])
  }

  function WithTable(s: State, capacity: nat): State {
    s.(tables := s.tables + [FreshTable(capacity)])
  }

  /** One step of thread t; a thread that refers to no table it could see does not move. */
  function Step(s: State, t: nat, m: Move): State
    requires Shape(s)
  {
    if t >= |s.pcs| || !InRange(s, s.pcs[t]) then s else
    var pc := s.pcs[t];
    if SetsKey(s, t) then
      At(WithKey(s, pc.main, SlotAt(s.tables[pc.main].keys, s.hash[t], pc.k), t), t, PutStore(pc.v, pc.k, pc.main, pc.isNew))
    else if pc.PutStore? then
      At(WithValue(s, pc.main, SlotAt(s.tables[pc.main].keys, s.hash[t], pc.k), pc.v).(mine := s.mine[t := pc.v]), t, Done(pc.v))
    else if pc.Allocate? && m != Fail then
      At(WithTable(s, Grown(2 * Capacity(s, pc.main), pc.nc)), t, Unlock(|s.tables|, pc.nc))
    else Local(s, t, m)
  }

  function Run(s: State, moves: seq<(nat, Move)>): (r: State)
    requires Shape(s)
    ensures Shape(r)
    decreases |moves|
  {
    if moves == [] then s else
    var last := |moves| - 1;
    var r := Run(s, moves[..last]);
    ShapeKept(r, moves[last].0, moves[last].1);
    Step(r, moves[last].0, moves[last].1)
  }

  lemma ShapeKept(s: State, t: nat, m: Move)
    requires Shape(s)
    ensures Shape(Step(s, t, m))
  {
  }

  /** One table of a power-of-two size, no producer yet, everybody idle. */
  predicate Init(s: State) {
    && Shape(s) && |s.tables| == 1
    && s.tables[0] == FreshTable(Capacity(s, 0)) && IsPow2(Capacity(s, 0))
    && s.count == 0 && !s.locked && s.produced == 0
    && forall t :: 0 <= t < |s.pcs| ==> s.pcs[t] == Idle && s.mine[t] == 0
  }

  // ----- The invariant -----

  /** What the proof remembers: the threads counted in `count`, in the order of their fetch_adds; the value
      each of them got from its fetch_add; and where each registered thread's entry was first put. */
  datatype Aux = Aux(queue: seq<nat>, nc: seq<nat>, home: seq<nat>, spot: seq<nat>)

  /** A thread that has incremented the count and neither failed nor registered yet. */
  predicate Registering(pc: PC) {
    || pc.Check? || pc.LockedLoad? || pc.Allocate? || pc.AllocFailed? || pc.Unlock? || pc.Decide? || pc.Reload?
    || pc.Create? || pc.CreateFailed? || ((pc.Put? || pc.PutCas? || pc.PutStore?) && pc.isNew)
  }

  predicate HasLock(pc: PC) {
    pc.LockedLoad? || pc.Allocate? || pc.AllocFailed? || pc.FailUnlock? || pc.Unlock?
  }

  /** The first k probes for t, with hash x, meet keys of other threads. */
  predicate Passed(keys: seq<Key>, x: nat, t: nat, k: nat)
    requires |keys| > 0
  {
    forall j :: 0 <= j < k ==> keys[SlotAt(keys, x, j)].Of? && keys[SlotAt(keys, x, j)].t != t
  }

  predicate Absent(tb: Table, t: nat) {
    forall i :: 0 <= i < |tb.keys| ==> tb.keys[i] != Of(t)
  }

  /** How far slot i is from the first slot probed. */
  function Distance(keys: seq<Key>, x: nat, i: nat): (d: nat)
    requires i < |keys|
    ensures d < |keys|
  {
    (i - x) % |keys|
  }

  lemma DistanceOfSlot(x: nat, k: nat, c: nat)
    requires k < c
    ensures ((x + k) % c - x) % c == k
  {
    var q := (x + k) / c;
    assert x + k == q * c + (x + k) % c;
    assert (x + k) % c - x == (0 - q) * c + k;
    ModUnique((x + k) % c - x, 0 - q, k, c);
  }

  lemma SlotOfDistance(x: nat, i: nat, c: nat)
    requires i < c
    ensures (x + (i - x) % c) % c == i
  {
    var q := (i - x) / c;
    assert i - x == q * c + (i - x) % c;
    assert x + (i - x) % c == (0 - q) * c + i;
    ModUnique(x + (i - x) % c, 0 - q, i, c);
  }

  /** The value in t's slot is t's producer, or t is about to store it. */
  predicate ValueOk(s: State, h: nat, i: nat, t: nat)
    requires Shape(s) && h < |s.tables| && i < Capacity(s, h) && t < |s.pcs|
  {
    var pc := s.pcs[t];
    || (s.mine[t] != 0 && s.tables[h].values[i] == s.mine[t])
    || (pc.PutStore? && pc.main == h && SlotAt(s.tables[h].keys, s.hash[t], pc.k) == i)
  }

  /** A key in table h: its thread was counted in when the table was not nearly full, and finds it. */
  ghost predicate EntryOk(s: State, a: Aux, h: nat, i: nat)
    requires Shape(s) && |a.nc| == |s.pcs| && h < |s.tables| && i < Capacity(s, h)
  {
    s.tables[h].keys[i].Of? ==>
      var t := s.tables[h].keys[i].t;
      && t < |s.pcs|
      && a.nc[t] < Limit(Capacity(s, h))
      && Passed(s.tables[h].keys, s.hash[t], t, Distance(s.tables[h].keys, s.hash[t], i))
      && ValueOk(s, h, i, t)
      && (s.mine[t] != 0 || (s.pcs[t].PutStore? && s.pcs[t].isNew))
  }

  ghost predicate TablesOk(s: State, a: Aux)
    requires Shape(s) && |a.nc| == |s.pcs|
  {
    forall h, i :: 0 <= h < |s.tables| && 0 <= i < Capacity(s, h) ==> EntryOk(s, a, h, i)
  }

  ghost predicate ThreadOk(s: State, a: Aux, t: nat)
    requires Shape(s) && t < |s.pcs| == |a.nc| == |a.home| == |a.spot|
  {
    && InRange(s, s.pcs[t])
    && (s.mine[t] != 0 ==>
          && a.home[t] < |s.tables| && a.spot[t] < Capacity(s, a.home[t])
          && s.tables[a.home[t]].keys[a.spot[t]] == Of(t))
    && PcOk(s, a, t)
  }

  ghost predicate PcOk(s: State, a: Aux, t: nat)
    requires Shape(s) && t < |s.pcs| == |a.nc| == |a.home| && InRange(s, s.pcs[t])
  {
    match s.pcs[t]
    case Idle => true
    case LoadMain => true
    case FailUnlock => s.mine[t] == 0
    case Done(v) => v == s.mine[t]
    case Find(h, k, main) =>
      && Passed(s.tables[h].keys, s.hash[t], t, k)
      && (s.mine[t] != 0 ==> a.home[t] <= h)
      && (forall g :: h < g <= main ==> Absent(s.tables[g], t))
    case Put(v, k, main, isNew) => PutOk(s, a, t, v, k, main, isNew)
    case PutCas(v, k, main, isNew) => PutOk(s, a, t, v, k, main, isNew)
    case PutStore(v, k, main, isNew) =>
      && s.tables[main].keys[SlotAt(s.tables[main].keys, s.hash[t], k)] == Of(t)
      && v != 0 && s.mine[t] == (if isNew then 0 else v)
    case Create(main, nc) => s.mine[t] == 0 && nc < Limit(Capacity(s, main))
    case _ => s.mine[t] == 0
  }

  ghost predicate PutOk(s: State, a: Aux, t: nat, v: nat, k: nat, main: nat, isNew: bool)
    requires Shape(s) && t < |s.pcs| == |a.nc| && main < |s.tables|
  {
    && Passed(s.tables[main].keys, s.hash[t], t, k) && Absent(s.tables[main], t)
    && a.nc[t] < Limit(Capacity(s, main))
    && v != 0 && s.mine[t] == (if isNew then 0 else v)
  }

  /** The count is the number of threads counted in, and each of them was given at least its rank. */
  ghost predicate QueueOk(s: State, a: Aux)
    requires Shape(s) && |a.nc| == |s.pcs|
  {
    && s.count == |a.queue|
    && Ranked(a.queue, a.nc)
    && (forall t :: 0 <= t < |s.pcs| ==> (t in a.queue <==> s.mine[t] != 0 || Registering(s.pcs[t])))
    && (forall t :: 0 <= t < |s.pcs| && HasCount(s.pcs[t]) ==> s.pcs[t].nc == a.nc[t])
  }

  /** No thread is queued twice, and each got at least its place in the queue. */
  predicate Ranked(q: seq<nat>, nc: seq<nat>) {
    && (forall p :: 0 <= p < |q| ==> q[p] < |nc| && p + 1 <= nc[q[p]])
    && (forall x, y :: 0 <= x < y < |q| ==> q[x] != q[y])
  }

  /** The thread still has the count it got in a local. */
  predicate HasCount(pc: PC) {
    pc.Check? || pc.LockedLoad? || pc.Allocate? || pc.Unlock? || pc.Decide? || pc.Reload? || pc.Create?
  }

  ghost predicate LockOk(s: State)
    requires Shape(s)
  {
    && (forall t :: 0 <= t < |s.pcs| && HasLock(s.pcs[t]) ==> s.locked)
    && (forall t, u :: 0 <= t < u < |s.pcs| && HasLock(s.pcs[t]) ==> !HasLock(s.pcs[u]))
    && (forall t :: 0 <= t < |s.pcs| && s.pcs[t].Allocate? ==> s.pcs[t].main == Newest(s))
    && Doubling(s.tables)
  }

  /** Every table is at least twice as large as the ones before. */
  predicate Doubling(tables: seq<Table>) {
    forall g, h :: 0 <= g < h < |tables| ==> 2 * |tables[g].keys| <= |tables[h].keys|
  }

  /** The producer a thread has, or has just made and is putting into the table. */
  function Owned(s: State, t: nat): nat
    requires t < |s.pcs| == |s.mine|
  {
    var pc := s.pcs[t];
    if (pc.Put? || pc.PutCas? || pc.PutStore?) && pc.isNew then pc.v else s.mine[t]
  }

  ghost predicate OwnersOk(s: State)
    requires Shape(s)
  {
    && (forall t :: 0 <= t < |s.pcs| ==> Owned(s, t) <= s.produced)
    && (forall t, u :: 0 <= t < u < |s.pcs| && Owned(s, t) != 0 ==> Owned(s, t) != Owned(s, u))
  }

  ghost predicate Inv(s: State, a: Aux) {
    && Shape(s) && |a.nc| == |a.home| == |a.spot| == |s.pcs|
    && LockOk(s) && QueueOk(s, a) && OwnersOk(s)
    && TablesOk(s, a)
    && forall t :: 0 <= t < |s.pcs| ==> ThreadOk(s, a, t)
  }

  // ----- No table is ever three quarters full -----

  function Occupied(tb: Table): set<nat> {
    set i: nat | i < |tb.keys| && tb.keys[i].Of? :: i
  }

  lemma {:induction false} InjectionCounts(from: set<nat>, to: set<nat>, f: nat -> nat)
    requires forall x :: x in from ==> f(x) in to
    requires forall x, y :: x in from && y in from && f(x) == f(y) ==> x == y
    ensures |from| <= |to|
    decreases |from|
  {
    if from != {} {
      var x :| x in from;
      InjectionCounts(from - {x}, to - {f(x)}, f);
    }
  }

  function Members(q: seq<nat>): (r: set<nat>)
    ensures |r| <= |q|
    ensures forall t :: t in r <==> t in q
  {
    if q == [] then {} else {q[0]} + Members(q[1..])
  }

  function FirstNats(n: nat): (r: set<nat>)
    ensures |r| == n
    ensures forall j: nat :: j in r <==> j < n
  {
    if n == 0 then {} else FirstNats(n - 1) + {n - 1}
  }

  /** A thread has at most one entry in a table. */
  lemma OneEntry(s: State, a: Aux, h: nat, i: nat, j: nat)
    requires Shape(s) && |a.nc| == |s.pcs| && h < |s.tables| && i < Capacity(s, h) && j < Capacity(s, h)
    requires EntryOk(s, a, h, i) && EntryOk(s, a, h, j)
    requires s.tables[h].keys[i].Of? && s.tables[h].keys[i] == s.tables[h].keys[j]
    ensures i == j
  {
    var t := s.tables[h].keys[i].t;
    EntryIsAtDistance(s.tables[h].keys, s.hash[t], i);
    EntryIsAtDistance(s.tables[h].keys, s.hash[t], j);
    var d, e := Distance(s.tables[h].keys, s.hash[t], i), Distance(s.tables[h].keys, s.hash[t], j);
    assert d <= e && e <= d;
  }

  lemma EntryIsAtDistance(keys: seq<Key>, x: nat, i: nat)
    requires i < |keys|
    ensures SlotAt(keys, x, Distance(keys, x, i)) == i
  {
    SlotOfDistance(x, i, |keys|);
  }

  /** The threads with an entry in table h have rank below the limit: look at the last one that was counted. */
  lemma NotCrowded(s: State, a: Aux, h: nat)
    requires Inv(s, a) && h < |s.tables|
    ensures Occupied(s.tables[h]) == {} || |Occupied(s.tables[h])| < Limit(Capacity(s, h))
    ensures |Occupied(s.tables[h])| < Capacity(s, h)
  {
    var occ := Occupied(s.tables[h]);
    if occ != {} {
      var n := RankBound(s, a, h, |a.queue|);
      var members := Members(a.queue[..n]);
      forall i | i in occ
        ensures KeyThread(s.tables[h])(i) in members
      {
        InQueueBelow(s, a, h, i, n);
      }
      forall i, j | i in occ && j in occ && KeyThread(s.tables[h])(i) == KeyThread(s.tables[h])(j)
        ensures i == j
      {
        assert EntryOk(s, a, h, i) && EntryOk(s, a, h, j);
        OneEntry(s, a, h, i, j);
      }
      InjectionCounts(occ, members, KeyThread(s.tables[h]));
    }
  }

  function KeyThread(tb: Table): nat -> nat {
    (i: nat) => if i < |tb.keys| && tb.keys[i].Of? then tb.keys[i].t else 0
  }

  /** No thread with an entry in table h is at or after position n of the queue, up to m. */
  ghost predicate NoneFrom(s: State, a: Aux, h: nat, n: nat, m: nat)
    requires h < |s.tables| && m <= |a.queue|
  {
    forall p :: n <= p < m ==> Absent(s.tables[h], a.queue[p])
  }

  lemma {:induction false} RankBound(s: State, a: Aux, h: nat, m: nat) returns (n: nat)
    requires Inv(s, a) && h < |s.tables| && m <= |a.queue|
    requires Occupied(s.tables[h]) != {} && NoneFrom(s, a, h, m, |a.queue|)
    ensures n <= |a.queue| && n < Limit(Capacity(s, h)) && NoneFrom(s, a, h, n, |a.queue|)
    decreases m
  {
    if m > 0 && Absent(s.tables[h], a.queue[m - 1]) {
      n := RankBound(s, a, h, m - 1);
    } else {
      n := m;
      var i :| i in Occupied(s.tables[h]);
      if m == 0 {
        assert EntryOk(s, a, h, i);
      } else {
        var j :| 0 <= j < Capacity(s, h) && s.tables[h].keys[j] == Of(a.queue[m - 1]);
        assert EntryOk(s, a, h, j);
      }
    }
  }

  lemma InQueueBelow(s: State, a: Aux, h: nat, i: nat, n: nat)
    requires Inv(s, a) && h < |s.tables| && i in Occupied(s.tables[h])
    requires n <= |a.queue| && NoneFrom(s, a, h, n, |a.queue|)
    ensures s.tables[h].keys[i].t in a.queue[..n]
  {
    assert EntryOk(s, a, h, i);
    var t := s.tables[h].keys[i].t;
    assert t in a.queue;
    var p :| 0 <= p < |a.queue| && a.queue[p] == t;
    assert p < n;
    assert a.queue[..n][p] == t;
  }

  /** A probe sequence that has only met other threads' keys is no longer than the number of keys, so it has
      not gone round. */
  lemma ProbesAreFew(s: State, a: Aux, h: nat, t: nat, k: nat)
    requires Inv(s, a) && h < |s.tables| && t < |s.pcs| && Passed(s.tables[h].keys, s.hash[t], t, k)
    ensures k <= |Occupied(s.tables[h])| < Capacity(s, h)
  {
    NotCrowded(s, a, h);
    var c := Capacity(s, h);
    var n := if k < c then k else c;
    var from := FirstNats(n);
    var f := (j: nat) => SlotAt(s.tables[h].keys, s.hash[t], j);
    forall x | x in from
      ensures f(x) in Occupied(s.tables[h])
    {
      assert s.tables[h].keys[SlotAt(s.tables[h].keys, s.hash[t], x)].Of?;
    }
    forall x, y | x in from && y in from && f(x) == f(y)
      ensures x == y
    {
      ProbesDiffer(s.tables[h].keys, s.hash[t], x, y);
    }
    InjectionCounts(from, Occupied(s.tables[h]), f);
  }

  lemma ProbesDiffer(keys: seq<Key>, h: nat, x: nat, y: nat)
    requires x < |keys| && y < |keys|
    requires SlotAt(keys, h, x) == SlotAt(keys, h, y)
    ensures x == y
  {
    DistanceOfSlot(h, x, |keys|);
    DistanceOfSlot(h, y, |keys|);
  }

  // ----- Each step keeps the invariant -----

  function Without(q: seq<nat>, t: nat): seq<nat> {
    if q == [] then [] else if q[0] == t then q[1..] else [q[0]] + Without(q[1..], t)
  }

  /** The others keep their order, and those behind t move up by one. */
  lemma {:induction false} WithoutIsOneLess(q: seq<nat>, t: nat) returns (p: nat)
    requires t in q
    ensures p < |q| && q[p] == t && Without(q, t) == q[..p] + q[p + 1..]
  {
    if q[0] == t {
      p := 0;
    } else {
      p := WithoutIsOneLess(q[1..], t);
      p := p + 1;
    }
  }

  lemma {:induction false} WithoutMembers(q: seq<nat>, t: nat, u: nat)
    requires u != t
    ensures u in Without(q, t) <==> u in q
  {
    if q != [] && q[0] != t {
      WithoutMembers(q[1..], t, u);
    }
  }

  function Track(s: State, a: Aux, t: nat, m: Move): Aux
    requires Shape(s) && |a.nc| == |a.home| == |a.spot| == |s.pcs|
  {
    if t >= |s.pcs| || !InRange(s, s.pcs[t]) then a else
    match s.pcs[t]
    case Fetch(_) => a.(queue := a.queue + [t], nc := a.nc[t := s.count + 1])
    case AllocFailed => a.(queue := Without(a.queue, t))
    case CreateFailed => a.(queue := Without(a.queue, t))
    case PutStore(v, k, main, isNew) =>
      if isNew then a.(home := a.home[t := main], spot := a.spot[t := SlotAt(s.tables[main].keys, s.hash[t], k)]) else a
    case _ => a
  }

  predicate IsLocal(s: State, t: nat, m: Move)
    requires Shape(s) && t < |s.pcs| && InRange(s, s.pcs[t])
  {
    !SetsKey(s, t) && !s.pcs[t].PutStore? && !(s.pcs[t].Allocate? && m != Fail)
  }

  lemma LocalTables(s: State, a: Aux, t: nat, m: Move)
    requires Inv(s, a) && t < |s.pcs| && InRange(s, s.pcs[t]) && IsLocal(s, t, m)
    ensures TablesOk(Step(s, t, m), Track(s, a, t, m))
  {
    var s', a' := Step(s, t, m), Track(s, a, t, m);
    assert ThreadOk(s, a, t);
    forall h, i | 0 <= h < |s'.tables| && 0 <= i < Capacity(s', h)
      ensures EntryOk(s', a', h, i)
    {
      assert EntryOk(s, a, h, i);
    }
  }

  lemma LocalThreads(s: State, a: Aux, t: nat, m: Move)
    requires Inv(s, a) && t < |s.pcs| && InRange(s, s.pcs[t]) && IsLocal(s, t, m)
    requires InRange(s, Local(s, t, m).pcs[t]) && PcOk(Step(s, t, m), Track(s, a, t, m), t)
    ensures forall u :: 0 <= u < |s.pcs| ==> ThreadOk(Step(s, t, m), Track(s, a, t, m), u)
  {
    var s', a' := Step(s, t, m), Track(s, a, t, m);
    forall u | 0 <= u < |s.pcs|
      ensures ThreadOk(s', a', u)
    {
      assert ThreadOk(s, a, u);
    }
  }

  lemma FreeSlotMeansAbsent(s: State, a: Aux, t: nat, h: nat, k: nat)
    requires Shape(s) && |a.nc| == |s.pcs| && TablesOk(s, a) && t < |s.pcs| && h < |s.tables|
    requires Passed(s.tables[h].keys, s.hash[t], t, k)
    requires s.tables[h].keys[SlotAt(s.tables[h].keys, s.hash[t], k)].Free?
    ensures Absent(s.tables[h], t)
  {
    forall j | 0 <= j < Capacity(s, h)
      ensures s.tables[h].keys[j] != Of(t)
    {
      assert EntryOk(s, a, h, j);
      FreeSlotEndsSearch(s.tables[h].keys, s.hash[t], t, k, j);
    }
  }

  /** A thread that finds its own entry in an old table can be entered in the newest. */
  lemma OwnEntryFits(s: State, a: Aux, t: nat, h: nat, i: nat, main: nat)
    requires Shape(s) && |a.nc| == |s.pcs| && h <= main < |s.tables| && i < Capacity(s, h)
    requires EntryOk(s, a, h, i) && s.tables[h].keys[i] == Of(t) && t < |s.pcs| && s.pcs[t].Find?
    requires Doubling(s.tables)
    ensures s.tables[h].values[i] == s.mine[t] != 0 && a.nc[t] < Limit(Capacity(s, main))
  {
    assert h < main ==> 2 * |s.tables[h].keys| <= |s.tables[main].keys|;
  }

  lemma PassedOne(keys: seq<Key>, x: nat, t: nat, k: nat)
    requires |keys| > 0 && Passed(keys, x, t, k)
    requires keys[SlotAt(keys, x, k)].Of? && keys[SlotAt(keys, x, k)].t != t
    ensures Passed(keys, x, t, k + 1)
  {
  }

  /** A registered thread never gives up: the look-up reaches the table its entry was first put in. */
  lemma FindIsOk(s: State, a: Aux, t: nat)
    requires Shape(s) && |a.nc| == |a.home| == |a.spot| == |s.pcs| && TablesOk(s, a)
    requires t < |s.pcs| && s.pcs[t].Find? && InRange(s, s.pcs[t]) && ThreadOk(s, a, t)
    requires Doubling(s.tables)
    ensures var Find(h, k, main) := s.pcs[t]; var pc := Found(s, t, h, k, main);
      InRange(s, pc) && PcOk(At(s, t, pc), a, t)
  {
    var Find(h, k, main) := s.pcs[t];
    var i := SlotAt(s.tables[h].keys, s.hash[t], k);
    match s.tables[h].keys[i]
    case Free => FreeSlotMeansAbsent(s, a, t, h, k);
    case Of(u) =>
      if u == t {
        assert EntryOk(s, a, h, i);
        OwnEntryFits(s, a, t, h, i, main);
      } else {
        PassedOne(s.tables[h].keys, s.hash[t], t, k);
      }
  }

  /** An entry lies behind occupied slots only, so a free slot after k foreign keys means there is none. */
  lemma FreeSlotEndsSearch(keys: seq<Key>, x: nat, t: nat, k: nat, j: nat)
    requires j < |keys| && Passed(keys, x, t, k) && keys[SlotAt(keys, x, k)].Free?
    ensures keys[j] == Of(t) ==> !Passed(keys, x, t, Distance(keys, x, j))
  {
    EntryIsAtDistance(keys, x, j);
  }

  lemma NotRegisteredIsAbsent(s: State, a: Aux, t: nat, h: nat)
    requires Inv(s, a) && t < |s.pcs| && s.mine[t] == 0 && !s.pcs[t].PutStore? && h < |s.tables|
    ensures Absent(s.tables[h], t)
  {
    forall i | 0 <= i < Capacity(s, h)
      ensures s.tables[h].keys[i] != Of(t)
    {
      assert EntryOk(s, a, h, i);
    }
  }

  lemma CreateIsOk(s: State, a: Aux, t: nat, m: Move)
    requires Inv(s, a) && t < |s.pcs| && InRange(s, s.pcs[t]) && s.pcs[t].Create?
    ensures InRange(s, Local(s, t, m).pcs[t]) && PcOk(Step(s, t, m), a, t)
  {
    assert ThreadOk(s, a, t);
    NotRegisteredIsAbsent(s, a, t, s.pcs[t].main);
  }

  lemma PutIsOk(s: State, a: Aux, t: nat, m: Move)
    requires Inv(s, a) && t < |s.pcs| && InRange(s, s.pcs[t]) && IsLocal(s, t, m)
    requires s.pcs[t].Put? || s.pcs[t].PutCas?
    ensures InRange(s, Local(s, t, m).pcs[t]) && PcOk(Step(s, t, m), a, t)
  {
    assert ThreadOk(s, a, t);
    var i := SlotAt(s.tables[s.pcs[t].main].keys, s.hash[t], s.pcs[t].k);
    assert s.tables[s.pcs[t].main].keys[i] != Of(t);
  }

  lemma CallIsOk(s: State, a: Aux, t: nat, m: Move)
    requires Shape(s) && |a.nc| == |a.home| == |a.spot| == |s.pcs|
    requires t < |s.pcs| && InRange(s, s.pcs[t]) && IsLocal(s, t, m) && ThreadOk(s, a, t)
    requires s.pcs[t].Idle? || s.pcs[t].LoadMain? || s.pcs[t].Done?
    ensures InRange(s, Local(s, t, m).pcs[t]) && PcOk(Step(s, t, m), Track(s, a, t, m), t)
  {
  }

  lemma ResizeIsOk(s: State, a: Aux, t: nat, m: Move)
    requires Shape(s) && |a.nc| == |a.home| == |a.spot| == |s.pcs|
    requires t < |s.pcs| && InRange(s, s.pcs[t]) && IsLocal(s, t, m) && ThreadOk(s, a, t)
    requires HasLock(s.pcs[t])
    ensures InRange(s, Local(s, t, m).pcs[t]) && PcOk(Step(s, t, m), Track(s, a, t, m), t)
  {
  }

  lemma RegisterIsOk(s: State, a: Aux, t: nat, m: Move)
    requires Shape(s) && |a.nc| == |a.home| == |a.spot| == |s.pcs|
    requires t < |s.pcs| && InRange(s, s.pcs[t]) && IsLocal(s, t, m) && ThreadOk(s, a, t)
    requires var pc := s.pcs[t]; pc.Fetch? || pc.Check? || pc.Decide? || pc.Reload? || pc.CreateFailed?
    ensures InRange(s, Local(s, t, m).pcs[t]) && PcOk(Step(s, t, m), Track(s, a, t, m), t)
  {
  }

  lemma LocalPc(s: State, a: Aux, t: nat, m: Move)
    requires Inv(s, a) && t < |s.pcs| && InRange(s, s.pcs[t]) && IsLocal(s, t, m)
    ensures InRange(s, Local(s, t, m).pcs[t]) && PcOk(Step(s, t, m), Track(s, a, t, m), t)
  {
    assert ThreadOk(s, a, t);
    var pc := s.pcs[t];
    if pc.Find? {
      FindIsOk(s, a, t);
    } else if pc.Create? {
      CreateIsOk(s, a, t, m);
    } else if pc.Put? || pc.PutCas? {
      PutIsOk(s, a, t, m);
    } else if HasLock(pc) {
      ResizeIsOk(s, a, t, m);
    } else if pc.Idle? || pc.LoadMain? || pc.Done? {
      CallIsOk(s, a, t, m);
    } else {
      RegisterIsOk(s, a, t, m);
    }
  }

  lemma LocalLock(s: State, t: nat, m: Move)
    requires Shape(s) && LockOk(s)
    requires t < |s.pcs| && InRange(s, s.pcs[t]) && IsLocal(s, t, m)
    ensures LockOk(Step(s, t, m))
  {
  }

  /** A local step keeps what thread t owns, or gives it a producer that nobody has had. */
  lemma LocalOwner(s: State, t: nat, m: Move)
    requires Shape(s) && t < |s.pcs| && InRange(s, s.pcs[t]) && IsLocal(s, t, m)
    ensures var s' := Step(s, t, m);
      (Owned(s', t) == Owned(s, t) && s'.produced == s.produced)
      || (Owned(s', t) == s'.produced == s.produced + 1)
  {
  }

  lemma LocalOwners(s: State, t: nat, m: Move)
    requires Shape(s) && OwnersOk(s)
    requires t < |s.pcs| && InRange(s, s.pcs[t]) && IsLocal(s, t, m)
    ensures OwnersOk(Step(s, t, m))
  {
    LocalOwner(s, t, m);
    OwnersKept(s, Step(s, t, m), t);
  }

  lemma OwnersKept(s: State, s': State, t: nat)
    requires Shape(s) && Shape(s') && OwnersOk(s)
    requires t < |s.pcs| == |s'.pcs| && s'.pcs == s.pcs[t := s'.pcs[t]]
    requires forall u :: 0 <= u < |s.pcs| && u != t ==> s'.mine[u] == s.mine[u]
    requires (Owned(s', t) == Owned(s, t) && s'.produced == s.produced)
      || (Owned(s', t) == s'.produced == s.produced + 1)
    ensures OwnersOk(s')
  {
    assert forall u :: 0 <= u < |s.pcs| && u != t ==> Owned(s', u) == Owned(s, u) <= s.produced;
  }

  /** The ranks of the others can only fall. */
  lemma RankedRemove(q: seq<nat>, nc: seq<nat>, p: nat)
    requires Ranked(q, nc) && p < |q|
    ensures Ranked(q[..p] + q[p + 1..], nc)
    ensures q[p] !in q[..p] + q[p + 1..]
  {
    var r := q[..p] + q[p + 1..];
    forall x | 0 <= x < |r|
      ensures r[x] < |nc| && x + 1 <= nc[r[x]] && r[x] != q[p]
    {
      assert r[x] == q[if x < p then x else x + 1];
    }
  }

  lemma RankedWithout(q: seq<nat>, nc: seq<nat>, t: nat)
    requires Ranked(q, nc) && t in q
    ensures Ranked(Without(q, t), nc) && |Without(q, t)| == |q| - 1 && t !in Without(q, t)
  {
    var p := WithoutIsOneLess(q, t);
    RankedRemove(q, nc, p);
  }

  /** A thread that gives up leaves the queue. */
  lemma LeaveQueue(s: State, a: Aux, s': State, t: nat)
    requires Shape(s) && Shape(s') && |a.nc| == |s.pcs| == |s'.pcs| && QueueOk(s, a)
    requires t < |s.pcs| && s.mine[t] == 0 && Registering(s.pcs[t])
    requires !Registering(s'.pcs[t]) && !HasCount(s'.pcs[t])
    requires s'.mine == s.mine && s'.pcs == s.pcs[t := s'.pcs[t]]
    requires s'.count == if s.count > 0 then s.count - 1 else 0
    ensures QueueOk(s', a.(queue := Without(a.queue, t)))
  {
    RankedWithout(a.queue, a.nc, t);
    forall u: nat | u != t
      ensures u in Without(a.queue, t) <==> u in a.queue
    {
      WithoutMembers(a.queue, t, u);
    }
  }

  lemma EnterQueue(s: State, a: Aux, s': State, t: nat)
    requires Shape(s) && Shape(s') && |a.nc| == |s.pcs| == |s'.pcs| && QueueOk(s, a)
    requires t < |s.pcs| && s.mine[t] == 0 && s.pcs[t].Fetch?
    requires s'.mine == s.mine && s'.pcs == s.pcs[t := s'.pcs[t]] && s'.count == s.count + 1
    requires s'.pcs[t].Check? && s'.pcs[t].nc == s.count + 1
    ensures QueueOk(s', a.(queue := a.queue + [t], nc := a.nc[t := s.count + 1]))
  {
    assert t !in a.queue;
    assert forall u :: u in a.queue + [t] <==> u in a.queue || u == t;
  }

  lemma StayInQueue(s: State, a: Aux, s': State, t: nat)
    requires Shape(s) && Shape(s') && |a.nc| == |s.pcs| == |s'.pcs| && QueueOk(s, a)
    requires t < |s.pcs| && s'.pcs == s.pcs[t := s'.pcs[t]] && s'.count == s.count
    requires forall u :: 0 <= u < |s.pcs| && u != t ==> s'.mine[u] == s.mine[u]
    requires (s'.mine[t] != 0 || Registering(s'.pcs[t])) == (s.mine[t] != 0 || Registering(s.pcs[t]))
    requires HasCount(s'.pcs[t]) ==> HasCount(s.pcs[t]) && s'.pcs[t].nc == s.pcs[t].nc
    ensures QueueOk(s', a)
  {
  }

  /** The other local steps change neither the count nor the thread's part in it. */
  lemma LocalRole(s: State, t: nat, m: Move)
    requires Shape(s) && t < |s.pcs| && InRange(s, s.pcs[t]) && IsLocal(s, t, m)
    requires !s.pcs[t].AllocFailed? && !s.pcs[t].CreateFailed? && !s.pcs[t].Fetch?
    ensures var s' := Step(s, t, m); var pc, pc' := s.pcs[t], s'.pcs[t];
      && s'.count == s.count && Registering(pc') == Registering(pc)
      && (HasCount(pc') ==> HasCount(pc) && pc'.nc == pc.nc)
  {
  }

  lemma LocalQueue(s: State, a: Aux, t: nat, m: Move)
    requires Shape(s) && |a.nc| == |a.home| == |a.spot| == |s.pcs| && QueueOk(s, a)
    requires t < |s.pcs| && InRange(s, s.pcs[t]) && IsLocal(s, t, m)
    requires s.pcs[t].AllocFailed? || s.pcs[t].CreateFailed? || s.pcs[t].Fetch? ==> s.mine[t] == 0
    ensures QueueOk(Step(s, t, m), Track(s, a, t, m))
  {
    var s' := Step(s, t, m);
    if s.pcs[t].AllocFailed? || s.pcs[t].CreateFailed? {
      LeaveQueue(s, a, s', t);
    } else if s.pcs[t].Fetch? {
      EnterQueue(s, a, s', t);
    } else {
      LocalRole(s, t, m);
      StayInQueue(s, a, s', t);
    }
  }

  // The steps on the tables.

  /** The table after t has put its key into the free slot it found after k probes. */
  lemma KeyPlaced(keys: seq<Key>, x: nat, t: nat, k: nat)
    requires |keys| > 0 && k < |keys| && Passed(keys, x, t, k) && keys[SlotAt(keys, x, k)].Free?
    ensures var i := SlotAt(keys, x, k); var keys' := keys[i := Of(t)];
      Distance(keys', x, i) == k && Passed(keys', x, t, k)
  {
    DistanceOfSlot(x, k, |keys|);
    var i := SlotAt(keys, x, k);
    var keys' := keys[i := Of(t)];
    forall j | 0 <= j < k
      ensures keys'[SlotAt(keys', x, j)].Of? && keys'[SlotAt(keys', x, j)].t != t
    {
      assert SlotAt(keys', x, j) == SlotAt(keys, x, j);
    }
  }

  /** What other threads have passed stays passed. */
  lemma StillPassed(keys: seq<Key>, i: nat, t: nat, y: nat, u: nat, d: nat)
    requires i < |keys| && keys[i].Free? && u != t && Passed(keys, y, u, d)
    ensures Passed(keys[i := Of(t)], y, u, d)
  {
    var keys' := keys[i := Of(t)];
    forall j | 0 <= j < d
      ensures keys'[SlotAt(keys', y, j)].Of? && keys'[SlotAt(keys', y, j)].t != u
    {
      assert SlotAt(keys', y, j) == SlotAt(keys, y, j);
    }
  }

  lemma SetKeyTables(s: State, a: Aux, t: nat, m: Move)
    requires Inv(s, a) && t < |s.pcs| && InRange(s, s.pcs[t]) && SetsKey(s, t)
    ensures TablesOk(Step(s, t, m), a)
  {
    var s' := Step(s, t, m);
    var PutCas(v, k, main, isNew) := s.pcs[t];
    var tb := s.tables[main];
    var i := SlotAt(tb.keys, s.hash[t], k);
    assert ThreadOk(s, a, t);
    ProbesAreFew(s, a, main, t, k);
    KeyPlaced(tb.keys, s.hash[t], t, k);
    forall h, j | 0 <= h < |s'.tables| && 0 <= j < Capacity(s', h)
      ensures EntryOk(s', a, h, j)
    {
      assert EntryOk(s, a, h, j);
      if h == main && j != i && tb.keys[j].Of? {
        StillPassed(tb.keys, i, t, s.hash[tb.keys[j].t], tb.keys[j].t, Distance(tb.keys, s.hash[tb.keys[j].t], j));
      }
    }
  }

  /** Another thread's view after t has put its key into a free slot of table h. */
  lemma OtherAfterKey(s: State, a: Aux, s': State, t: nat, u: nat, h: nat, i: nat)
    requires Shape(s) && Shape(s') && |a.nc| == |a.home| == |a.spot| == |s.pcs| == |s'.pcs|
    requires u < |s.pcs| && u != t && ThreadOk(s, a, u) && s'.pcs[u] == s.pcs[u]
    requires h < |s.tables| && i < Capacity(s, h) && s.tables[h].keys[i].Free?
    requires s'.tables == WithKey(s, h, i, t).tables && s'.mine == s.mine && s'.hash == s.hash
    ensures ThreadOk(s', a, u)
  {
    var pc := s.pcs[u];
    if pc.Find? && pc.h == h {
      StillPassed(s.tables[h].keys, i, t, s.hash[u], u, pc.k);
    } else if (pc.Put? || pc.PutCas?) && pc.main == h {
      StillPassed(s.tables[h].keys, i, t, s.hash[u], u, pc.k);
    }
  }

  lemma SetKeyThreads(s: State, a: Aux, t: nat, m: Move)
    requires Inv(s, a) && t < |s.pcs| && InRange(s, s.pcs[t]) && SetsKey(s, t)
    ensures forall u :: 0 <= u < |s.pcs| ==> ThreadOk(Step(s, t, m), a, u)
  {
    var s' := Step(s, t, m);
    var main := s.pcs[t].main;
    assert ThreadOk(s, a, t);
    forall u | 0 <= u < |s.pcs|
      ensures ThreadOk(s', a, u)
    {
      if u != t {
        assert ThreadOk(s, a, u);
        OtherAfterKey(s, a, s', t, u, main, SlotAt(s.tables[main].keys, s.hash[t], s.pcs[t].k));
      }
    }
  }

  lemma SetKeyRest(s: State, a: Aux, t: nat, m: Move)
    requires Inv(s, a) && t < |s.pcs| && InRange(s, s.pcs[t]) && SetsKey(s, t)
    ensures LockOk(Step(s, t, m)) && QueueOk(Step(s, t, m), a) && OwnersOk(Step(s, t, m))
  {
    var s' := Step(s, t, m);
    assert forall u :: 0 <= u < |s.pcs| ==> Owned(s', u) == Owned(s, u);
  }

  lemma StoreTables(s: State, a: Aux, t: nat, m: Move)
    requires Inv(s, a) && t < |s.pcs| && InRange(s, s.pcs[t]) && s.pcs[t].PutStore?
    ensures TablesOk(Step(s, t, m), Track(s, a, t, m))
  {
    var s' := Step(s, t, m);
    assert ThreadOk(s, a, t);
    forall h, j | 0 <= h < |s'.tables| && 0 <= j < Capacity(s', h)
      ensures EntryOk(s', Track(s, a, t, m), h, j)
    {
      assert EntryOk(s, a, h, j);
    }
  }

  /** The store of a value changes no key, so the other threads see no difference. */
  lemma OtherAfterStore(s: State, a: Aux, s': State, a': Aux, t: nat, u: nat, h: nat)
    requires Shape(s) && Shape(s') && |a.nc| == |a.home| == |a.spot| == |s.pcs| == |s'.pcs|
    requires u < |s.pcs| && u != t < |s.pcs| && ThreadOk(s, a, u) && s'.pcs[u] == s.pcs[u]
    requires h < |s.tables| == |s'.tables| && s'.hash == s.hash && s'.mine[u] == s.mine[u]
    requires forall g :: 0 <= g < |s.tables| ==> s'.tables[g].keys == s.tables[g].keys
    requires a'.nc == a.nc && |a'.home| == |a'.spot| == |a.home| && a'.home[u] == a.home[u] && a'.spot[u] == a.spot[u]
    ensures ThreadOk(s', a', u)
  {
  }

  lemma StoreThreads(s: State, a: Aux, t: nat, m: Move)
    requires Inv(s, a) && t < |s.pcs| && InRange(s, s.pcs[t]) && s.pcs[t].PutStore?
    ensures forall u :: 0 <= u < |s.pcs| ==> ThreadOk(Step(s, t, m), Track(s, a, t, m), u)
  {
    var s' := Step(s, t, m);
    forall u | 0 <= u < |s.pcs|
      ensures ThreadOk(s', Track(s, a, t, m), u)
    {
      assert ThreadOk(s, a, u);
      if u != t {
        OtherAfterStore(s, a, s', Track(s, a, t, m), t, u, s.pcs[t].main);
      }
    }
  }

  lemma StoreRest(s: State, a: Aux, t: nat, m: Move)
    requires Inv(s, a) && t < |s.pcs| && InRange(s, s.pcs[t]) && s.pcs[t].PutStore?
    ensures LockOk(Step(s, t, m)) && QueueOk(Step(s, t, m), Track(s, a, t, m)) && OwnersOk(Step(s, t, m))
  {
    assert ThreadOk(s, a, t);
    OwnersKept(s, Step(s, t, m), t);
    StayInQueue(s, a, Step(s, t, m), t);
  }

  lemma GrowTables(s: State, a: Aux, t: nat, m: Move)
    requires Inv(s, a) && t < |s.pcs| && InRange(s, s.pcs[t]) && s.pcs[t].Allocate? && m != Fail
    ensures TablesOk(Step(s, t, m), a)
  {
    var s' := Step(s, t, m);
    assert ThreadOk(s, a, t);
    forall h, j | 0 <= h < |s'.tables| && 0 <= j < Capacity(s', h)
      ensures EntryOk(s', a, h, j)
    {
      if h < |s.tables| {
        assert EntryOk(s, a, h, j);
      }
    }
  }

  lemma GrowThreads(s: State, a: Aux, t: nat, m: Move)
    requires Inv(s, a) && t < |s.pcs| && InRange(s, s.pcs[t]) && s.pcs[t].Allocate? && m != Fail
    ensures forall u :: 0 <= u < |s.pcs| ==> ThreadOk(Step(s, t, m), a, u)
  {
    var s' := Step(s, t, m);
    forall u | 0 <= u < |s.pcs|
      ensures ThreadOk(s', a, u)
    {
      assert ThreadOk(s, a, u);
    }
  }

  lemma GrowRest(s: State, a: Aux, t: nat, m: Move)
    requires Inv(s, a) && t < |s.pcs| && InRange(s, s.pcs[t]) && s.pcs[t].Allocate? && m != Fail
    ensures LockOk(Step(s, t, m)) && QueueOk(Step(s, t, m), a) && OwnersOk(Step(s, t, m))
  {
    OwnersKept(s, Step(s, t, m), t);
    StayInQueue(s, a, Step(s, t, m), t);
  }

  lemma StepKeepsInv(s: State, a: Aux, t: nat, m: Move)
    requires Inv(s, a)
    ensures Inv(Step(s, t, m), Track(s, a, t, m))
  {
    if t < |s.pcs| && InRange(s, s.pcs[t]) {
      ShapeKept(s, t, m);
      assert ThreadOk(s, a, t);
      if SetsKey(s, t) {
        SetKeyTables(s, a, t, m);
        SetKeyThreads(s, a, t, m);
        SetKeyRest(s, a, t, m);
      } else if s.pcs[t].PutStore? {
        StoreTables(s, a, t, m);
        StoreThreads(s, a, t, m);
        StoreRest(s, a, t, m);
      } else if s.pcs[t].Allocate? && m != Fail {
        GrowTables(s, a, t, m);
        GrowThreads(s, a, t, m);
        GrowRest(s, a, t, m);
      } else {
        LocalTables(s, a, t, m);
        LocalPc(s, a, t, m);
        LocalThreads(s, a, t, m);
        LocalLock(s, t, m);
        LocalOwners(s, t, m);
        LocalQueue(s, a, t, m);
      }
    }
  }

  lemma {:induction false} RunKeepsInv(s: State, moves: seq<(nat, Move)>) returns (a: Aux)
    requires Init(s)
    ensures Inv(Run(s, moves), a)
    decreases |moves|
  {
    if moves == [] {
      var zeros := seq(|s.pcs|, _ => 0);
      a := Aux([], zeros, zeros, zeros);
    } else {
      var last := |moves| - 1;
      var b := RunKeepsInv(s, moves[..last]);
      StepKeepsInv(Run(s, moves[..last]), b, moves[last].0, moves[last].1);
      a := Track(Run(s, moves[..last]), b, moves[last].0, moves[last].1);
    }
  }

  // ----- What every run guarantees -----

  /** A call returns the thread's own producer, in every interleaving; it returns null only to a thread that has
      none, and then an allocation of its own has failed in this call, at move j. */
  lemma FindsItsOwnProducer(s: State, moves: seq<(nat, Move)>, t: nat) returns (j: nat)
    requires Init(s) && t < |Run(s, moves).pcs| && Run(s, moves).pcs[t].Done?
    ensures Run(s, moves).pcs[t].v == Run(s, moves).mine[t]
    ensures Run(s, moves).pcs[t].v == 0 ==> FailedAt(s, moves, t, j)
  {
    var a := RunKeepsInv(s, moves);
    assert ThreadOk(Run(s, moves), a, t);
    j := 0;
    if Run(s, moves).pcs[t].v == 0 {
      j := NullMeansNoMemory(s, moves, t);
    }
  }

  /** A thread registers once: when it starts to, no table has an entry for it. */
  lemma {:induction false} RegistersOnce(s: State, moves: seq<(nat, Move)>, t: nat, h: nat)
    requires Init(s) && t < |Run(s, moves).pcs| && Run(s, moves).pcs[t].Fetch? && h < |Run(s, moves).tables|
    ensures Run(s, moves).mine[t] == 0 && Absent(Run(s, moves).tables[h], t)
  {
    var a := RunKeepsInv(s, moves);
    assert ThreadOk(Run(s, moves), a, t);
    NotRegisteredIsAbsent(Run(s, moves), a, t, h);
  }

  /** No two threads share a producer, and a thread's producer never changes. */
  lemma {:induction false} ProducersAreNotShared(s: State, moves: seq<(nat, Move)>, t: nat, u: nat)
    requires Init(s) && t < |Run(s, moves).pcs| && u < |Run(s, moves).pcs| && t != u
    requires Run(s, moves).mine[t] != 0
    ensures Run(s, moves).mine[t] != Run(s, moves).mine[u]
  {
    var a := RunKeepsInv(s, moves);
    var r := Run(s, moves);
    assert ThreadOk(r, a, t) && ThreadOk(r, a, u);
    assert Owned(r, t) != Owned(r, u);
  }

  lemma ProducerIsKept(s: State, moves: seq<(nat, Move)>, t: nat, m: (nat, Move))
    requires Init(s) && t < |Run(s, moves).pcs| && Run(s, moves).mine[t] != 0
    ensures Step(Run(s, moves), m.0, m.1).mine[t] == Run(s, moves).mine[t]
  {
    var a := RunKeepsInv(s, moves);
    assert ThreadOk(Run(s, moves), a, t);
  }

  /** Every table always keeps more than a quarter of its slots free, whatever allocations fail. */
  lemma {:induction false} TablesStayBelowThreeQuarters(s: State, moves: seq<(nat, Move)>, h: nat)
    requires Init(s) && h < |Run(s, moves).tables|
    ensures var tb := Run(s, moves).tables[h]; var n := |Occupied(tb)|;
      n < |tb.keys| && (n > 0 ==> n < Limit(|tb.keys|) && 4 * n < 3 * |tb.keys|)
  {
    var a := RunKeepsInv(s, moves);
    NotCrowded(Run(s, moves), a, h);
  }

  /** Each probe loop ends: a thread that is still probing has made at most as many probes as the table has
      keys, in any interleaving. */
  lemma ProbeLoopsEnd(s: State, moves: seq<(nat, Move)>, t: nat)
    requires Init(s) && t < |Run(s, moves).pcs|
    ensures var r := Run(s, moves);
      match r.pcs[t]
      case Find(h, k, _) => h < |r.tables| && k <= |Occupied(r.tables[h])| < |r.tables[h].keys|
      case Put(_, k, h, _) => h < |r.tables| && k <= |Occupied(r.tables[h])| < |r.tables[h].keys|
      case _ => true
  {
    var a := RunKeepsInv(s, moves);
    var r := Run(s, moves);
    assert ThreadOk(r, a, t);
    match r.pcs[t]
    case Find(h, k, _) => ProbesAreFew(r, a, h, t, k);
    case Put(_, k, h, _) => ProbesAreFew(r, a, h, t, k);
    case _ =>
  }

  /** Capacities stay powers of two, so masking with capacity - 1 is the remainder. */
  lemma {:induction false} CapacitiesArePow2(s: State, moves: seq<(nat, Move)>)
    requires Init(s)
    ensures forall h :: 0 <= h < |Run(s, moves).tables| ==> IsPow2(|Run(s, moves).tables[h].keys|)
    decreases |moves|
  {
    if moves != [] {
      var last := |moves| - 1;
      CapacitiesArePow2(s, moves[..last]);
      var r := Run(s, moves[..last]);
      var t := moves[last].0;
      if t < |r.pcs| && InRange(r, r.pcs[t]) && r.pcs[t].Allocate? {
        GrownIsPow2(2 * Capacity(r, r.pcs[t].main), r.pcs[t].nc);
      }
    }
  }

  lemma {:induction false} GrownIsPow2(c: nat, nc: nat)
    requires IsPow2(c)
    ensures IsPow2(Grown(c, nc))
    decreases Grown(c, nc) - c
  {
    if nc >= c / 2 {
      GrownIsPow2(2 * c, nc);
    }
  }

  // ----- What a call returns -----

  /** The call is going to return null, or does. */
  predicate GivesUp(pc: PC) {
    pc.AllocFailed? || pc.FailUnlock? || pc.CreateFailed? || pc == Done(0)
  }

  /** At move j an allocation of thread t fails, and from then on to the end of the run it is giving up. */
  ghost predicate FailedAt(s: State, moves: seq<(nat, Move)>, t: nat, j: nat)
    requires Shape(s)
  {
    && j < |moves| && moves[j] == (t, Fail)
    && t < |Run(s, moves[..j]).pcs| && (Run(s, moves[..j]).pcs[t].Allocate? || Run(s, moves[..j]).pcs[t].Create?)
    && forall k :: j < k <= |moves| ==> t < |Run(s, moves[..k]).pcs| && GivesUp(Run(s, moves[..k]).pcs[t])
  }

  lemma GiveUpFind(s: State, a: Aux, t: nat, m: Move)
    requires Inv(s, a) && t < |s.pcs| && s.pcs[t].Find?
    ensures !GivesUp(Step(s, t, m).pcs[t])
  {
    assert ThreadOk(s, a, t);
    var Find(h, k, main) := s.pcs[t];
    assert EntryOk(s, a, h, SlotAt(s.tables[h].keys, s.hash[t], k));
  }

  lemma GiveUpStore(s: State, a: Aux, t: nat, m: Move)
    requires Inv(s, a) && t < |s.pcs| && s.pcs[t].PutStore?
    ensures !GivesUp(Step(s, t, m).pcs[t])
  {
    assert ThreadOk(s, a, t);
  }

  lemma GiveUpOther(s: State, t: nat, m: Move)
    requires Shape(s) && t < |s.pcs| && !s.pcs[t].Find? && !s.pcs[t].PutStore?
    ensures GivesUp(Step(s, t, m).pcs[t]) ==>
      GivesUp(s.pcs[t]) || (m == Fail && (s.pcs[t].Allocate? || s.pcs[t].Create?))
  {
    hide SlotAt, Grown, FreshTable;
  }

  lemma GiveUpStep(s: State, a: Aux, t: nat, m: Move)
    requires Inv(s, a) && t < |s.pcs|
    ensures GivesUp(Step(s, t, m).pcs[t]) ==>
      GivesUp(s.pcs[t]) || (m == Fail && (s.pcs[t].Allocate? || s.pcs[t].Create?))
  {
    hide Step, GivesUp;
    match s.pcs[t]
    case Find(_, _, _) => GiveUpFind(s, a, t, m);
    case PutStore(_, _, _, _) => GiveUpStore(s, a, t, m);
    case _ => GiveUpOther(s, t, m);
  }

  lemma OthersStay(s: State, u: nat, m: Move, t: nat)
    requires Shape(s) && t < |s.pcs| && t != u
    ensures |Step(s, u, m).pcs| == |s.pcs| && Step(s, u, m).pcs[t] == s.pcs[t]
  {
  }

  lemma ThreadsStay(s: State, u: nat, m: Move)
    requires Shape(s)
    ensures |Step(s, u, m).pcs| == |s.pcs|
  {
  }

  /** In every interleaving, a call returns null only if an allocation has failed in it. */
  lemma {:induction false} NullMeansNoMemory(s: State, moves: seq<(nat, Move)>, t: nat) returns (j: nat)
    requires Init(s) && t < |Run(s, moves).pcs| && GivesUp(Run(s, moves).pcs[t])
    ensures FailedAt(s, moves, t, j)
    decreases |moves|
  {
    var before, last := moves[..|moves| - 1], moves[|moves| - 1];
    var r := Run(s, before);
    var a := RunKeepsInv(s, before);
    hide Step, Inv, FailedAt;
    ThreadsStay(r, last.0, last.1);
    if last.0 == t {
      GiveUpStep(r, a, t, last.1);
    } else {
      OthersStay(r, last.0, last.1, t);
    }
    if GivesUp(r.pcs[t]) {
      j := NullMeansNoMemory(s, before, t);
      FailedBefore(s, moves, t, j);
    } else {
      j := |before|;
      FailedNow(s, moves, t);
    }
  }

  lemma FailedBefore(s: State, moves: seq<(nat, Move)>, t: nat, j: nat)
    requires Shape(s) && moves != [] && FailedAt(s, moves[..|moves| - 1], t, j)
    requires t < |Run(s, moves).pcs| && GivesUp(Run(s, moves).pcs[t])
    ensures FailedAt(s, moves, t, j)
  {
    hide Run, GivesUp;
    forall k | 0 <= k < |moves|
      ensures moves[..|moves| - 1][..k] == moves[..k]
    {
    }
    assert moves[..|moves|] == moves;
  }

  lemma FailedNow(s: State, moves: seq<(nat, Move)>, t: nat)
    requires Shape(s) && moves != [] && moves[|moves| - 1] == (t, Fail)
    requires var r := Run(s, moves[..|moves| - 1]); t < |r.pcs| && (r.pcs[t].Allocate? || r.pcs[t].Create?)
    requires t < |Run(s, moves).pcs| && GivesUp(Run(s, moves).pcs[t])
    ensures FailedAt(s, moves, t, |moves| - 1)
  {
    hide Run, GivesUp;
    assert moves[..|moves|] == moves;
  }

  /** Thread t goes on alone, and no allocation fails. */
  function Alone(s: State, t: nat, n: nat): (r: State)
    requires Shape(s)
    ensures Shape(r)
    decreases n
  {
    if n == 0 then s else
    ShapeKept(s, t, Go);
    Alone(Step(s, t, Go), t, n - 1)
  }

  /** The keys of the tables before number h, and one more step for each. */
  function KeysBefore(tables: seq<Table>, h: nat): nat
    requires h <= |tables|
  {
    if h == 0 then 0 else KeysBefore(tables, h - 1) + |Occupied(tables[h - 1])| + 1
  }

  /** Thread t has got this far without being disturbed: it works on the newest table, and nobody holds the lock. */
  ghost predicate Undisturbed(s: State, t: nat)
    requires Shape(s) && t < |s.pcs|
  {
    var pc, top := s.pcs[t], Newest(s);
    && (s.locked ==> HasLock(pc))
    && match pc
       case LoadMain => true
       case Find(h, _, main) => h <= main == top
       case Put(_, _, main, _) => main == top
       case PutCas(_, k, main, _) => main == top && s.tables[top].keys[SlotAt(s.tables[top].keys, s.hash[t], k)].Free?
       case PutStore(_, _, main, _) => main == top
       case Fetch(main) => main == top
       case Check(main, _) => main == top
       case LockedLoad(nc) => nc >= Capacity(s, top) / 2
       case Allocate(main, nc) => main == top
       case Unlock(main, nc) => main == top && nc < Capacity(s, top) / 2
       case Decide(main, nc) => main == top && nc < Capacity(s, top) / 2
       case Create(main, _) => main == top
       case Done(v) => HasEntry(s, t, v)
       case _ => false
  }

  /** The newest table has thread t with producer v. */
  ghost predicate HasEntry(s: State, t: nat, v: nat)
    requires Shape(s)
  {
    var tb := s.tables[Newest(s)];
    v != 0 && exists i :: 0 <= i < |tb.keys| && tb.keys[i] == Of(t) && tb.values[i] == v
  }

  function KeysOf(s: State, h: nat): nat
    requires Shape(s)
  {
    if h < |s.tables| then |Occupied(s.tables[h])| else 0
  }

  /** The keys of the newest table, and those of table h if that is another one. */
  function KeysOfBoth(s: State, h: nat): nat
    requires Shape(s)
  {
    KeysOf(s, Newest(s)) + if h == Newest(s) then 0 else KeysOf(s, h)
  }

  function CapacityOf(s: State, h: nat): nat
    requires Shape(s)
  {
    if h < |s.tables| then Capacity(s, h) else 0
  }

  /** The steps that are left, at most, when nobody else moves and no allocation fails. */
  function StepsLeft(s: State, t: nat): int
    requires Shape(s) && t < |s.pcs|
  {
    match s.pcs[t]
    case LoadMain => 13 + KeysOf(s, Newest(s)) + KeysBefore(s.tables, |s.tables|)
    case Find(h, k, main) =>
      12 + KeysOfBoth(s, main) + (if h < |s.tables| then KeysBefore(s.tables, h) else 0) + KeysOf(s, h) - k
    case Fetch(main) => 11 + KeysOfBoth(s, main)
    case Check(main, nc) => if nc >= CapacityOf(s, main) / 2 then 10 + KeysOf(s, Newest(s)) else 7 + KeysOf(s, main)
    case LockedLoad(_) => 9 + KeysOf(s, Newest(s))
    case Allocate(_, _) => 8
    case Unlock(main, nc) => 1 + DecideLeft(s, main, nc)
    case Decide(main, nc) => DecideLeft(s, main, nc)
    case Reload(_) => 12 + KeysOf(s, Newest(s))
    case Create(main, _) => 5 + KeysOf(s, main)
    case Put(_, k, main, _) => 4 + KeysOf(s, main) - k
    case PutCas(_, k, main, _) => if SlotIsFree(s, t, k, main) then 2 else 4 + KeysOf(s, main) - k
    case PutStore(_, _, _, _) => 1
    case AllocFailed => 2
    case FailUnlock => 1
    case CreateFailed => 1
    case _ => 0
  }

  function DecideLeft(s: State, main: nat, nc: nat): int
    requires Shape(s)
  {
    if nc < Limit(CapacityOf(s, main)) then 6 + KeysOf(s, main) else 13 + KeysOf(s, Newest(s))
  }

  /** The k-th slot of table `main` for thread t is free. */
  predicate SlotIsFree(s: State, t: nat, k: nat, main: nat)
    requires Shape(s) && t < |s.pcs|
  {
    main < |s.tables| && s.tables[main].keys[SlotAt(s.tables[main].keys, s.hash[t], k)].Free?
  }

  /** Nobody but thread t is resizing. */
  predicate LockIsFree(s: State, t: nat)
    requires t < |s.pcs|
  {
    s.locked ==> HasLock(s.pcs[t])
  }

  /** One step on, one step less to go. */
  ghost predicate Progress(s: State, t: nat)
    requires Shape(s) && t < |s.pcs|
  {
    var s' := Step(s, t, Go);
    && Shape(s') && |s'.pcs| == |s.pcs| && LockIsFree(s', t)
    && 0 <= StepsLeft(s', t) < StepsLeft(s, t)
    && (Undisturbed(s, t) ==> Undisturbed(s', t))
  }

  lemma FindGoesOn(s: State, t: nat)
    requires Shape(s) && t < |s.pcs| && s.pcs[t].Find? && InRange(s, s.pcs[t]) && LockIsFree(s, t)
    requires var Find(h, k, _) := s.pcs[t]; var key := s.tables[h].keys[SlotAt(s.tables[h].keys, s.hash[t], k)];
      key.Of? && key.t != t && k < |Occupied(s.tables[h])|
    ensures Progress(s, t)
  {
    hide Occupied, KeysBefore, SlotAt;
  }

  lemma FindStops(s: State, t: nat)
    requires Shape(s) && t < |s.pcs| && s.pcs[t].Find? && InRange(s, s.pcs[t]) && LockIsFree(s, t)
    requires var Find(h, k, _) := s.pcs[t]; var i := SlotAt(s.tables[h].keys, s.hash[t], k);
      && k <= |Occupied(s.tables[h])|
      && (s.tables[h].keys[i].Of? ==> s.tables[h].keys[i].t == t && s.tables[h].values[i] != 0)
    ensures Progress(s, t)
  {
    hide Occupied, SlotAt;
  }

  lemma FindProgress(s: State, a: Aux, t: nat)
    requires Inv(s, a) && t < |s.pcs| && LockIsFree(s, t) && s.pcs[t].Find?
    ensures Progress(s, t)
  {
    assert ThreadOk(s, a, t);
    var Find(h, k, main) := s.pcs[t];
    var i := SlotAt(s.tables[h].keys, s.hash[t], k);
    ProbesAreFew(s, a, h, t, k);
    assert EntryOk(s, a, h, i);
    hide Progress, Occupied, LockIsFree;
    if s.tables[h].keys[i].Of? && s.tables[h].keys[i].t != t {
      PassedOne(s.tables[h].keys, s.hash[t], t, k);
      ProbesAreFew(s, a, h, t, k + 1);
      FindGoesOn(s, t);
    } else {
      FindStops(s, t);
    }
  }

  lemma PutProgress(s: State, a: Aux, t: nat)
    requires Inv(s, a) && t < |s.pcs| && LockIsFree(s, t) && (s.pcs[t].Put? || s.pcs[t].PutCas?)
    ensures Progress(s, t)
  {
    var k, main := s.pcs[t].k, s.pcs[t].main;
    assert ThreadOk(s, a, t);
    ProbesAreFew(s, a, main, t, k);
    var i := SlotAt(s.tables[main].keys, s.hash[t], k);
    if s.tables[main].keys[i].Of? {
      assert s.tables[main].keys[i] != Of(t);
      PassedOne(s.tables[main].keys, s.hash[t], t, k);
      ProbesAreFew(s, a, main, t, k + 1);
    }
  }

  lemma StoreProgress(s: State, a: Aux, t: nat)
    requires Inv(s, a) && t < |s.pcs| && LockIsFree(s, t) && s.pcs[t].PutStore?
    ensures Progress(s, t)
  {
    assert ThreadOk(s, a, t);
    var i := SlotAt(s.tables[s.pcs[t].main].keys, s.hash[t], s.pcs[t].k);
    var s' := Step(s, t, Go);
    if Undisturbed(s, t) {
      var tb := s'.tables[Newest(s')];
      assert tb.keys[i] == Of(t) && tb.values[i] == s.pcs[t].v;
    }
  }

  lemma GrowProgress(s: State, t: nat)
    requires Shape(s) && t < |s.pcs| && InRange(s, s.pcs[t]) && s.pcs[t].Allocate?
    ensures Progress(s, t)
  {
    var s' := Step(s, t, Go);
    assert Occupied(s'.tables[Newest(s')]) == {};
  }

  lemma LoadProgress(s: State, t: nat)
    requires Shape(s) && t < |s.pcs| && LockIsFree(s, t) && s.pcs[t].LoadMain?
    ensures Progress(s, t)
  {
    hide Occupied;
  }

  lemma RegisterProgress(s: State, t: nat)
    requires Shape(s) && t < |s.pcs| && InRange(s, s.pcs[t]) && LockIsFree(s, t)
    requires var pc := s.pcs[t]; pc.Fetch? || pc.Reload? || pc.Create? || pc.Check?
    ensures Progress(s, t)
  {
    hide Occupied, KeysBefore, SlotAt, Grown, FreshTable;
  }

  lemma DecideProgress(s: State, t: nat)
    requires Shape(s) && t < |s.pcs| && InRange(s, s.pcs[t]) && LockIsFree(s, t)
    requires s.pcs[t].Unlock? || s.pcs[t].Decide?
    ensures Progress(s, t)
  {
    hide Occupied, KeysBefore, SlotAt, Grown, FreshTable;
  }

  lemma LockedProgress(s: State, t: nat)
    requires Shape(s) && t < |s.pcs| && LockIsFree(s, t) && s.pcs[t].LockedLoad?
    ensures Progress(s, t)
  {
    hide Occupied, KeysBefore, SlotAt, Grown, FreshTable;
  }

  lemma FailProgress(s: State, t: nat)
    requires Shape(s) && t < |s.pcs| && LockIsFree(s, t)
    requires s.pcs[t].AllocFailed? || s.pcs[t].FailUnlock? || s.pcs[t].CreateFailed?
    ensures Progress(s, t)
  {
  }

  lemma MakesProgress(s: State, a: Aux, t: nat)
    requires Inv(s, a) && t < |s.pcs| && LockIsFree(s, t) && !s.pcs[t].Done? && !s.pcs[t].Idle?
    ensures Progress(s, t)
  {
    assert ThreadOk(s, a, t);
    hide Inv, Progress, ThreadOk;
    match s.pcs[t]
    case Find(_, _, _) => FindProgress(s, a, t);
    case Put(_, _, _, _) => PutProgress(s, a, t);
    case PutCas(_, _, _, _) => PutProgress(s, a, t);
    case PutStore(_, _, _, _) => StoreProgress(s, a, t);
    case Allocate(_, _) => GrowProgress(s, t);
    case LoadMain => LoadProgress(s, t);
    case AllocFailed => FailProgress(s, t);
    case FailUnlock => FailProgress(s, t);
    case CreateFailed => FailProgress(s, t);
    case LockedLoad(_) => LockedProgress(s, t);
    case Unlock(_, _) => DecideProgress(s, t);
    case Decide(_, _) => DecideProgress(s, t);
    case _ => RegisterProgress(s, t);
  }

  lemma KeepsProducer(s: State, a: Aux, t: nat)
    requires Inv(s, a) && t < |s.pcs| && s.mine[t] != 0
    ensures Step(s, t, Go).mine[t] == s.mine[t]
  {
    assert ThreadOk(s, a, t);
  }

  /** Thread t has returned from its call, with its producer. */
  ghost predicate Returned(s: State, t: nat)
    requires Shape(s)
  {
    t < |s.pcs| && s.pcs[t] == Done(s.mine[t]) && HasEntry(s, t, s.mine[t])
  }

  lemma DoneIsReturned(s: State, a: Aux, t: nat)
    requires Inv(s, a) && t < |s.pcs| && Undisturbed(s, t) && s.pcs[t].Done?
    ensures Returned(s, t)
  {
    assert ThreadOk(s, a, t);
  }

  lemma ProgressMade(s: State, a: Aux, t: nat) returns (a': Aux)
    requires Inv(s, a) && t < |s.pcs| && LockIsFree(s, t) && !s.pcs[t].Done? && !s.pcs[t].Idle?
    ensures Shape(s)
    ensures var s' := Step(s, t, Go);
      && Shape(s') && Inv(s', a') && |s'.pcs| == |s.pcs| == |s.mine| == |s'.mine| && LockIsFree(s', t)
      && 0 <= StepsLeft(s', t) < StepsLeft(s, t)
      && (Undisturbed(s, t) ==> Undisturbed(s', t))
      && (s.mine[t] != 0 ==> s'.mine[t] == s.mine[t])
  {
    hide Undisturbed, Step, StepsLeft, LockIsFree;
    MakesProgress(s, a, t);
    StepKeepsInv(s, a, t, Go);
    a' := Track(s, a, t, Go);
    if s.mine[t] != 0 {
      KeepsProducer(s, a, t);
    }
  }

  lemma {:induction false} AloneEnds(s: State, a: Aux, t: nat) returns (n: nat)
    requires Inv(s, a) && t < |s.pcs| && LockIsFree(s, t) && StepsLeft(s, t) >= 0
    ensures n <= StepsLeft(s, t)
    ensures var e := Alone(s, t, n); t < |e.pcs| && (e.pcs[t].Done? || e.pcs[t].Idle?)
    ensures Undisturbed(s, t) ==> Returned(Alone(s, t, n), t)
    ensures s.mine[t] != 0 ==> t < |Alone(s, t, n).mine| && Alone(s, t, n).mine[t] == s.mine[t]
    decreases StepsLeft(s, t)
  {
    hide Inv, Undisturbed, Step, Returned, Progress, StepsLeft, Track, LockIsFree;
    ShapeOf(s, a);
    if s.pcs[t].Done? || s.pcs[t].Idle? {
      n := 0;
      if Undisturbed(s, t) {
        NotIdle(s, t);
        DoneIsReturned(s, a, t);
      }
    } else {
      var a' := ProgressMade(s, a, t);
      n := AloneEnds(Step(s, t, Go), a', t);
      n := n + 1;
    }
  }

  lemma ShapeOf(s: State, a: Aux)
    requires Inv(s, a)
    ensures Shape(s)
  {
  }

  lemma NotIdle(s: State, t: nat)
    requires Shape(s) && t < |s.pcs| && Undisturbed(s, t)
    ensures !s.pcs[t].Idle?
  {
  }

  lemma NotNegative(s: State, a: Aux, t: nat)
    requires Inv(s, a) && t < |s.pcs|
    ensures StepsLeft(s, t) >= 0
  {
    assert ThreadOk(s, a, t);
    match s.pcs[t]
    case Find(h, k, main) => ProbesAreFew(s, a, h, t, k);
    case Put(_, k, main, _) => ProbesAreFew(s, a, main, t, k);
    case PutCas(_, k, main, _) => ProbesAreFew(s, a, main, t, k);
    case _ =>
  }

  ghost predicate LockIsHeld(s: State) {
    s.locked ==> exists u :: 0 <= u < |s.pcs| && HasLock(s.pcs[u])
  }

  lemma StepKeepsHeld(s: State, t: nat, m: Move)
    requires Shape(s) && LockIsHeld(s) && forall u, v :: 0 <= u < v < |s.pcs| && HasLock(s.pcs[u]) ==> !HasLock(s.pcs[v])
    ensures LockIsHeld(Step(s, t, m))
  {
    var s' := Step(s, t, m);
    if s'.locked && t < |s.pcs| {
      if HasLock(s'.pcs[t]) {
        assert HasLock(s'.pcs[t]);
      } else {
        var u :| 0 <= u < |s.pcs| && HasLock(s.pcs[u]);
        assert u != t && s'.pcs[u] == s.pcs[u];
      }
    }
  }

  lemma {:induction false} RunKeepsHeld(s: State, moves: seq<(nat, Move)>)
    requires Init(s)
    ensures LockIsHeld(Run(s, moves))
    decreases |moves|
  {
    if moves != [] {
      var last := |moves| - 1;
      RunKeepsHeld(s, moves[..last]);
      var a := RunKeepsInv(s, moves[..last]);
      hide Step;
      StepKeepsHeld(Run(s, moves[..last]), moves[last].0, moves[last].1);
    }
  }

  /** In every reachable state, wherever the others have stopped, a call that is left alone and has memory ends,
      unless another thread is resizing: nothing else can hold it up. */
  lemma {:induction false} OnlyResizingHoldsUp(s: State, moves: seq<(nat, Move)>, t: nat) returns (n: nat)
    requires Init(s) && t < |Run(s, moves).pcs|
    requires forall u :: 0 <= u < |Run(s, moves).pcs| && u != t ==> !HasLock(Run(s, moves).pcs[u])
    ensures n <= StepsLeft(Run(s, moves), t)
    ensures var e := Alone(Run(s, moves), t, n); t < |e.pcs| && (e.pcs[t].Done? || e.pcs[t].Idle?)
  {
    var r := Run(s, moves);
    var a := RunKeepsInv(s, moves);
    RunKeepsHeld(s, moves);
    assert LockIsFree(r, t);
    NotNegative(r, a, t);
    hide Run, Inv, Init, Alone, StepsLeft, LockIsFree;
    n := AloneEnds(r, a, t);
  }

  /** In every reachable state in which nobody resizes, a call that nobody disturbs and that has memory returns the
      thread's own producer, which is then in the newest table; a thread without one gets one. It takes at most 13
      steps, one for each table, and one for each key, two for those of the newest table. */
  lemma {:induction false} CallGetsProducer(s: State, moves: seq<(nat, Move)>, t: nat) returns (n: nat)
    requires Init(s) && t < |Run(s, moves).pcs| && Run(s, moves).pcs[t] == Idle && !Run(s, moves).locked
    ensures var r := Run(s, moves); Shape(Step(r, t, Call)) && Returned(Alone(Step(r, t, Call), t, n), t)
    ensures var r := Run(s, moves); n <= 13 + KeysBefore(r.tables, |r.tables|) + |Occupied(r.tables[Newest(r)])|
    ensures var r := Run(s, moves); r.mine[t] != 0 ==> Alone(Step(r, t, Call), t, n).mine[t] == r.mine[t]
  {
    var r := Run(s, moves);
    var a := RunKeepsInv(s, moves);
    hide Run, Step, Inv, Init, Returned, Alone, Undisturbed, StepsLeft, LockIsFree;
    a := CallStarts(r, a, t);
    n := AloneEnds(Step(r, t, Call), a, t);
  }

  lemma CallStarts(s: State, a: Aux, t: nat) returns (a': Aux)
    requires Inv(s, a) && t < |s.pcs| && s.pcs[t] == Idle && !s.locked
    ensures var s' := Step(s, t, Call);
      && Shape(s') && Inv(s', a') && |s'.pcs| == |s.pcs| == |s.mine| && s'.mine == s.mine && Undisturbed(s', t)
      && LockIsFree(s', t) && StepsLeft(s', t) == 13 + KeysBefore(s.tables, |s.tables|) + |Occupied(s.tables[Newest(s)])|
  {
    StepKeepsInv(s, a, t, Call);
    a' := Track(s, a, t, Call);
    hide Inv;
    assert Step(s, t, Call) == At(s, t, LoadMain);
  }

  /** The steps of thread t after a failure. */
  function Fails(s: State, t: nat, n: nat): State
    requires Shape(s)
  {
    ShapeKept(s, t, Fail);
    Alone(Step(s, t, Fail), t, n)
  }

  /** When an allocation fails, the call returns null in two or three steps; the count is as before the call, the
      lock is released, and no table has changed. And a call that has returned is over. */
  lemma {:induction false} FailureReturnsNull(s: State, moves: seq<(nat, Move)>, t: nat)
    requires Init(s) && t < |Run(s, moves).pcs|
    ensures var r := Run(s, moves);
      && (r.pcs[t].Create? ==> r.count > 0 && Fails(r, t, 1) == At(r.(count := r.count - 1), t, Done(0)))
      && (r.pcs[t].Allocate? ==>
            r.count > 0 && Fails(r, t, 2) == At(r.(count := r.count - 1, locked := false), t, Done(0)))
      && (r.pcs[t].Done? ==> Step(r, t, Go) == At(r, t, Idle))
  {
    var r := Run(s, moves);
    var a := RunKeepsInv(s, moves);
    hide Run, Init, Inv, Fails, Step;
    IsCounted(r, a, t);
    FailSteps(r, t);
  }

  lemma IsCounted(s: State, a: Aux, t: nat)
    requires Inv(s, a) && t < |s.pcs|
    ensures InRange(s, s.pcs[t]) && (s.pcs[t].Create? || s.pcs[t].Allocate? ==> s.count > 0)
  {
    assert ThreadOk(s, a, t);
    if s.pcs[t].Create? || s.pcs[t].Allocate? {
      assert t in a.queue;
    }
  }

  lemma FailSteps(s: State, t: nat)
    requires Shape(s) && t < |s.pcs| && InRange(s, s.pcs[t])
    ensures s.pcs[t].Create? && s.count > 0 ==> Fails(s, t, 1) == At(s.(count := s.count - 1), t, Done(0))
    ensures s.pcs[t].Allocate? && s.count > 0 ==>
      Fails(s, t, 2) == At(s.(count := s.count - 1, locked := false), t, Done(0))
    ensures s.pcs[t].Done? ==> Step(s, t, Go) == At(s, t, Idle)
  {
    hide Found, SlotAt, Grown, FreshTable, Limit;
    if s.pcs[t].Create? && s.count > 0 {
      var r1 := At(s, t, CreateFailed);
      assert Step(s, t, Fail) == r1;
      assert Fails(s, t, 1) == Alone(r1, t, 1) == Alone(Step(r1, t, Go), t, 0);
    } else if s.pcs[t].Allocate? && s.count > 0 {
      var r1 := At(s, t, AllocFailed);
      var r2 := At(s.(count := s.count - 1), t, FailUnlock);
      assert Step(s, t, Fail) == r1 && Step(r1, t, Go) == r2;
      assert Fails(s, t, 2) == Alone(r1, t, 2) == Alone(r2, t, 1) == Alone(Step(r2, t, Go), t, 0);
    }
  }
}
