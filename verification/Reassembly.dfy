/**
 Reassembly of IP fragments as a function of what has arrived. Offsets count units of 8 bytes; `field` is the
 16-bit flags-and-offset field of section 3.1 of RFC 791 as a number. The search for the place of a fragment
 compares the field without swapping its bytes, which is not its offset; everything here follows the program
 in that, and says when it does no harm.
 */
module Reassembly {
  import Checksum

  datatype Key = Key(id: nat, protocol: nat, source: nat, destination: nat)

  /** `bytes` is the packet from its IP header on; `ihl` counts words of 4 bytes. */
  datatype Fragment = Fragment(key: Key, field: nat, ihl: nat, totLen: nat, bytes: seq<Checksum.Byte>)

  datatype Option<T> = None | Some(value: T)

  const TWO16: int := 0x1_0000

  function Off(f: Fragment): nat { f.field % 0x2000 }

  predicate More(f: Fragment) { f.field / 0x2000 % 2 == 1 }

  /** The offset mask applied to the field as a little-endian load of its two bytes. */
  function RawOff(f: Fragment): nat { f.field / 256 + 256 * (f.field % 256 % 32) }

  function DataLength(f: Fragment): int { f.totLen - 4 * f.ihl }

  // ----- One context -----

  /** The place the search loop stops at. */
  function Place(chain: seq<Fragment>, x: Fragment): (i: nat)
    ensures i <= |chain|
    ensures forall j :: 0 <= j < i ==> RawOff(x) > Off(chain[j])
    ensures i < |chain| ==> RawOff(x) <= Off(chain[i])
  {
    if chain == [] || RawOff(x) <= Off(chain[0]) then 0 else 1 + Place(chain[1..], x)
  }

  /** The chain with x in it; none when the loop stops at once, for then there is no element to link x to and
      the program dereferences null. */
  function Insert(chain: seq<Fragment>, x: Fragment): Option<seq<Fragment>> {
    if chain == [] || Off(chain[0]) > Off(x) then Some([x] + chain)
    else if Place(chain, x) == 0 then None
    else Some(chain[..Place(chain, x)] + [x] + chain[Place(chain, x)..])
  }

  /** Every fragment starts where the one before it ends. */
  predicate Contiguous(chain: seq<Fragment>, expected: int) {
    chain != [] ==>
      8 * Off(chain[0]) == expected && Contiguous(chain[1..], expected + DataLength(chain[0]))
  }

  predicate Ready(chain: seq<Fragment>) {
    chain != [] && Contiguous(chain, 0) && !More(chain[|chain| - 1])
  }

  // ----- All contexts -----

  datatype Context = Context(key: Key, chain: seq<Fragment>)

  /** The first context of a datagram, or the end of the list. */
  function Find(cs: seq<Context>, key: Key): (i: nat)
    ensures i <= |cs| && (i < |cs| ==> cs[i].key == key)
    ensures forall j :: 0 <= j < i ==> cs[j].key != key
  {
    if cs == [] || cs[0].key == key then 0 else 1 + Find(cs[1..], key)
  }

  function ChainFor(cs: seq<Context>, key: Key): seq<Fragment> {
    if Find(cs, key) < |cs| then cs[Find(cs, key)].chain else []
  }

  function WithChain(cs: seq<Context>, key: Key, chain: seq<Fragment>): seq<Context> {
    if Find(cs, key) < |cs| then cs[Find(cs, key) := Context(key, chain)] else cs + [Context(key, chain)]
  }

  function Without(cs: seq<Context>, key: Key): seq<Context> {
    if Find(cs, key) < |cs| then cs[..Find(cs, key)] + cs[Find(cs, key) + 1..] else cs
  }

  datatype Result = Crash | Kept(cs: seq<Context>) | Done(cs: seq<Context>, chain: seq<Fragment>)

  function Defrag(cs: seq<Context>, x: Fragment): Result {
    match Insert(ChainFor(cs, x.key), x)
    case None => Crash
    case Some(chain) =>
      if Ready(chain) then Done(Without(WithChain(cs, x.key, chain), x.key), chain)
      else Kept(WithChain(cs, x.key, chain))
  }

  predicate UniqueKeys(cs: seq<Context>) {
    forall i, j :: 0 <= i < j < |cs| ==> cs[i].key != cs[j].key
  }

  /** A fragment touches the context of its own datagram only, and a complete datagram loses its context. */
  lemma OnlyItsContext(cs: seq<Context>, x: Fragment, key: Key)
    requires UniqueKeys(cs) && !Defrag(cs, x).Crash?
    ensures UniqueKeys(Defrag(cs, x).cs)
    ensures key != x.key ==> ChainFor(Defrag(cs, x).cs, key) == ChainFor(cs, key)
    ensures Defrag(cs, x).Done? ==> ChainFor(Defrag(cs, x).cs, x.key) == []
    ensures Defrag(cs, x).Kept? ==> Some(ChainFor(Defrag(cs, x).cs, x.key)) == Insert(ChainFor(cs, x.key), x)
  {
    var chain := Insert(ChainFor(cs, x.key), x).value;
    SetChain(cs, x.key, chain, key);
    SetChain(cs, x.key, chain, x.key);
    DropContext(WithChain(cs, x.key, chain), x.key, key);
    DropContext(WithChain(cs, x.key, chain), x.key, x.key);
  }

  lemma SetChain(cs: seq<Context>, k: Key, chain: seq<Fragment>, key: Key)
    requires UniqueKeys(cs)
    ensures UniqueKeys(WithChain(cs, k, chain))
    ensures ChainFor(WithChain(cs, k, chain), key) == if key == k then chain else ChainFor(cs, key)
  {
    var r := WithChain(cs, k, chain);
    var i := Find(cs, key);
    if key == k || i < |cs| {
      FoundAt(r, key, i);
    } else {
      assert Find(r, key) == |r|;
    }
  }

  lemma FoundAt(cs: seq<Context>, key: Key, i: nat)
    requires i < |cs| && cs[i].key == key && forall j :: 0 <= j < i ==> cs[j].key != key
    ensures Find(cs, key) == i
  {
  }

  lemma DropContext(cs: seq<Context>, k: Key, key: Key)
    requires UniqueKeys(cs)
    ensures UniqueKeys(Without(cs, k))
    ensures ChainFor(Without(cs, k), key) == if key == k then [] else ChainFor(cs, key)
  {
    var r, n := Without(cs, k), Find(cs, k);
    if n < |cs| {
      forall j | 0 <= j < |r|
        ensures r[j] == cs[if j < n then j else j + 1] && r[j].key != k
      {
      }
      UniqueAround(cs, r, n);
    }
    var i := Find(cs, key);
    if key != k && i < |cs| {
      FoundAt(r, key, if i < n then i else i - 1);
    } else {
      assert Find(r, key) == |r|;
    }
  }

  lemma UniqueAround(cs: seq<Context>, r: seq<Context>, n: nat)
    requires UniqueKeys(cs) && n < |cs| == |r| + 1
    requires forall j :: 0 <= j < |r| ==> r[j] == cs[if j < n then j else j + 1]
    ensures UniqueKeys(r)
  {
  }

  // ----- Runs -----

  /** The timer of a context may drop it at any time. */
  datatype Event = Arrive(f: Fragment) | Expire(key: Key)

  datatype Machine = Running(cs: seq<Context>) | Crashed

  function After(m: Machine, e: Event): Machine {
    match m
    case Crashed => Crashed
    case Running(cs) =>
      match e
      case Expire(key) => Running(Without(cs, key))
      case Arrive(f) => if Defrag(cs, f).Crash? then Crashed else Running(Defrag(cs, f).cs)
  }

  function Run(events: seq<Event>): Machine {
    if events == [] then Running([]) else After(Run(events[..|events| - 1]), events[|events| - 1])
  }

  /** The chain returned at the last event, if one is. */
  function Returned(events: seq<Event>): Option<seq<Fragment>> {
    if events == [] then None else
    var before, last := Run(events[..|events| - 1]), events[|events| - 1];
    if before.Running? && last.Arrive? && Defrag(before.cs, last.f).Done? then Some(Defrag(before.cs, last.f).chain)
    else None
  }

  /** The fragments of one datagram that have arrived since its timer last went off, in the order of their arrival. */
  function Own(events: seq<Event>, key: Key): seq<Fragment> {
    if events == [] then [] else
    var last := events[|events| - 1];
    if last == Expire(key) then []
    else Own(events[..|events| - 1], key) + if last.Arrive? && last.f.key == key then [last.f] else []
  }

  /** No fragment of another datagram crashes the program, nor has one of this datagram before its timer went off. */
  predicate Undisturbed(events: seq<Event>, key: Key) {
    events != [] ==>
      var before, last := Run(events[..|events| - 1]), events[|events| - 1];
      && Undisturbed(events[..|events| - 1], key)
      && (last == Expire(key) ==> before.Running?)
      && (last.Arrive? && last.f.key != key && before.Running? ==> !Defrag(before.cs, last.f).Crash?)
  }

  /** The chain after the fragments of one datagram have arrived in some order, if no call crashed. */
  function Inserted(xs: seq<Fragment>): Option<seq<Fragment>> {
    if xs == [] then Some([]) else
    var before := Inserted(xs[..|xs| - 1]);
    if before.None? then None else Insert(before.value, xs[|xs| - 1])
  }

  // ----- What a datagram is cut into -----

  predicate Sorted(chain: seq<Fragment>) {
    forall i, j :: 0 <= i < j < |chain| ==> Off(chain[i]) < Off(chain[j])
  }

  /** The pieces of one datagram, in order: they follow each other, all but the last announce more. */
  predicate Pieces(pieces: seq<Fragment>) {
    && pieces != [] && Contiguous(pieces, 0) && Sorted(pieces) && DataLength(pieces[|pieces| - 1]) >= 0
    && forall i :: 0 <= i < |pieces| ==> (More(pieces[i]) <==> i < |pieces| - 1)
  }

  /** For this fragment the comparison without the swap comes to the same: it goes to the front, or the raw
      field is above the offsets the offset is above, and no others. */
  predicate Harmless(earlier: seq<Fragment>, x: Fragment) {
    || (forall c :: c in earlier ==> Off(x) < Off(c))
    || (forall c :: c in earlier ==> (RawOff(x) > Off(c) <==> Off(x) > Off(c)))
  }

  predicate AllHarmless(xs: seq<Fragment>) {
    xs != [] ==> AllHarmless(xs[..|xs| - 1]) && Harmless(xs[..|xs| - 1], xs[|xs| - 1])
  }

  predicate Distinct(xs: seq<Fragment>) {
    forall i, j :: 0 <= i < j < |xs| ==> Off(xs[i]) != Off(xs[j])
  }

  // ----- Insertion -----

  lemma SameMembers(xs: seq<Fragment>, ys: seq<Fragment>)
    requires multiset(xs) == multiset(ys)
    ensures forall c :: c in xs <==> c in ys
  {
    forall c
      ensures c in xs <==> c in ys
    {
      assert c in multiset(xs) <==> c in multiset(ys);
    }
  }

  lemma InsertKeepsAll(chain: seq<Fragment>, x: Fragment)
    requires Insert(chain, x).Some?
    ensures multiset(Insert(chain, x).value) == multiset(chain) + multiset{x}
  {
    var i := Place(chain, x);
    assert chain == chain[..i] + chain[i..];
  }

  /** Into a sorted chain a fragment is put in its place exactly when the raw comparison does no harm. */
  lemma InsertSorted(chain: seq<Fragment>, x: Fragment)
    requires Sorted(chain) && forall c :: c in chain ==> Off(c) != Off(x)
    ensures Insert(chain, x).Some? && Sorted(Insert(chain, x).value) <==> Harmless(chain, x)
  {
    if chain != [] && Off(chain[0]) < Off(x) {
      var i := Place(chain, x);
      assert chain[0] in chain;
      if Insert(chain, x).Some? && Sorted(Insert(chain, x).value) {
        PlacedRight(chain, x, i);
      } else if Harmless(chain, x) {
        assert forall j :: 0 <= j < |chain| ==> chain[j] in chain;
        HarmlessPlaces(chain, x, i);
      }
    }
  }

  lemma PlacedRight(chain: seq<Fragment>, x: Fragment, i: nat)
    requires Sorted(chain) && i == Place(chain, x) && Sorted(chain[..i] + [x] + chain[i..])
    ensures Harmless(chain, x)
  {
    var r := chain[..i] + [x] + chain[i..];
    forall c | c in chain
      ensures RawOff(x) > Off(c) <==> Off(x) > Off(c)
    {
      var j :| 0 <= j < |chain| && chain[j] == c;
      assert r[i] == x && r[if j < i then j else j + 1] == c;
    }
  }

  lemma HarmlessPlaces(chain: seq<Fragment>, x: Fragment, i: nat)
    requires Sorted(chain) && i == Place(chain, x) && chain != [] && Off(chain[0]) < Off(x)
    requires forall j :: 0 <= j < |chain| ==> (RawOff(x) > Off(chain[j]) <==> Off(x) > Off(chain[j]))
    requires forall c :: c in chain ==> Off(c) != Off(x)
    ensures i > 0 && Sorted(chain[..i] + [x] + chain[i..])
  {
    forall j | 0 <= j < |chain|
      ensures if j < i then Off(chain[j]) < Off(x) else Off(x) < Off(chain[j])
    {
      assert chain[j] in chain;
      if i < j {
        assert Off(chain[i]) < Off(chain[j]);
      }
    }
    SortedBetween(chain, x, i);
  }

  lemma SortedBetween(chain: seq<Fragment>, x: Fragment, i: nat)
    requires Sorted(chain) && i <= |chain|
    requires forall j :: 0 <= j < |chain| ==> if j < i then Off(chain[j]) < Off(x) else Off(x) < Off(chain[j])
    ensures Sorted(chain[..i] + [x] + chain[i..])
  {
    var r := chain[..i] + [x] + chain[i..];
    assert forall j :: 0 <= j < |r| ==> r[j] == if j < i then chain[j] else if j == i then x else chain[j - 1];
  }

  /** The elements keep their order, whatever is inserted. */
  lemma OrderStays(chain: seq<Fragment>, x: Fragment) returns (i: nat)
    requires Insert(chain, x).Some?
    ensures var r := Insert(chain, x).value;
      |r| == |chain| + 1 && forall j :: 0 <= j < |chain| ==> r[if j < i then j else j + 1] == chain[j]
  {
    i := if chain == [] || Off(chain[0]) > Off(x) then 0 else Place(chain, x);
    assert Insert(chain, x).value == chain[..i] + [x] + chain[i..];
  }

  /** Two elements in the wrong order stay so. */
  lemma UnsortedStays(chain: seq<Fragment>, x: Fragment)
    requires !Sorted(chain) && Insert(chain, x).Some?
    ensures !Sorted(Insert(chain, x).value)
  {
    hide Insert;
    var p, q :| 0 <= p < q < |chain| && Off(chain[p]) >= Off(chain[q]);
    var i := OrderStays(chain, x);
    var r := Insert(chain, x).value;
    assert r[if p < i then p else p + 1] == chain[p] && r[if q < i then q else q + 1] == chain[q];
  }

  lemma {:induction false} AllInserted(xs: seq<Fragment>)
    ensures Inserted(xs).Some? ==> multiset(Inserted(xs).value) == multiset(xs)
  {
    if xs != [] {
      var before := xs[..|xs| - 1];
      AllInserted(before);
      assert xs == before + [xs[|xs| - 1]];
      if Inserted(xs).Some? {
        InsertKeepsAll(Inserted(before).value, xs[|xs| - 1]);
      }
    }
  }

  lemma ArrivedBefore(chain: seq<Fragment>, xs: seq<Fragment>)
    requires xs != [] && Distinct(xs) && multiset(chain) == multiset(xs[..|xs| - 1])
    ensures Harmless(chain, xs[|xs| - 1]) <==> Harmless(xs[..|xs| - 1], xs[|xs| - 1])
    ensures forall c :: c in chain ==> Off(c) != Off(xs[|xs| - 1])
    ensures Distinct(xs[..|xs| - 1])
  {
    SameMembers(chain, xs[..|xs| - 1]);
  }

  /** Any number of fragments, in any order of arrival: the chain is sorted exactly when none of them was put
      in a wrong place. */
  lemma {:induction false} InsertedIsSorted(xs: seq<Fragment>)
    requires Distinct(xs)
    ensures Inserted(xs).Some? && Sorted(Inserted(xs).value) <==> AllHarmless(xs)
  {
    hide Insert, Sorted, Harmless, Distinct;
    if xs != [] {
      var before, x := xs[..|xs| - 1], xs[|xs| - 1];
      ArrivedBefore(before, xs);
      InsertedIsSorted(before);
      AllInserted(before);
      if Inserted(before).Some? {
        var chain := Inserted(before).value;
        ArrivedBefore(chain, xs);
        if Sorted(chain) {
          InsertSorted(chain, x);
        } else if Insert(chain, x).Some? {
          UnsortedStays(chain, x);
        }
      }
    } else {
      EmptyIsSorted();
    }
  }

  lemma EmptyIsSorted()
    ensures Sorted([])
  {
  }

  // ----- Completeness -----

  lemma {:induction false} ContiguousAt(chain: seq<Fragment>, expected: int, i: nat)
    requires Contiguous(chain, expected) && i < |chain|
    ensures i == 0 ==> 8 * Off(chain[0]) == expected
    ensures i + 1 < |chain| ==> 8 * Off(chain[i + 1]) == 8 * Off(chain[i]) + DataLength(chain[i])
  {
    if i > 0 {
      ContiguousAt(chain[1..], expected + DataLength(chain[0]), i - 1);
    } else if |chain| > 1 {
      assert chain[1..][0] == chain[1];
    }
  }

  lemma FirstPiece(chain: seq<Fragment>, pieces: seq<Fragment>)
    requires Pieces(pieces) && Ready(chain) && chain[0] in pieces
    ensures chain[0] == pieces[0]
  {
    ContiguousAt(chain, 0, 0);
    ContiguousAt(pieces, 0, 0);
  }

  /** The element after a piece in a contiguous chain is the next piece. */
  lemma NextPiece(chain: seq<Fragment>, pieces: seq<Fragment>, k: nat)
    requires Pieces(pieces) && Ready(chain) && Distinct(chain) && k + 1 < |chain| && k < |pieces|
    requires chain[k] == pieces[k] && chain[k + 1] in pieces
    ensures k + 1 < |pieces| && chain[k + 1] == pieces[k + 1]
  {
    ContiguousAt(chain, 0, k);
    if k + 1 < |pieces| {
      ContiguousAt(pieces, 0, k);
    }
  }

  /** A chain of pieces that passes the test of the program has all of them: nothing is returned too early. */
  lemma {:induction false} ReadyPrefix(chain: seq<Fragment>, pieces: seq<Fragment>, k: nat)
    requires Pieces(pieces) && Ready(chain) && Distinct(chain) && k < |chain|
    requires forall c :: c in chain ==> c in pieces
    ensures k < |pieces| && forall i :: 0 <= i <= k ==> chain[i] == pieces[i]
  {
    assert chain[k] in chain;
    if k > 0 {
      ReadyPrefix(chain, pieces, k - 1);
      NextPiece(chain, pieces, k - 1);
    } else {
      FirstPiece(chain, pieces);
    }
  }

  lemma ReadyMeansAll(chain: seq<Fragment>, pieces: seq<Fragment>)
    requires Pieces(pieces) && Ready(chain) && Distinct(chain)
    requires forall c :: c in chain ==> c in pieces
    ensures chain == pieces
  {
    ReadyPrefix(chain, pieces, |chain| - 1);
    assert chain[|chain| - 1] == pieces[|chain| - 1];
  }

  lemma SameHead(a: seq<Fragment>, b: seq<Fragment>)
    requires Sorted(a) && Sorted(b) && a != [] && forall c :: c in a <==> c in b
    ensures b != [] && a[0] == b[0]
  {
    assert a[0] in b;
    assert b[0] in a;
  }

  lemma SameRest(a: seq<Fragment>, b: seq<Fragment>)
    requires Sorted(a) && Sorted(b) && a != [] && b != [] && a[0] == b[0] && multiset(a) == multiset(b)
    ensures Sorted(a[1..]) && Sorted(b[1..]) && multiset(a[1..]) == multiset(b[1..])
  {
    RestMembers(a);
    RestMembers(b);
  }

  lemma RestMembers(a: seq<Fragment>)
    requires a != []
    ensures multiset(a[1..]) == multiset(a) - multiset{a[0]}
  {
    assert a == [a[0]] + a[1..];
  }

  lemma {:induction false} SortedIsUnique(a: seq<Fragment>, b: seq<Fragment>)
    requires Sorted(a) && Sorted(b) && multiset(a) == multiset(b)
    ensures a == b
  {
    if a != [] {
      SameMembers(a, b);
      SameHead(a, b);
      hide Sorted;
      SameRest(a, b);
      SortedIsUnique(a[1..], b[1..]);
      assert a == [a[0]] + a[1..] && b == [b[0]] + b[1..];
    } else {
      assert |multiset(b)| == |b|;
    }
  }

  // ----- Reassembly undoes fragmentation -----

  lemma PiecesOffsets(xs: seq<Fragment>, pieces: seq<Fragment>)
    requires Pieces(pieces) && multiset(xs) <= multiset(pieces)
    ensures Distinct(xs) && forall c :: c in xs ==> c in pieces
  {
    forall c | c in xs
      ensures c in pieces
    {
      assert c in multiset(xs);
      assert c in multiset(pieces);
    }
    forall i, j | 0 <= i < j < |xs|
      ensures Off(xs[i]) != Off(xs[j])
    {
      if Off(xs[i]) == Off(xs[j]) {
        SamePiece(xs, pieces, i, j);
      }
    }
  }

  lemma SamePiece(xs: seq<Fragment>, pieces: seq<Fragment>, i: nat, j: nat)
    requires Pieces(pieces) && multiset(xs) <= multiset(pieces) && i < j < |xs|
    requires xs[i] in pieces && xs[j] in pieces
    ensures Off(xs[i]) != Off(xs[j])
  {
    var p :| 0 <= p < |pieces| && pieces[p] == xs[i];
    var q :| 0 <= q < |pieces| && pieces[q] == xs[j];
    if p == q {
      Twice(xs, i, j);
      Once(pieces, p);
    }
  }

  lemma Twice(xs: seq<Fragment>, i: nat, j: nat)
    requires i < j < |xs| && xs[i] == xs[j]
    ensures multiset(xs)[xs[i]] >= 2
  {
    assert xs == xs[..j] + [xs[j]] + xs[j + 1..];
    assert xs[..j][i] == xs[i];
    assert xs[i] in multiset(xs[..j]);
  }

  lemma Once(pieces: seq<Fragment>, p: nat)
    requires Sorted(pieces) && p < |pieces|
    ensures multiset(pieces)[pieces[p]] == 1
  {
    var x := pieces[p];
    assert pieces == pieces[..p] + [x] + pieces[p + 1..];
    assert x !in pieces[..p] && x !in pieces[p + 1..];
    assert x !in multiset(pieces[..p]) && x !in multiset(pieces[p + 1..]);
  }

  /** The chain becomes the datagram exactly when no arrival was harmed by the missing swap. */
  lemma ChainIsDatagram(xs: seq<Fragment>, pieces: seq<Fragment>)
    requires Pieces(pieces) && multiset(xs) == multiset(pieces)
    ensures Inserted(xs) == Some(pieces) <==> AllHarmless(xs)
  {
    PiecesOffsets(xs, pieces);
    InsertedIsSorted(xs);
    AllInserted(xs);
    if AllHarmless(xs) {
      SortedIsUnique(Inserted(xs).value, pieces);
    }
  }

  /** A chain of some of the pieces is ready only if it is the datagram. */
  lemma ReadyIsDatagram(chain: seq<Fragment>, xs: seq<Fragment>, pieces: seq<Fragment>)
    requires Pieces(pieces) && multiset(chain) == multiset(xs) && multiset(xs) <= multiset(pieces)
    ensures Ready(chain) <==> chain == pieces
  {
    PiecesOffsets(chain, pieces);
    if Ready(chain) {
      ReadyMeansAll(chain, pieces);
    }
  }

  /** As long as a piece is missing, the context holds what has been inserted so far, and nothing is returned.
      The machine has crashed only if one of these insertions did. */
  lemma {:induction false} RunTracks(events: seq<Event>, key: Key, pieces: seq<Fragment>)
    requires Pieces(pieces) && Undisturbed(events, key)
    requires multiset(Own(events, key)) < multiset(pieces)
    ensures Tracks(Run(events), key, Own(events, key))
    ensures events != [] && IsOwn(events, key) ==> Returned(events).None?
    decreases |events|
  {
    hide Pieces, Defrag, Inserted, Tracks, After;
    if events == [] {
      NothingTracked(key);
    } else {
      var before, last := events[..|events| - 1], events[|events| - 1];
      if last != Expire(key) {
        RunTracks(before, key, pieces);
      }
      if IsOwn(events, key) {
        assert multiset(Own(events, key)) == multiset(Own(before, key)) + multiset{last.f};
        OwnTracked(Run(before), last.f, Own(before, key), pieces);
      } else if last == Expire(key) {
        ForgottenAtExpiry(events, key);
      } else {
        assert Own(events, key) == Own(before, key);
        OtherTracked(Run(before), last, key, Own(before, key));
      }
    }
  }

  /** What the machine has of one datagram. */
  predicate Tracks(m: Machine, key: Key, xs: seq<Fragment>) {
    match m
    case Running(cs) => UniqueKeys(cs) && Inserted(xs) == Some(ChainFor(cs, key))
    case Crashed => Inserted(xs).None?
  }

  lemma {:induction false} KeysStayUnique(events: seq<Event>)
    ensures Run(events).Running? ==> UniqueKeys(Run(events).cs)
  {
    if events != [] {
      var before, last := events[..|events| - 1], events[|events| - 1];
      KeysStayUnique(before);
      if Run(before).Running? {
        var cs := Run(before).cs;
        match last
        case Expire(key) => DropContext(cs, key, key);
        case Arrive(f) =>
          if !Defrag(cs, f).Crash? {
            OnlyItsContext(cs, f, f.key);
          }
      }
    }
  }

  /** When the timer of a datagram goes off, everything that has arrived of it is forgotten. */
  lemma {:induction false} ForgottenAtExpiry(events: seq<Event>, key: Key)
    requires events != [] && events[|events| - 1] == Expire(key) && Run(events[..|events| - 1]).Running?
    ensures Run(events).Running? && ChainFor(Run(events).cs, key) == []
    ensures Own(events, key) == [] && Tracks(Run(events), key, [])
  {
    var before := events[..|events| - 1];
    KeysStayUnique(before);
    DropContext(Run(before).cs, key, key);
  }

  lemma NothingTracked(key: Key)
    ensures Tracks(Running([]), key, [])
  {
  }

  lemma OtherTracked(m: Machine, e: Event, key: Key, xs: seq<Fragment>)
    requires Tracks(m, key, xs) && (if e.Expire? then e.key != key else e.f.key != key)
    requires e.Arrive? && m.Running? ==> !Defrag(m.cs, e.f).Crash?
    ensures Tracks(After(m, e), key, xs)
  {
    hide Insert, Without, WithChain, Find, ChainFor, Inserted;
    if m.Running? {
      if e.Expire? {
        DropContext(m.cs, e.key, key);
      } else {
        OnlyItsContext(m.cs, e.f, key);
      }
    }
  }

  lemma OwnTracked(m: Machine, x: Fragment, xs: seq<Fragment>, pieces: seq<Fragment>)
    requires Pieces(pieces) && Tracks(m, x.key, xs) && multiset(xs + [x]) < multiset(pieces)
    ensures Tracks(After(m, Arrive(x)), x.key, xs + [x])
    ensures m.Running? ==> !Defrag(m.cs, x).Done?
  {
    hide Insert, Without, WithChain, Find, ChainFor, Pieces;
    assert (xs + [x])[..|xs|] == xs;
    if m.Running? {
      OwnArrival(m.cs, x, xs, pieces);
      if Defrag(m.cs, x).Done? {
        AllInserted(xs + [x]);
      }
    }
  }

  predicate IsOwn(events: seq<Event>, key: Key)
    requires events != []
  {
    events[|events| - 1].Arrive? && events[|events| - 1].f.key == key
  }

  lemma OwnArrival(cs: seq<Context>, x: Fragment, xs: seq<Fragment>, pieces: seq<Fragment>)
    requires Pieces(pieces) && UniqueKeys(cs) && Inserted(xs) == Some(ChainFor(cs, x.key))
    requires multiset(xs + [x]) <= multiset(pieces)
    ensures Inserted(xs + [x]) == Insert(ChainFor(cs, x.key), x)
    ensures Defrag(cs, x).Crash? <==> Inserted(xs + [x]).None?
    ensures Defrag(cs, x).Done? <==> Inserted(xs + [x]) == Some(pieces)
    ensures Defrag(cs, x).Done? ==> Defrag(cs, x).chain == pieces
    ensures !Defrag(cs, x).Crash? ==> UniqueKeys(Defrag(cs, x).cs)
    ensures Defrag(cs, x).Kept? ==> Some(ChainFor(Defrag(cs, x).cs, x.key)) == Inserted(xs + [x])
  {
    assert (xs + [x])[..|xs|] == xs;
    if Inserted(xs + [x]).Some? {
      PiecesOffsets(xs + [x], pieces);
      AllInserted(xs + [x]);
      ReadyIsDatagram(Inserted(xs + [x]).value, xs + [x], pieces);
      OnlyItsContext(cs, x, x.key);
    }
  }

  /** Reassembly undoes fragmentation. The pieces of a datagram arrive in any order, each once, among fragments
      of other datagrams. At the last of them the whole datagram is returned, in order, and its context is gone,
      exactly when every arrival was harmless; before that nothing is returned for it. */
  lemma {:induction false} Reassembles(events: seq<Event>, key: Key, pieces: seq<Fragment>)
    requires Pieces(pieces) && Undisturbed(events, key) && events != [] && IsOwn(events, key)
    requires multiset(Own(events, key)) == multiset(pieces)
    ensures Returned(events) == Some(pieces) <==> AllHarmless(Own(events, key))
    ensures Returned(events) == Some(pieces) || Returned(events) == None
    ensures Returned(events).Some? ==> Run(events).Running? && ChainFor(Run(events).cs, key) == []
  {
    var before, x := events[..|events| - 1], events[|events| - 1].f;
    var xs := Own(before, key);
    assert multiset(xs + [x]) == multiset(xs) + multiset{x};
    RunTracks(before, key, pieces);
    assert Tracks(Run(before), key, xs);
    ChainIsDatagram(xs + [x], pieces);
    assert (xs + [x])[..|xs|] == xs;
    if Run(before).Running? {
      OwnArrival(Run(before).cs, x, xs, pieces);
      if Defrag(Run(before).cs, x).Done? {
        OnlyItsContext(Run(before).cs, x, key);
      }
    }
  }

  lemma {:induction false} OwnSinceExpiry(events: seq<Event>, again: seq<Event>, key: Key)
    ensures Own(events + [Expire(key)] + again, key) == Own(again, key)
    decreases |again|
  {
    var all := events + [Expire(key)] + again;
    if again != [] {
      assert all[..|all| - 1] == events + [Expire(key)] + again[..|again| - 1];
      OwnSinceExpiry(events, again[..|again| - 1], key);
    } else {
      assert all[|all| - 1] == Expire(key);
    }
  }

  /** Whatever has arrived and been lost before: when the timer has gone off and the pieces are sent again, the
      datagram is put together, exactly if they do no harm this time. */
  lemma {:induction false} SentAgainReassembles(events: seq<Event>, again: seq<Event>, key: Key, pieces: seq<Fragment>)
    requires Pieces(pieces) && Undisturbed(events + [Expire(key)] + again, key) && again != [] && IsOwn(again, key)
    requires multiset(Own(again, key)) == multiset(pieces)
    ensures Returned(events + [Expire(key)] + again) == Some(pieces) <==> AllHarmless(Own(again, key))
  {
    hide Pieces, Undisturbed, Returned, AllHarmless, Run;
    OwnSinceExpiry(events, again, key);
    Reassembles(events + [Expire(key)] + again, key, pieces);
  }

  // ----- What is handed on -----

  /** Header and data are there, as the lengths in the header say. */
  predicate WellFormed(f: Fragment) {
    5 <= f.ihl <= 15 && 4 * f.ihl <= f.totLen == |f.bytes| && f.totLen < TWO16
  }

  function Data(f: Fragment): seq<Checksum.Byte>
    requires WellFormed(f)
  {
    f.bytes[4 * f.ihl..]
  }

  predicate AllWellFormed(chain: seq<Fragment>) {
    forall i :: 0 <= i < |chain| ==> WellFormed(chain[i])
  }

  /** The data of the datagram. */
  function Datagram(chain: seq<Fragment>): seq<Checksum.Byte>
    requires AllWellFormed(chain)
  {
    if chain == [] then [] else Data(chain[0]) + Datagram(chain[1..])
  }

  // ----- Cutting a datagram -----

  function MakePiece(key: Key, off: nat, more: bool, header: seq<Checksum.Byte>, data: seq<Checksum.Byte>): Fragment {
    Fragment(key, off + if more then 0x2000 else 0, |header| / 4, |header| + |data|, header + data)
  }

  /** The data d, from offset `off` on, cut after each of these numbers of 8-byte units, one header for each piece. */
  function Cut(key: Key, d: seq<Checksum.Byte>, off: nat, sizes: seq<nat>, headers: seq<seq<Checksum.Byte>>): seq<Fragment>
    requires CanCut(d, off, sizes, headers)
  {
    if sizes == [] then [MakePiece(key, off, false, headers[0], d)]
    else [MakePiece(key, off, true, headers[0], d[..8 * sizes[0]])]
         + Cut(key, d[8 * sizes[0]..], off + sizes[0], sizes[1..], headers[1..])
  }

  /** Each piece is a packet, and its offset fits the field. */
  predicate CanCut(d: seq<Checksum.Byte>, off: nat, sizes: seq<nat>, headers: seq<seq<Checksum.Byte>>) {
    && |headers| == |sizes| + 1 && off < 0x2000
    && 20 <= |headers[0]| <= 60 && |headers[0]| % 4 == 0
    && if sizes == [] then |headers[0]| + |d| < TWO16
       else
         && sizes[0] > 0 && 8 * sizes[0] <= |d| && |headers[0]| + 8 * sizes[0] < TWO16
         && CanCut(d[8 * sizes[0]..], off + sizes[0], sizes[1..], headers[1..])
  }

  lemma MadePiece(key: Key, off: nat, more: bool, header: seq<Checksum.Byte>, data: seq<Checksum.Byte>)
    requires off < 0x2000 && 20 <= |header| <= 60 && |header| % 4 == 0 && |header| + |data| < TWO16
    ensures var f := MakePiece(key, off, more, header, data);
      WellFormed(f) && Data(f) == data && Off(f) == off && (More(f) <==> more) && DataLength(f) == |data| && f.key == key
  {
  }

  /** What reassembly expects, from offset `off` on, with the data d. */
  predicate Follows(r: seq<Fragment>, key: Key, off: nat, d: seq<Checksum.Byte>) {
    && r != [] && Contiguous(r, 8 * off) && Sorted(r) && DataLength(r[|r| - 1]) >= 0
    && (forall i :: 0 <= i < |r| ==> (More(r[i]) <==> i < |r| - 1) && r[i].key == key && Off(r[i]) >= off)
    && AllWellFormed(r) && Datagram(r) == d
  }

  /** What is cut is right, whatever the sizes, and the data are all there. */
  lemma {:induction false} CutIsRight(key: Key, d: seq<Checksum.Byte>, off: nat, sizes: seq<nat>,
                                      headers: seq<seq<Checksum.Byte>>)
    requires CanCut(d, off, sizes, headers)
    ensures Follows(Cut(key, d, off, sizes, headers), key, off, d)
    decreases |sizes|
  {
    hide Follows, MakePiece, WellFormed, Data, Off, More, DataLength;
    if sizes == [] {
      MadePiece(key, off, false, headers[0], d);
      OnePiece(MakePiece(key, off, false, headers[0], d));
    } else {
      var n := 8 * sizes[0];
      CutIsRight(key, d[n..], off + sizes[0], sizes[1..], headers[1..]);
      MadePiece(key, off, true, headers[0], d[..n]);
      var rest := Cut(key, d[n..], off + sizes[0], sizes[1..], headers[1..]);
      Prepended(MakePiece(key, off, true, headers[0], d[..n]), rest, off + sizes[0], d[n..]);
      assert d == d[..n] + d[n..];
    }
  }

  lemma OnePiece(x: Fragment)
    requires WellFormed(x) && !More(x)
    ensures Follows([x], x.key, Off(x), Data(x))
  {
    assert [x][1..] == [];
  }

  lemma Prepended(x: Fragment, rest: seq<Fragment>, off: nat, d: seq<Checksum.Byte>)
    requires WellFormed(x) && More(x) && Follows(rest, x.key, off, d)
    requires Off(x) < off && 8 * Off(x) + DataLength(x) == 8 * off
    ensures Follows([x] + rest, x.key, Off(x), Data(x) + d)
  {
    hide WellFormed, Data, Off, More, DataLength;
    var r := [x] + rest;
    assert r[1..] == rest;
    assert forall i :: 0 < i < |r| ==> r[i] == rest[i - 1];
    assert AllWellFormed(r);
  }

  /** The pieces of the data d. */
  function Split(key: Key, d: seq<Checksum.Byte>, sizes: seq<nat>, headers: seq<seq<Checksum.Byte>>): (r: seq<Fragment>)
    requires CanCut(d, 0, sizes, headers)
    ensures Pieces(r) && AllWellFormed(r) && Datagram(r) == d
  {
    CutIsRight(key, d, 0, sizes, headers);
    Cut(key, d, 0, sizes, headers)
  }

  /** So whatever the data and however they are cut: when the last piece has arrived the data are returned, once
      what is left of the headers is cut off, exactly if every arrival was harmless; otherwise nothing is. */
  lemma {:induction false} SplitReassembles(events: seq<Event>, key: Key, d: seq<Checksum.Byte>, sizes: seq<nat>,
                         headers: seq<seq<Checksum.Byte>>)
    requires CanCut(d, 0, sizes, headers) && Undisturbed(events, key) && events != [] && IsOwn(events, key)
    requires multiset(Own(events, key)) == multiset(Split(key, d, sizes, headers))
    ensures Returned(events).Some? <==> AllHarmless(Own(events, key))
    ensures var r := Returned(events); r.Some? ==> AllWellFormed(r.value) && Datagram(r.value) == d && Trimmed(r.value) == d
  {
    var pieces := Split(key, d, sizes, headers);
    hide Pieces, AllHarmless, Undisturbed, Split, CanCut;
    Reassembles(events, key, pieces);
    TrimmedIsDatagram(pieces);
  }

  /** The windows of the fragments after the first: the program skips ihl bytes of each, not ihl words. */
  function Windows(chain: seq<Fragment>): seq<Checksum.Byte>
    requires AllWellFormed(chain)
  {
    if chain == [] then [] else chain[0].bytes[chain[0].ihl..] + Windows(chain[1..])
  }

  function Delivered(chain: seq<Fragment>): seq<Checksum.Byte>
    requires chain != [] && AllWellFormed(chain)
  {
    Data(chain[0]) + Windows(chain[1..])
  }

  lemma {:induction false} WindowsAreLonger(chain: seq<Fragment>)
    requires AllWellFormed(chain)
    ensures |Windows(chain)| >= |Datagram(chain)| + 15 * |chain|
  {
    if chain != [] {
      WindowsAreLonger(chain[1..]);
    }
  }

  /** What the upper layer gets is the datagram exactly if that was not fragmented: every later piece brings the
      last three quarters of its IP header along. */
  lemma {:induction false} DeliveredExactly(chain: seq<Fragment>)
    requires chain != [] && AllWellFormed(chain)
    ensures Delivered(chain) == Datagram(chain) <==> |chain| == 1
  {
    WindowsAreLonger(chain[1..]);
    if |chain| == 1 {
      assert chain[1..] == [];
    }
  }

  /** The pieces themselves are all there and in order: cutting the rest of the headers off gives the datagram. */
  function Trimmed(chain: seq<Fragment>): seq<Checksum.Byte>
    requires AllWellFormed(chain)
  {
    if chain == [] then [] else chain[0].bytes[chain[0].ihl..][3 * chain[0].ihl..] + Trimmed(chain[1..])
  }

  lemma {:induction false} TrimmedIsDatagram(chain: seq<Fragment>)
    requires AllWellFormed(chain)
    ensures Trimmed(chain) == Datagram(chain)
  {
    if chain != [] {
      TrimmedIsDatagram(chain[1..]);
      assert chain[0].bytes[chain[0].ihl..][3 * chain[0].ihl..] == Data(chain[0]);
    }
  }

  function Low16(x: int): nat {
    x % TWO16
  }

  /** The total length written into the first header: computed, and cut off twice, in 16 bits. */
  function NewTotLen(chain: seq<Fragment>): nat
    requires chain != []
  {
    var last := chain[|chain| - 1];
    Low16(Low16(8 * Off(last) + DataLength(last)) + 4 * chain[0].ihl)
  }

  lemma {:induction false} DatagramLength(chain: seq<Fragment>, expected: int)
    requires chain != [] && AllWellFormed(chain) && Contiguous(chain, expected)
    ensures expected + |Datagram(chain)| == 8 * Off(chain[|chain| - 1]) + DataLength(chain[|chain| - 1])
  {
    if |chain| > 1 {
      DatagramLength(chain[1..], expected + DataLength(chain[0]));
    } else {
      assert chain[1..] == [];
    }
  }

  /** It is the length of the reassembled packet, unless that is too long to be one. */
  lemma {:induction false} NewTotLenExactly(chain: seq<Fragment>)
    requires Ready(chain) && AllWellFormed(chain)
    ensures NewTotLen(chain) == 4 * chain[0].ihl + |Datagram(chain)| <==> 4 * chain[0].ihl + |Datagram(chain)| < TWO16
  {
    hide Low16;
    DatagramLength(chain, 0);
    TwiceCut(|Datagram(chain)|, 4 * chain[0].ihl);
  }

  lemma TwiceCut(d: nat, h: nat)
    ensures Low16(Low16(d) + h) == d + h <==> d + h < TWO16
  {
    if d + h < TWO16 {
      assert Low16(d) == d;
    }
  }

  // ----- Where it goes wrong -----

  function Piece(key: Key, field: nat, length: nat): (f: Fragment)
    ensures f.key == key && f.field == field && DataLength(f) == length
  {
    Fragment(key, field, 5, 20 + length, seq(20 + length, _ => 0))
  }

  /** Two pieces that arrive in order crash the program when the first has 256 bytes: the second one's offset,
      32, is 0 when its bytes are not swapped, so the search stops before the first element. */
  lemma InOrderCanCrash(key: Key)
    ensures var p, q := Piece(key, 0x2000, 256), Piece(key, 32, 8);
      Pieces([p, q]) && Run([Arrive(p), Arrive(q)]) == Crashed
  {
    hide Contiguous;
    var p, q := Piece(key, 0x2000, 256), Piece(key, 32, 8);
    PiecesOfTwo(p, q);
    assert [Arrive(p), Arrive(q)][..1] == [Arrive(p)] && [Arrive(p)][..0] == [];
    FirstInserted(p);
    assert Find([], key) == 0 && WithChain([], key, [p]) == [Context(key, [p])];
    assert Run([Arrive(p)]) == Running([Context(key, [p])]);
    assert ChainFor([Context(key, [p])], key) == [p];
    assert Insert([p], q) == None;
  }

  lemma PiecesOfTwo(p: Fragment, q: Fragment)
    requires Off(p) == 0 && 8 * Off(q) == DataLength(p) > 0 && DataLength(q) >= 0 && More(p) && !More(q)
    ensures Pieces([p, q])
  {
    assert [p, q][1..] == [q] && [q][1..] == [];
    assert Contiguous([q], 8 * Off(q));
  }

  lemma FirstInserted(x: Fragment)
    ensures Insert([], x) == Some([x]) && Inserted([x]) == Some([x])
  {
    assert [x] + [] == [x];
    assert [x][..0] == [];
  }

  lemma InsertedLast(x: Fragment, y: Fragment)
    requires Off(x) < Off(y) && Off(x) < RawOff(y)
    ensures Inserted([x, y]) == Some([x, y])
  {
    FirstInserted(x);
    assert [x, y][..1] == [x];
    assert [x][1..] == [];
    assert Place([x], y) == 1;
    assert [x] + [y] + [] == [x, y];
  }

  lemma PiecesOfThree(p: Fragment, q: Fragment, r: Fragment)
    requires Off(p) == 0 && 8 * Off(q) == DataLength(p) && 8 * Off(r) == 8 * Off(q) + DataLength(q)
    requires 0 < Off(q) < Off(r) && DataLength(r) >= 0 && More(p) && More(q) && !More(r)
    ensures Pieces([p, q, r])
  {
    assert [p, q, r][1..] == [q, r] && [q, r][1..] == [r] && [r][1..] == [];
    assert Contiguous([r], 8 * Off(r)) && Contiguous([q, r], DataLength(p));
  }

  /** Two elements are in the wrong order. */
  predicate Inverted(chain: seq<Fragment>) {
    exists p, q :: 0 <= p < q < |chain| && Off(chain[p]) > Off(chain[q])
  }

  lemma InvertedStays(chain: seq<Fragment>, x: Fragment)
    requires Inverted(chain) && Insert(chain, x).Some?
    ensures Inverted(Insert(chain, x).value)
  {
    hide Insert;
    var p, q :| 0 <= p < q < |chain| && Off(chain[p]) > Off(chain[q]);
    var i := OrderStays(chain, x);
    var r := Insert(chain, x).value;
    assert r[if p < i then p else p + 1] == chain[p] && r[if q < i then q else q + 1] == chain[q];
  }

  predicate NoNegativeLength(chain: seq<Fragment>) {
    forall i :: 0 <= i < |chain| ==> DataLength(chain[i]) >= 0
  }

  lemma {:induction false} ContiguousAscends(chain: seq<Fragment>, expected: int, i: nat)
    requires Contiguous(chain, expected) && NoNegativeLength(chain) && i < |chain|
    ensures 8 * Off(chain[i]) >= expected
  {
    if i > 0 {
      assert forall j :: 0 <= j < |chain[1..]| ==> chain[1..][j] == chain[j + 1];
      ContiguousAscends(chain[1..], expected + DataLength(chain[0]), i - 1);
    }
  }

  /** Such a chain is not taken for complete. */
  lemma {:induction false} InvertedIsNotContiguous(chain: seq<Fragment>, expected: int, p: nat, q: nat)
    requires NoNegativeLength(chain) && p < q < |chain| && Off(chain[p]) > Off(chain[q])
    ensures !Contiguous(chain, expected)
  {
    if Contiguous(chain, expected) {
      assert forall j :: 0 <= j < |chain[1..]| ==> chain[1..][j] == chain[j + 1];
      if p == 0 {
        ContiguousAscends(chain[1..], expected + DataLength(chain[0]), q - 1);
      } else {
        InvertedIsNotContiguous(chain[1..], expected + DataLength(chain[0]), p - 1, q - 1);
      }
    }
  }

  /** The program has crashed, or has the fragments of this datagram in a wrong order. */
  predicate Lost(m: Machine, key: Key) {
    m.Running? ==> UniqueKeys(m.cs) && Inverted(ChainFor(m.cs, key)) && NoNegativeLength(ChainFor(m.cs, key))
  }

  /** These events leave the timer of the datagram alone; lengths are not negative. */
  predicate Ordinary(events: seq<Event>, key: Key) {
    forall i :: 0 <= i < |events| ==> match events[i]
      case Expire(k) => k != key
      case Arrive(f) => DataLength(f) >= 0
  }

  lemma LostStep(m: Machine, e: Event, key: Key)
    requires Lost(m, key) && Ordinary([e], key)
    ensures Lost(After(m, e), key)
    ensures m.Running? && e.Arrive? && e.f.key == key ==> !Defrag(m.cs, e.f).Done?
  {
    assert [e][0] == e;
    if m.Running? {
      if e.Expire? {
        DropContext(m.cs, e.key, key);
      } else {
        if e.f.key == key {
          LostArrival(ChainFor(m.cs, key), e.f);
        }
        if !Defrag(m.cs, e.f).Crash? {
          OnlyItsContext(m.cs, e.f, key);
        }
      }
    }
  }

  lemma LostArrival(chain: seq<Fragment>, x: Fragment)
    requires Inverted(chain) && NoNegativeLength(chain) && DataLength(x) >= 0
    ensures Insert(chain, x).Some? ==>
      var r := Insert(chain, x).value; Inverted(r) && NoNegativeLength(r) && !Ready(r)
  {
    if Insert(chain, x).Some? {
      var r := Insert(chain, x).value;
      InvertedStays(chain, x);
      var p, q :| 0 <= p < q < |r| && Off(r[p]) > Off(r[q]);
      InvertedIsNotContiguous(r, 0, p, q);
    }
  }

  /** Nothing is returned for it any more, whatever arrives, until the timer drops the context. */
  lemma {:induction false} LostForGood(events: seq<Event>, more: seq<Event>, key: Key)
    requires Lost(Run(events), key) && Ordinary(more, key)
    ensures Lost(Run(events + more), key)
    ensures more != [] && IsOwn(events + more, key) ==> Returned(events + more) == None
    decreases |more|
  {
    hide Lost, After, Defrag;
    if more == [] {
      assert events + more == events;
    } else {
      var last := |more| - 1;
      assert (events + more)[..|events + more| - 1] == events + more[..last];
      LostForGood(events, more[..last], key);
      LostStep(Run(events + more[..last]), more[last], key);
    }
  }

  /** All the pieces of a datagram have arrived, and one arrival was harmed: the datagram is never put together,
      not even from pieces that are sent again, as long as the timer does not drop the context. */
  lemma {:induction false} HarmedIsLost(events: seq<Event>, more: seq<Event>, key: Key, pieces: seq<Fragment>)
    requires Pieces(pieces) && Undisturbed(events, key) && events != [] && IsOwn(events, key)
    requires multiset(Own(events, key)) == multiset(pieces) && !AllHarmless(Own(events, key))
    requires Ordinary(more, key)
    ensures more == [] || IsOwn(events + more, key) ==> Returned(events + more) == None
  {
    Reassembles(events, key, pieces);
    assert more == [] ==> events + more == events;
    hide Returned, AllHarmless;
    HarmedIsLostAtOnce(events, key, pieces);
    LostForGood(events, more, key);
  }

  lemma {:induction false} HarmedIsLostAtOnce(events: seq<Event>, key: Key, pieces: seq<Fragment>)
    requires Pieces(pieces) && Undisturbed(events, key) && events != [] && IsOwn(events, key)
    requires multiset(Own(events, key)) == multiset(pieces) && !AllHarmless(Own(events, key))
    ensures Lost(Run(events), key)
  {
    var before, x := events[..|events| - 1], events[|events| - 1].f;
    var xs := Own(before, key);
    assert multiset(xs + [x]) == multiset(xs) + multiset{x};
    RunTracks(before, key, pieces);
    assert (xs + [x])[..|xs|] == xs;
    if Run(events).Running? {
      OwnArrival(Run(before).cs, x, xs, pieces);
      ChainIsDatagram(xs + [x], pieces);
      HarmedIsInverted(xs + [x], pieces);
    }
  }

  lemma {:induction false} HarmedIsInverted(xs: seq<Fragment>, pieces: seq<Fragment>)
    requires Pieces(pieces) && multiset(xs) == multiset(pieces) && Inserted(xs).Some? && !AllHarmless(xs)
    ensures Inverted(Inserted(xs).value) && NoNegativeLength(Inserted(xs).value)
  {
    hide Pieces, Inserted, AllHarmless, Off;
    var chain := Inserted(xs).value;
    AllInserted(xs);
    PiecesOffsets(xs, pieces);
    PiecesOffsets(chain, pieces);
    InsertedIsSorted(xs);
    var p, q :| 0 <= p < q < |chain| && Off(chain[p]) >= Off(chain[q]);
    PiecesHaveLengths(chain, pieces);
  }

  lemma PiecesHaveLengths(chain: seq<Fragment>, pieces: seq<Fragment>)
    requires Pieces(pieces) && forall c :: c in chain ==> c in pieces
    ensures NoNegativeLength(chain)
  {
    forall i | 0 <= i < |chain|
      ensures DataLength(chain[i]) >= 0
    {
      assert chain[i] in pieces;
      var j :| 0 <= j < |pieces| && pieces[j] == chain[i];
      ContiguousAt(pieces, 0, j);
    }
  }

  /** It happens: three full pieces of which the middle one comes last are never put together. */
  lemma LateMiddleIsLost(key: Key, more: seq<Event>)
    requires Ordinary(more, key)
    ensures var p, q, r := Piece(key, 0x2000, 1480), Piece(key, 0x2000 + 185, 1480), Piece(key, 370, 100);
      var events := [Arrive(p), Arrive(r), Arrive(q)];
      && Pieces([p, q, r]) && !Run(events).Crashed?
      && (more == [] || IsOwn(events + more, key) ==> Returned(events + more) == None)
  {
    var p, q, r := Piece(key, 0x2000, 1480), Piece(key, 0x2000 + 185, 1480), Piece(key, 370, 100);
    LateMiddle(key);
    var events := [Arrive(p), Arrive(r), Arrive(q)];
    OwnOfThree(p, r, q);
    hide Pieces, AllHarmless, Inserted, Piece;
    assert multiset([p, r, q]) == multiset([p, q, r]);
    HarmedIsLost(events, more, key, [p, q, r]);
    RunOfThree(p, r, q, [p, q, r]);
  }

  lemma OwnOfThree(x: Fragment, y: Fragment, z: Fragment)
    requires x.key == y.key == z.key
    ensures var events := [Arrive(x), Arrive(y), Arrive(z)];
      Own(events, x.key) == [x, y, z] && Undisturbed(events, x.key) && IsOwn(events, x.key)
  {
    var events := [Arrive(x), Arrive(y), Arrive(z)];
    assert events[..2][..1] == [Arrive(x)] && events[..2] == [Arrive(x), Arrive(y)] && [Arrive(x)][..0] == [];
    hide Run;
    assert Undisturbed([], x.key);
    assert Own([Arrive(x)], x.key) == [x] && Undisturbed([Arrive(x)], x.key);
    assert Own(events[..2], x.key) == [x, y] && Undisturbed(events[..2], x.key);
  }

  lemma RunOfThree(x: Fragment, y: Fragment, z: Fragment, pieces: seq<Fragment>)
    requires x.key == y.key == z.key && Pieces(pieces) && multiset([x, y, z]) == multiset(pieces)
    requires Inserted([x, y, z]).Some?
    ensures !Run([Arrive(x), Arrive(y), Arrive(z)]).Crashed?
  {
    var events := [Arrive(x), Arrive(y), Arrive(z)];
    OwnOfThree(x, y, z);
    var before := events[..2];
    OwnOfTwo(x, y, z);
    assert multiset([x, y, z]) == multiset([x, y]) + multiset{z};
    hide Pieces, Inserted, Undisturbed;
    RunTracks(before, x.key, pieces);
    assert [x, y, z][..2] == [x, y] && [x, y] + [z] == [x, y, z];
    SomeBefore([x, y, z]);
    assert Tracks(Run(before), x.key, [x, y]);
    OwnArrival(Run(before).cs, z, [x, y], pieces);
  }

  lemma OwnOfTwo(x: Fragment, y: Fragment, z: Fragment)
    requires x.key == y.key == z.key
    ensures Own([Arrive(x), Arrive(y), Arrive(z)][..2], x.key) == [x, y]
    ensures Undisturbed([Arrive(x), Arrive(y), Arrive(z)], x.key) ==> Undisturbed([Arrive(x), Arrive(y), Arrive(z)][..2], x.key)
  {
    var events := [Arrive(x), Arrive(y), Arrive(z)];
    assert events[..2] == [Arrive(x), Arrive(y)] && events[..2][..1] == [Arrive(x)] && [Arrive(x)][..0] == [];
    assert Own([Arrive(x)], x.key) == [x];
  }

  lemma SomeBefore(xs: seq<Fragment>)
    requires xs != [] && Inserted(xs).Some?
    ensures Inserted(xs[..|xs| - 1]).Some?
  {
  }

  lemma LateMiddle(key: Key)
    ensures var p, q, r := Piece(key, 0x2000, 1480), Piece(key, 0x2000 + 185, 1480), Piece(key, 370, 100);
      Pieces([p, q, r]) && Inserted([p, r, q]) == Some([p, r, q]) && !AllHarmless([p, r, q])
  {
    var p, q, r := Piece(key, 0x2000, 1480), Piece(key, 0x2000 + 185, 1480), Piece(key, 370, 100);
    PiecesOfThree(p, q, r);
    InsertedLast(p, r);
    AppendedThird(p, r, q);
    assert r in [p, r] && p in [p, r];
    assert [p, r, q][..2] == [p, r];
  }

  lemma AppendedThird(p: Fragment, r: Fragment, q: Fragment)
    requires Inserted([p, r]) == Some([p, r])
    requires Off(p) <= Off(q) && RawOff(q) > Off(p) && RawOff(q) > Off(r)
    ensures Inserted([p, r, q]) == Some([p, r, q])
  {
    assert [p, r, q][..2] == [p, r];
    assert [p, r][1..] == [r] && [r][1..] == [];
    assert Place([r], q) == 1 && Place([p, r], q) == 2;
    assert [p, r][..2] + [q] + [p, r][2..] == [p, r, q];
  }
}
