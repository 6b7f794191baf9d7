/**
 The circular block index of an implicit producer. Slot `tail` belongs to the last block, numbered `last`, and
 the slots behind it, circularly, to the blocks before. A slot holds the first index of its block and the
 block's address; it may be used again once the address is null. A full index is copied into one twice as
 large. Rewinding the tail takes an insertion back.
 */
module BlockIndex {
  import opened Circular

  /** No block starts at an odd index. */
  const INVALID_BLOCK_BASE: nat := 1

  /** An address of 0 is null. */
  datatype Entry = Entry(key: nat, value: nat)

  datatype Ring = Ring(slots: seq<Entry>, tail: nat)

  /** The slot k behind the tail. */
  function Back(tail: nat, k: nat, capacity: nat): (i: nat)
    requires tail < capacity && k <= capacity
    ensures i < capacity
  {
    if k <= tail then tail - k else tail - k + capacity
  }

  predicate Shape(r: Ring) {
    IsPow2(|r.slots|) && 2 <= |r.slots| <= TWO59 && r.tail < |r.slots|
  }

  function At(r: Ring, k: nat): Entry
    requires r.tail < |r.slots| && k <= |r.slots|
  {
    r.slots[Back(r.tail, k, |r.slots|)]
  }

  /** The first index of block b, as the program holds it. */
  function BaseOf(b: int): nat {
    Wrap(BLOCK_SIZE * b)
  }

  predicate Reusable(e: Entry) {
    e.key == INVALID_BLOCK_BASE || e.value == 0
  }

  /** Block b's slot holds b's address while b is live, and can be used again when it is not. */
  predicate SlotOk(e: Entry, b: int, live: map<int, nat>) {
    if b in live then e.value == live[b] else Reusable(e)
  }

  /** `live` are the addresses of the blocks in use, by block number. From the oldest of them on every slot has
      the right key, also those of blocks that have been freed since; the keys before that are stale. */
  ghost predicate IndexOk(r: Ring, last: int, live: map<int, nat>) {
    && Shape(r)
    && (forall b :: b in live ==> last - |r.slots| < b <= last && live[b] != 0)
    && (forall k :: 0 <= k < |r.slots| ==> SlotOk(At(r, k), last - k, live))
    && KeysOk(r, last, live)
  }

  ghost predicate KeysOk(r: Ring, last: int, live: map<int, nat>)
    requires r.tail < |r.slots|
  {
    forall k, b :: 0 <= k < |r.slots| && b in live && b <= last - k ==> At(r, k).key == BaseOf(last - k)
  }

  // ----- The operations of the program on the index -----

  function NextSlot(r: Ring): nat
    requires r.tail < |r.slots|
  {
    (r.tail + 1) % |r.slots|
  }

  function Insert(r: Ring, key: nat): Ring
    requires r.tail < |r.slots|
  {
    var i := NextSlot(r);
    Ring(r.slots[i := r.slots[i].(key := key)], i)
  }

  function SetValue(r: Ring, i: nat, v: nat): Ring
    requires i < |r.slots|
  {
    r.(slots := r.slots[i := r.slots[i].(value := v)])
  }

  /** The difference is taken in unsigned arithmetic, then masked. */
  function Rewind(r: Ring): Ring
    requires r.tail < |r.slots|
  {
    r.(tail := Wrap(r.tail - 1) % |r.slots|)
  }

  /** The larger index: the old slots from the one after the tail round to the tail, then the new slots. */
  function Doubled(r: Ring, unused: seq<Entry>): Ring
    requires r.tail < |r.slots|
  {
    Ring(r.slots[r.tail + 1..] + r.slots[..r.tail + 1] + unused, |r.slots| - 1)
  }

  function LookUp(r: Ring, index: nat): nat
    requires r.tail < |r.slots|
  {
    Slot(r.tail, index, r.slots[r.tail].key, |r.slots|)
  }

  // ----- Masks are steps round the ring -----

  lemma NextIsBack(tail: nat, capacity: nat)
    requires tail < capacity
    ensures (tail + 1) % capacity == Back(tail, capacity - 1, capacity)
  {
    if tail + 1 == capacity {
      ModUnique(tail + 1, 1, 0, capacity);
    } else {
      ModUnique(tail + 1, 0, tail + 1, capacity);
    }
  }

  lemma PreviousIsBack(tail: nat, capacity: nat)
    requires tail < capacity <= TWO59 && IsPow2(capacity)
    ensures Wrap(tail - 1) % capacity == Back(tail, 1, capacity)
  {
    WrapNear(tail - 1);
    if tail == 0 {
      TwoTo59IsPow2();
      var q := Pow2Divides(capacity, TWO59);
      ModMultiple(-1, 32 * q, capacity);
      assert TWO64 == 32 * q * capacity;
      ModUnique(-1, -1, capacity - 1, capacity);
    } else {
      ModUnique(tail - 1, 0, tail - 1, capacity);
    }
  }

  lemma BackIsMod(tail: nat, k: nat, capacity: nat)
    requires tail < capacity && k <= capacity
    ensures (tail - k) % capacity == Back(tail, k, capacity)
  {
    if k <= tail {
      ModUnique(tail - k, 0, tail - k, capacity);
    } else {
      ModUnique(tail - k, -1, tail - k + capacity, capacity);
    }
  }

  lemma BaseIsBlockBase(b: int)
    ensures BaseOf(b) < TWO64 && BlockBase(BaseOf(b)) == BaseOf(b) && BaseOf(b) != INVALID_BLOCK_BASE
  {
    WrapKeepsOffset(BLOCK_SIZE * b);
    ModUnique(BLOCK_SIZE * b, b, 0, BLOCK_SIZE);
    MultipleIsBase(BaseOf(b));
  }

  lemma MultipleIsBase(x: nat)
    requires x % BLOCK_SIZE == 0
    ensures BlockBase(x) == x && x != INVALID_BLOCK_BASE
  {
  }

  lemma WrapKeepsOffset(x: int)
    ensures Wrap(x) % BLOCK_SIZE == x % BLOCK_SIZE
  {
    var q := x / TWO64;
    assert x == q * TWO64 + Wrap(x);
    assert TWO64 == TWO59 * BLOCK_SIZE;
    ModMultiple(Wrap(x), q * TWO59, BLOCK_SIZE);
    assert q * TWO64 == (q * TWO59) * BLOCK_SIZE;
  }

  // ----- Look-ups -----

  /** A look-up of any index in a live block ends in the slot with that block's key and address: the assertion
      at the end of the program's look-up. */
  lemma LookUpFinds(r: Ring, last: int, live: map<int, nat>, index: nat, b: int)
    requires IndexOk(r, last, live) && b in live
    requires index < TWO64 && BlockBase(index) == BaseOf(b)
    ensures r.slots[r.tail].key != INVALID_BLOCK_BASE
    ensures LookUp(r, index) == Back(r.tail, last - b, |r.slots|)
    ensures r.slots[LookUp(r, index)] == Entry(BaseOf(b), live[b]) && live[b] != 0
  {
    SlotHolds(r, last, live, b);
    assert At(r, 0).key == BaseOf(last - 0);
    BaseIsBlockBase(last);
    SlotOfEarlierBlock(r.tail, last, last - b, index, |r.slots|);
    BackIsMod(r.tail, last - b, |r.slots|);
  }

  lemma SlotHolds(r: Ring, last: int, live: map<int, nat>, b: int)
    requires IndexOk(r, last, live) && b in live
    ensures 0 <= last - b < |r.slots| && At(r, last - b) == Entry(BaseOf(b), live[b]) && live[b] != 0
  {
    assert At(r, last - b).key == BaseOf(last - (last - b));
    assert SlotOk(At(r, last - b), last - (last - b), live);
  }

  /** The slot found for block b from tail t of block x: round the ring by the difference. */
  lemma SlotEitherWay(t: nat, x: int, b: int, c: nat)
    requires IsPow2(c) && t < c <= TWO59 && b - x < c && x - b < c
    ensures Slot(t, BaseOf(b), BaseOf(x), c)
            == if b <= x then Back(t, x - b, c) else if t + (b - x) < c then t + (b - x) else t + (b - x) - c
  {
    BaseIsBlockBase(b);
    if b <= x {
      SlotOfEarlierBlock(t, x, x - b, BaseOf(b), c);
      BackIsMod(t, x - b, c);
    } else {
      SlotOfLaterBlock(t, x, b - x, BaseOf(b), c);
      AheadIsMod(t, b - x, c);
    }
  }

  /** While j insertions of live blocks have been rewound, a live block is still found, whether it lies behind
      the rewound tail or ahead of it, and whatever addresses have been cleared. */
  lemma LookUpWhileRewinding(r: Ring, last: int, live: map<int, nat>, slots: seq<Entry>, j: nat, b: int)
    requires IndexOk(r, last, live) && j < |r.slots| && last - j in live && b in live
    requires |slots| == |r.slots| && forall i :: 0 <= i < |slots| ==> slots[i].key == r.slots[i].key
    ensures LookUp(Ring(slots, Back(r.tail, j, |slots|)), BaseOf(b)) == Back(r.tail, last - b, |slots|)
  {
    assert At(r, j).key == BaseOf(last - j);
    SlotEitherWay(Back(r.tail, j, |slots|), last - j, b, |slots|);
  }

  lemma AheadIsMod(tail: nat, k: nat, capacity: nat)
    requires tail < capacity && k < capacity
    ensures (tail + k) % capacity == if tail + k < capacity then tail + k else tail + k - capacity
  {
    if tail + k < capacity {
      ModUnique(tail + k, 0, tail + k, capacity);
    } else {
      ModUnique(tail + k, 1, tail + k - capacity, capacity);
    }
  }

  // ----- What each operation keeps -----

  /** After an insertion the new slot is in front and the others are one further behind. */
  lemma InsertShifts(r: Ring, key: nat)
    requires Shape(r)
    ensures Shape(Insert(r, key)) && NextSlot(r) == Back(r.tail, |r.slots| - 1, |r.slots|)
    ensures At(Insert(r, key), 0) == At(r, |r.slots| - 1).(key := key)
    ensures forall k :: 1 <= k < |r.slots| ==> At(Insert(r, key), k) == At(r, k - 1)
  {
    NextIsBack(r.tail, |r.slots|);
  }

  /** A block inserted into a reusable slot. */
  lemma InsertedBlockIsOk(r: Ring, last: int, live: map<int, nat>, v: nat)
    requires IndexOk(r, last, live) && Reusable(r.slots[NextSlot(r)]) && v != 0
    ensures IndexOk(SetValue(Insert(r, BaseOf(last + 1)), NextSlot(r), v), last + 1, live[last + 1 := v])
  {
    var c := |r.slots|;
    var r' := SetValue(Insert(r, BaseOf(last + 1)), NextSlot(r), v);
    InsertShifts(r, BaseOf(last + 1));
    OldestSlotIsDead(r, last, live);
    forall k | 1 <= k < c
      ensures At(r', k) == At(r, k - 1)
    {
      assert At(Insert(r, BaseOf(last + 1)), k) == At(r, k - 1);
    }
    ShiftedIsOk(r, r', last, live, v);
  }

  lemma ShiftedIsOk(r: Ring, r': Ring, last: int, live: map<int, nat>, v: nat)
    requires IndexOk(r, last, live) && last - (|r.slots| - 1) !in live && v != 0
    requires Shape(r') && |r'.slots| == |r.slots| && At(r', 0) == Entry(BaseOf(last + 1), v)
    requires forall k :: 1 <= k < |r.slots| ==> At(r', k) == At(r, k - 1)
    ensures IndexOk(r', last + 1, live[last + 1 := v])
  {
    var live' := live[last + 1 := v];
    forall k | 0 <= k < |r.slots|
      ensures SlotOk(At(r', k), last + 1 - k, live')
    {
      if k > 0 {
        assert SlotOk(At(r, k - 1), last - (k - 1), live);
      }
    }
    forall k, b | 0 <= k < |r.slots| && b in live' && b <= last + 1 - k
      ensures At(r', k).key == BaseOf(last + 1 - k)
    {
      if k > 0 {
        assert At(r, k - 1).key == BaseOf(last - (k - 1));
      }
    }
  }

  lemma OldestSlotIsDead(r: Ring, last: int, live: map<int, nat>)
    requires IndexOk(r, last, live) && Reusable(r.slots[NextSlot(r)])
    ensures last - (|r.slots| - 1) !in live
  {
    var c := |r.slots|;
    NextIsBack(r.tail, c);
    assert SlotOk(At(r, c - 1), last - (c - 1), live);
    if last - (c - 1) in live {
      assert At(r, c - 1).key == BaseOf(last - (c - 1));
      BaseIsBlockBase(last - (c - 1));
      assert false;
    }
  }

  /** An insertion taken back: the tail is where it was, and the slot, cleared, is reusable as before. */
  lemma TakenBackIsOk(r: Ring, last: int, live: map<int, nat>)
    requires IndexOk(r, last, live) && Reusable(r.slots[NextSlot(r)])
    ensures Shape(Insert(r, BaseOf(last + 1)))
    ensures IndexOk(SetValue(Rewind(Insert(r, BaseOf(last + 1))), NextSlot(r), 0), last, live)
  {
    var c := |r.slots|;
    var r' := SetValue(Rewind(Insert(r, BaseOf(last + 1))), NextSlot(r), 0);
    NextIsBack(r.tail, c);
    PreviousIsBack(NextSlot(r), c);
    assert r'.tail == r.tail;
    OldestSlotIsDead(r, last, live);
    assert forall k :: 0 <= k < c - 1 ==> At(r', k) == At(r, k);
    forall k | 0 <= k < c
      ensures SlotOk(At(r', k), last - k, live)
    {
      assert SlotOk(At(r, k), last - k, live);
    }
    forall k, b | 0 <= k < c && b in live && b <= last - k
      ensures At(r', k).key == BaseOf(last - k)
    {
      assert k < c - 1;
      assert At(r, k).key == BaseOf(last - k);
    }
  }

  /** A block that has been emptied is cleared, in whatever order blocks become empty. */
  lemma ClearedBlockIsOk(r: Ring, last: int, live: map<int, nat>, b: int)
    requires IndexOk(r, last, live) && b in live
    ensures IndexOk(SetValue(r, Back(r.tail, last - b, |r.slots|), 0), last, live - {b})
  {
    var c := |r.slots|;
    var r' := SetValue(r, Back(r.tail, last - b, c), 0);
    forall k | 0 <= k < c
      ensures SlotOk(At(r', k), last - k, live - {b})
      ensures At(r', k).key == At(r, k).key
    {
      assert SlotOk(At(r, k), last - k, live);
    }
    forall k, d | 0 <= k < c && d in live - {b} && d <= last - k
      ensures At(r', k).key == BaseOf(last - k)
    {
      assert At(r, k).key == BaseOf(last - k);
    }
  }

  /** Doubling keeps every entry at its distance from the tail, and the slot after the tail is new. */
  lemma DoubledIsOk(r: Ring, last: int, live: map<int, nat>, unused: seq<Entry>)
    requires IndexOk(r, last, live) && 2 * |r.slots| <= TWO59 && |unused| == |r.slots|
    requires forall i :: 0 <= i < |unused| ==> unused[i].key == INVALID_BLOCK_BASE
    ensures IndexOk(Doubled(r, unused), last, live)
    ensures Doubled(r, unused).slots[NextSlot(Doubled(r, unused))].key == INVALID_BLOCK_BASE
  {
    var c := |r.slots|;
    var r' := Doubled(r, unused);
    assert |r'.slots| == 2 * c && IsPow2(2 * c);
    forall k | 0 <= k < 2 * c
      ensures if k < c then At(r', k) == At(r, k) else At(r', k).key == INVALID_BLOCK_BASE
    {
      DoubledAt(r, unused, k);
    }
    forall k | 0 <= k < 2 * c
      ensures SlotOk(At(r', k), last - k, live)
    {
      if k < c {
        assert SlotOk(At(r, k), last - k, live);
      }
    }
    forall k, b | 0 <= k < 2 * c && b in live && b <= last - k
      ensures At(r', k).key == BaseOf(last - k)
    {
      assert At(r, k).key == BaseOf(last - k);
    }
    NextIsBack(r'.tail, 2 * c);
  }

  lemma DoubledAt(r: Ring, unused: seq<Entry>, k: nat)
    requires r.tail < |r.slots| == |unused| && k < 2 * |r.slots|
    requires forall i :: 0 <= i < |unused| ==> unused[i].key == INVALID_BLOCK_BASE
    ensures if k < |r.slots| then At(Doubled(r, unused), k) == At(r, k)
            else At(Doubled(r, unused), k).key == INVALID_BLOCK_BASE
  {
    var c := |r.slots|;
    var left := r.slots[r.tail + 1..] + r.slots[..r.tail + 1];
    if k < c {
      assert At(Doubled(r, unused), k) == left[c - 1 - k];
    } else {
      assert At(Doubled(r, unused), k) == unused[2 * c - 1 - k];
    }
  }

  /** The last n blocks taken out again, all at once: what an undone bulk enqueue leaves. The slots of those
      blocks are cleared, the tail is n back; keys that got overwritten had no live block before them. */
  lemma UndoneIsOk(r: Ring, first: int, n: nat, live: map<int, nat>, slots: seq<Entry>)
    requires IndexOk(r, first + n - 1, live)
    requires forall b :: first <= b < first + n ==> b in live
    requires |slots| == |r.slots| && n <= |r.slots|
    requires forall k :: 0 <= k < |slots| ==> var i := Back(r.tail, k, |slots|);
      slots[i] == if k < n then r.slots[i].(value := 0) else r.slots[i]
    ensures IndexOk(Ring(slots, Back(r.tail, n, |slots|)), first - 1, map b | b in live && b < first :: live[b])
  {
    var c, last := |slots|, first + n - 1;
    var older := map b | b in live && b < first :: live[b];
    var r' := Ring(slots, Back(r.tail, n, c));
    forall k | 0 <= k < c
      ensures SlotOk(At(r', k), first - 1 - k, older)
    {
      if n + k < c {
        assert At(r', k) == At(r, n + k);
        assert SlotOk(At(r, n + k), last - (n + k), live);
      } else {
        assert Back(r'.tail, k, c) == Back(r.tail, n + k - c, c);
      }
    }
    forall k, b | 0 <= k < c && b in older && b <= first - 1 - k
      ensures At(r', k).key == BaseOf(first - 1 - k)
    {
      assert At(r', k) == At(r, n + k);
      assert At(r, n + k).key == BaseOf(last - (n + k));
    }
  }

  // ----- How many blocks the index has room for -----

  /** The slots that can be used one after the other, from the one k - 1 behind the tail on. */
  function Free(r: Ring, k: nat): (n: nat)
    requires r.tail < |r.slots| && k <= |r.slots|
    ensures n <= k
  {
    if k == 0 || !Reusable(At(r, k - 1)) then 0 else 1 + Free(r, k - 1)
  }

  /** Those after the tail: the oldest come first. */
  function FreeSlots(r: Ring): nat {
    if r.tail < |r.slots| then Free(r, |r.slots|) else 0
  }

  lemma NextIsFree(r: Ring)
    requires r.tail < |r.slots|
    ensures FreeSlots(r) > 0 <==> Reusable(r.slots[NextSlot(r)])
  {
    NextIsBack(r.tail, |r.slots|);
  }

  lemma {:induction false} FreeShifts(r: Ring, r': Ring, k: nat)
    requires r.tail < |r.slots| == |r'.slots| && r'.tail < |r'.slots| && 0 < k <= |r.slots|
    requires !Reusable(At(r', 0)) && forall j :: 1 <= j < |r.slots| ==> At(r', j) == At(r, j - 1)
    ensures Free(r', k) == Free(r, k - 1)
  {
    if k > 1 {
      assert At(r', k - 1) == At(r, k - 2);
      FreeShifts(r, r', k - 1);
    }
  }

  /** A new block takes one of them. */
  lemma InsertTakesSlot(r: Ring, b: int, v: nat)
    requires Shape(r) && Reusable(r.slots[NextSlot(r)]) && v != 0
    ensures FreeSlots(SetValue(Insert(r, BaseOf(b)), NextSlot(r), v)) == FreeSlots(r) - 1
  {
    var c := |r.slots|;
    var r1 := Insert(r, BaseOf(b));
    var r' := SetValue(r1, NextSlot(r), v);
    InsertShifts(r, BaseOf(b));
    BaseIsBlockBase(b);
    NextIsBack(r.tail, c);
    hide Insert, BaseOf;
    forall j | 1 <= j < c
      ensures At(r', j) == At(r, j - 1)
    {
      assert At(r1, j) == At(r, j - 1);
    }
    FreeShifts(r, r', c);
  }

  lemma {:induction false} FreeDoubled(r: Ring, unused: seq<Entry>, k: nat)
    requires r.tail < |r.slots| == |unused| && |r.slots| <= k <= 2 * |r.slots|
    requires forall i :: 0 <= i < |unused| ==> unused[i].key == INVALID_BLOCK_BASE
    requires FreeSlots(r) == 0
    ensures Free(Doubled(r, unused), k) == k - |r.slots|
  {
    DoubledAt(r, unused, k - 1);
    if k > |r.slots| {
      FreeDoubled(r, unused, k - 1);
    }
  }

  /** Doubling a full index makes as many. */
  lemma DoublingMakesSlots(r: Ring, unused: seq<Entry>)
    requires r.tail < |r.slots| == |unused| && FreeSlots(r) == 0
    requires forall i :: 0 <= i < |unused| ==> unused[i].key == INVALID_BLOCK_BASE
    ensures FreeSlots(Doubled(r, unused)) == |r.slots|
  {
    FreeDoubled(r, unused, 2 * |r.slots|);
  }
}
