/**
 A producer of the lock-free queue, one operation at a time: the blocks it fills, the circular index that finds
 them again, the pool they come from and go back to. A dequeue is two operations, as it is for a consumer:
 claiming an index and moving the element out, which may happen in any order for different indices. Positions
 are stored modulo 2^64; the ghost fields count without bound.
 */
module ImplicitProducer {
  import opened Circular
  import opened BlockIndex
  import opened BlockMemory
  import opened Supplies

  const INITIAL_INDEX_SIZE: nat := 32

  /** The blocks needed for n elements. */
  function BlocksFor(n: nat): nat {
    (n + CELLS - 1) / CELLS
  }

  /** Each new block of a bulk enqueue points to the one after it. */
  ghost predicate Chained<T>(m: Memory<T>, live: map<int, nat>, from: int, upto: int) {
    forall b :: from <= b < upto ==> b in live && live[b] in m && (b + 1 < upto ==> b + 1 in live && m[live[b]].next == live[b + 1])
  }

  datatype Taken<T> = Nothing | Got(value: T)

  class Producer<T> {
    var tailIndex: nat
    var headIndex: nat
    var dequeueOptimisticCount: nat
    var dequeueOvercommit: nat
    var tailBlock: nat                 // address of the block being filled, 0 for none
    var index: array<Entry>            // the block index; without slots if it could not be allocated
    var indexTail: nat
    var nextCapacity: nat
    var blocks: Memory<T>
    var initial: seq<nat>              // blocks of the initial pool not used yet
    var free: seq<nat>                 // the free list, top first
    var unallocated: nat               // no block has been allocated from this address on

    ghost var placed: seq<T>           // every element ever constructed in the queue
    ghost var head: nat                // how many indices have been claimed
    ghost var done: set<nat>           // the claimed indices whose elements have been moved out
    ghost var made: nat                // how many blocks have been put into the index
    ghost var live: map<int, nat>      // the addresses of those still in use

    ghost function RingOf(): Ring
      reads this`index, this`indexTail, index
    {
      Ring(index[..], indexTail)
    }

    ghost predicate IndexValid()
      reads this`index, this`indexTail, this`nextCapacity, this`made, this`live, index
    {
      if index.Length == 0 then made == 0
      else nextCapacity == 2 * index.Length && IndexOk(RingOf(), made - 1, live)
    }

    ghost predicate Core()
      reads this`index, this`indexTail, this`nextCapacity, index
      reads this`blocks, this`initial, this`free, this`unallocated
      reads this`headIndex, this`dequeueOptimisticCount, this`dequeueOvercommit
      reads this`placed, this`head, this`done, this`made, this`live
    {
      && IndexValid()
      && MemoryOk(blocks, live, placed, done, free + initial)
      && unallocated > 0 && (forall id :: id in blocks ==> id < unallocated)
      && LiveOk(live, done, made)
      && (forall i :: i in done ==> i < head)
      && head <= |placed| <= CELLS * made
      && headIndex == Wrap(head) == Wrap(dequeueOptimisticCount - dequeueOvercommit)
      && CELLS * made - head < TWO63
    }

    /** What there is for new blocks, when `mallocs` more allocations succeed. */
    ghost function SupplyOf(mallocs: nat): Supply
      reads this`index, this`indexTail, this`initial, this`free, index
    {
      Supply(FreeSlots(RingOf()), index.Length, |free + initial|, mallocs)
    }

    /** Between operations. */
    ghost predicate Valid()
      reads this, index
    {
      && Core()
      && tailIndex == Wrap(|placed|)
      && made == BlocksFor(|placed|)
      && (|placed| % CELLS != 0 ==> |placed| / CELLS in live && tailBlock == live[|placed| / CELLS])
    }

    /** The queue a client sees: what has been enqueued and not claimed yet. */
    ghost function Contents(): seq<T>
      reads this
      requires head <= |placed|
    {
      placed[head..]
    }

    /** The initial pool has the blocks with addresses 1 to `poolSize`. */
    constructor (malloc: bool, poolSize: nat)
      ensures Valid() && fresh(index)
      ensures Contents() == [] && head == 0 && made == 0 && |free + initial| == poolSize
      ensures index.Length == if malloc then INITIAL_INDEX_SIZE else 0
    {
      hide Core, Wrap, NewBlock;
      WrapNear(0);
      tailIndex, headIndex, tailBlock := 0, 0, 0;
      dequeueOptimisticCount, dequeueOvercommit := 0, 0;
      index := new Entry[0];
      indexTail, nextCapacity := 0, INITIAL_INDEX_SIZE;
      var addresses := seq(poolSize, i => i + 1);
      blocks := map id | id in addresses :: NewBlock();
      initial := addresses;
      free := [];
      unallocated := poolSize + 1;
      placed, head, done, made, live := [], 0, {}, 0, map[];
      new;
      InitialCore();
      FirstIndex(malloc);
    }

    lemma InitialCore()
      requires index.Length == 0 && headIndex == 0 && free == [] && dequeueOptimisticCount == dequeueOvercommit
      requires (forall id :: id in blocks <==> id in initial) && (forall id :: id in blocks ==> blocks[id] == NewBlock())
      requires unallocated == |initial| + 1
      requires forall i :: 0 <= i < |initial| ==> initial[i] == i + 1
      requires placed == [] && head == 0 && done == {} && made == 0 && live == map[]
      ensures Core()
    {
      hide MemoryOk, LiveOk;
      assert initial == free + initial;
      InitialMemory(blocks, initial);
      NothingLive(done);
      WrapNear(0);
      forall id | id in blocks
        ensures id < unallocated
      {
        var i :| 0 <= i < |initial| && initial[i] == id;
      }
    }

    method FirstIndex(malloc: bool)
      requires Core() && index.Length == 0 && nextCapacity == INITIAL_INDEX_SIZE && live == map[]
      modifies this`index, this`indexTail, this`nextCapacity
      ensures Core() && index.Length == (if malloc then INITIAL_INDEX_SIZE else 0)
      ensures index == old(index) || fresh(index)
    {
      hide IndexOk, MemoryOk, LiveOk, Doubled;
      var ok;
      ghost var unused;
      ok, unused := NewBlockIndex(malloc);
      if ok {
        NewRingIsOk(RingOf());
      }
    }

    // ----- The block index -----

    /** Allocates an index of the next capacity and copies the old one into it, oldest slot first. The request
        for more than 2^59 entries of 16 bytes does not fit the address space. */
    method NewBlockIndex(malloc: bool) returns (ok: bool, ghost unused: seq<Entry>)
      requires index.Length == 0 ==> nextCapacity == INITIAL_INDEX_SIZE
      requires index.Length > 0 ==> nextCapacity == 2 * index.Length && Shape(RingOf())
      modifies this`index, this`indexTail, this`nextCapacity
      ensures ok <==> malloc && old(nextCapacity) <= TWO59
      ensures !ok ==> index == old(index) && indexTail == old(indexTail) && nextCapacity == old(nextCapacity)
      ensures ok ==> fresh(index) && index.Length == old(nextCapacity) && nextCapacity == 2 * index.Length
      ensures ok ==> forall i :: 0 <= i < |unused| ==> unused[i].key == INVALID_BLOCK_BASE
      ensures ok && old(index.Length) > 0 ==> |unused| == old(index.Length) && RingOf() == Doubled(old(RingOf()), unused)
      ensures ok && old(index.Length) == 0 ==> RingOf() == Ring(unused, INITIAL_INDEX_SIZE - 1)
    {
      unused := [];
      if !malloc || nextCapacity > TWO59 {
        return false, unused;
      }
      var prevCapacity, capacity := index.Length, nextCapacity;
      var entryCount := if prevCapacity == 0 then capacity else prevCapacity;
      var a := new Entry[capacity];
      if prevCapacity != 0 {
        CopyIndex(a);
      }
      ghost var copied := a[..prevCapacity];
      for i := 0 to entryCount
        invariant a[..prevCapacity] == copied
        invariant forall j :: prevCapacity <= j < prevCapacity + i ==> a[j].key == INVALID_BLOCK_BASE
      {
        a[prevCapacity + i] := a[prevCapacity + i].(key := INVALID_BLOCK_BASE);
      }
      unused := a[prevCapacity..];
      assert a[..] == copied + unused;
      PreviousIsBackOf(prevCapacity, capacity);
      indexTail := Wrap(prevCapacity - 1) % capacity;
      index := a;
      nextCapacity := capacity * 2;
      ok := true;
    }

    method CopyIndex(a: array<Entry>)
      requires Shape(RingOf()) && a.Length == 2 * index.Length && a != index
      modifies a
      ensures a[..index.Length] == index[indexTail + 1..] + index[..indexTail + 1]
    {
      var c := index.Length;
      var prevPos := indexTail;
      var i := 0;
      var again := true;
      while again
        invariant 0 <= i <= c && (again <==> i < c)
        invariant prevPos == Back(indexTail, c - i, c)
        invariant forall j :: 0 <= j < i ==> a[j] == index[Back(indexTail, c - 1 - j, c)]
        decreases c - i, again
      {
        StepForward(indexTail, c - i, c);
        prevPos := (prevPos + 1) % c;
        a[i] := index[prevPos];
        i := i + 1;
        again := prevPos != indexTail;
      }
    }

    /** What insert_block_index_entry does; `r0` is the index before the insertion, possibly doubled. */
    method InsertIndexEntry(blockStart: nat, canAlloc: bool, mallocs: nat)
      returns (ok: bool, slot: nat, left: nat, ghost r0: Ring)
      requires IndexValid()
      modifies this`index, this`indexTail, this`nextCapacity, index
      ensures index == old(index) || fresh(index)
      ensures old(index.Length) <= index.Length && (old(index.Length) == 0 ==> index.Length == 0)
      ensures ok <==> old(HasSlot(SupplyOf(mallocs), canAlloc))
      ensures !ok ==> IndexValid() && RingOf() == old(RingOf())
      ensures ok ==> index.Length > 0 && nextCapacity == 2 * index.Length && IndexOk(r0, made - 1, live)
      ensures ok ==> r0.tail < |r0.slots| && Reusable(r0.slots[NextSlot(r0)]) && RingOf() == Insert(r0, blockStart)
      ensures ok ==> slot == NextSlot(r0) < |r0.slots| == index.Length
      ensures ok ==> FreeSlots(r0) > 0
      ensures ok ==> old(WithEntry(SupplyOf(mallocs))) == Supply(FreeSlots(r0) - 1, index.Length, |free + initial|, left)
    {
      hide LiveOk, MemoryOk, Insert, FreeSlots, IndexOk;
      ok, left, slot, r0 := false, mallocs, 0, RingOf();
      if index.Length == 0 {
        return;
      }
      ShapeOf(r0);
      NextIsFree(r0);
      var newTail := (indexTail + 1) % index.Length;
      if index[newTail].key == INVALID_BLOCK_BASE || index[newTail].value == 0 {
        TakeSlot(newTail, blockStart);
        return true, newTail, left, r0;
      }
      if canAlloc {
        ok := DoubleIndex(mallocs > 0);
        if ok {
          r0 := RingOf();
          ShapeOf(r0);
          NextIsFree(r0);
          left := mallocs - 1;
          newTail := (indexTail + 1) % index.Length;
          TakeSlot(newTail, blockStart);
          slot := newTail;
        }
      }
    }

    method DoubleIndex(malloc: bool) returns (ok: bool)
      requires IndexValid() && index.Length > 0 && FreeSlots(RingOf()) == 0
      modifies this`index, this`indexTail, this`nextCapacity
      ensures ok <==> malloc && 2 * old(index.Length) <= TWO59
      ensures !ok ==> index == old(index) && indexTail == old(indexTail) && nextCapacity == old(nextCapacity)
      ensures ok ==> fresh(index) && index.Length == 2 * old(index.Length) && IndexValid()
      ensures ok ==> FreeSlots(RingOf()) == old(index.Length)
    {
      hide FreeSlots, Doubled;
      ghost var r := RingOf();
      ghost var unused;
      ok, unused := NewBlockIndex(malloc);
      if ok {
        DoubledIsOk(r, made - 1, live, unused);
        DoublingMakesSlots(r, unused);
      }
    }

    /** The two stores of an insertion. */
    method TakeSlot(newTail: nat, blockStart: nat)
      requires indexTail < index.Length && newTail == NextSlot(RingOf())
      modifies index, this`indexTail
      ensures RingOf() == Insert(old(RingOf()), blockStart)
    {
      index[newTail] := index[newTail].(key := blockStart);
      indexTail := newTail;
    }

    /** The store of a block's address. */
    method StoreValue(slot: nat, v: nat)
      requires slot < index.Length
      modifies index
      ensures RingOf() == SetValue(old(RingOf()), slot, v)
    {
      index[slot] := index[slot].(value := v);
    }

    method RewindIndexTail()
      requires Shape(RingOf())
      modifies this`indexTail
      ensures RingOf() == Rewind(old(RingOf()))
    {
      indexTail := Wrap(indexTail - 1) % index.Length;
    }

    /** What get_block_index_entry_for_index does, up to its assertions. */
    method FindSlot(i: nat) returns (slot: nat)
      requires Shape(RingOf())
      ensures slot == LookUp(RingOf(), i) && slot < index.Length
    {
      var blockStart := BlockBase(i);
      var tailBase := index[indexTail].key;
      var offset := Wrap(blockStart as int - tailBase) / BLOCK_SIZE;
      slot := Wrap(indexTail + offset) % index.Length;
    }

    // ----- Blocks -----

    ghost predicate BlocksValid()
      reads this
    {
      && MemoryOk(blocks, live, placed, done, free + initial)
      && unallocated > 0 && forall id :: id in blocks ==> id < unallocated
    }

    /** A block from the initial pool, else from the free list, else, if allowed, a new one. */
    method RequisitionBlock(canAlloc: bool, mallocs: nat) returns (id: nat, left: nat)
      requires BlocksValid()
      modifies this`blocks, this`initial, this`free, this`unallocated
      ensures id != 0 <==> old(HasBlock(SupplyOf(mallocs), canAlloc))
      ensures id != 0 ==> SupplyOf(left) == old(WithBlock(SupplyOf(mallocs)))
      ensures id == 0 ==> BlocksValid()
      ensures id != 0 ==> id in blocks && id < unallocated && MemoryOk(blocks, live, placed, done, [id] + (free + initial))
      ensures unallocated > 0 && forall a :: a in blocks ==> a < unallocated
      ensures forall a :: a in old(blocks) ==> a in blocks && blocks[a] == old(blocks)[a]
    {
      hide BlockOk, FreeSlots;
      left := mallocs;
      if initial != [] {
        id := initial[0];
        assert initial == [id] + initial[1..];
        PoolReordered(blocks, live, placed, done, free, id, initial[1..]);
        initial := initial[1..];
      } else if free != [] {
        id := free[0];
        assert free + initial == [] + ([id] + free[1..]);
        PoolReordered(blocks, live, placed, done, [], id, free[1..]);
        free := free[1..];
        assert [id] + (free + initial) == [id] + ([] + free);
      } else if canAlloc && mallocs > 0 {
        id := unallocated;
        CreatedIsOk(blocks, live, placed, done, free + initial, id);
        blocks := blocks[id := NewBlock()];
        unallocated := unallocated + 1;
        left := mallocs - 1;
      } else {
        id := 0;
      }
    }

    /** Whether a block can be started now: there is room below 2^63 positions, a slot in the index, a block. */
    ghost predicate RoomForBlock(canAlloc: bool, mallocs: nat)
      reads this, index
    {
      CELLS * made + CELLS - head < TWO63 && CanStart(SupplyOf(mallocs), canAlloc)
    }

    /** An index entry and a block for it; without a block the entry is taken back. `r0` is the index before. */
    method EntryAndBlock(blockStart: nat, canAlloc: bool, mallocs: nat)
      returns (newBlock: nat, slot: nat, left: nat, ghost r0: Ring)
      requires IndexValid() && BlocksValid() && blockStart == BaseOf(made)
      modifies this`index, this`indexTail, this`nextCapacity, index
      modifies this`blocks, this`initial, this`free, this`unallocated
      ensures index == old(index) || fresh(index)
      ensures old(index.Length) <= index.Length && (old(index.Length) == 0 ==> index.Length == 0)
      ensures newBlock != 0 <==> old(CanStart(SupplyOf(mallocs), canAlloc))
      ensures newBlock != 0 ==> FreeSlots(r0) > 0
      ensures newBlock != 0 ==> old(Started(SupplyOf(mallocs))) == Supply(FreeSlots(r0) - 1, index.Length, |free + initial|, left)
      ensures newBlock == 0 ==> IndexValid() && BlocksValid()
      ensures newBlock != 0 ==> index.Length > 0 && nextCapacity == 2 * index.Length && IndexOk(r0, made - 1, live)
      ensures newBlock != 0 ==> r0.tail < |r0.slots| && Reusable(r0.slots[NextSlot(r0)]) && RingOf() == Insert(r0, blockStart)
      ensures newBlock != 0 ==> slot == NextSlot(r0) < |r0.slots| == index.Length
      ensures newBlock != 0 ==> newBlock in blocks && MemoryOk(blocks, live, placed, done, [newBlock] + (free + initial))
      ensures unallocated > 0 && forall id :: id in blocks ==> id < unallocated
      ensures forall a :: a in old(blocks) ==> a in blocks && blocks[a] == old(blocks)[a]
    {
      hide MemoryOk, IndexOk, LiveOk, Reusable, Wrap, Insert, SetValue, Rewind, Shape, FreeSlots;
      newBlock := 0;
      var ok;
      ok, slot, left, r0 := InsertIndexEntry(blockStart, canAlloc, mallocs);
      if ok {
        newBlock, left := RequisitionBlock(canAlloc, left);
        if newBlock == 0 {
          TakenBackIsOk(r0, made - 1, live);
          RewindIndexTail();
          StoreValue(slot, 0);
        }
      }
    }

    /** The part of enqueue and enqueue_bulk that puts a new block behind the last one; null when there is no
        room or no memory, and then everything but the size of the index is as before. */
    method StartBlock(blockStart: nat, canAlloc: bool, mallocs: nat) returns (newBlock: nat, left: nat)
      requires Core() && blockStart == BaseOf(made)
      modifies this`index, this`indexTail, this`nextCapacity, index
      modifies this`blocks, this`initial, this`free, this`unallocated, this`made, this`live
      ensures Core() && (index == old(index) || fresh(index))
      ensures newBlock != 0 <==> old(RoomForBlock(canAlloc, mallocs))
      ensures newBlock != 0 ==> SupplyOf(left) == old(Started(SupplyOf(mallocs)))
      ensures old(index.Length) <= index.Length && (old(index.Length) == 0 ==> index.Length == 0)
      ensures newBlock == 0 ==> made == old(made) && live == old(live)
      ensures newBlock != 0 ==> made == old(made) + 1 && old(made) !in old(live) && live == old(live)[old(made) := newBlock]
      ensures newBlock != 0 ==> newBlock in blocks
      ensures forall a :: a in old(blocks) && a != newBlock ==> a in blocks && blocks[a] == old(blocks)[a]
    {
      hide MemoryOk, IndexOk, LiveOk, Reusable, CircularLess, Wrap, Insert, SetValue, Shape, FreeSlots, Started;
      newBlock, left := 0, mallocs;
      RoomTest(head, made);
      assert !CircularLess(blockStart, headIndex);
      if CircularLess(headIndex, Wrap(blockStart + BLOCK_SIZE)) {
        var slot;
        ghost var r0;
        newBlock, slot, left, r0 := EntryAndBlock(blockStart, canAlloc, mallocs);
        if newBlock != 0 {
          UseBlock(slot, newBlock, r0);
        }
      }
    }

    /** The count of the new block is reset and its address stored. */
    method UseBlock(slot: nat, newBlock: nat, ghost r0: Ring)
      requires index.Length > 0 && nextCapacity == 2 * index.Length
      requires IndexOk(r0, made - 1, live) && Reusable(r0.slots[NextSlot(r0)])
      requires RingOf() == Insert(r0, BaseOf(made)) && slot == NextSlot(r0) < index.Length
      requires newBlock in blocks && MemoryOk(blocks, live, placed, done, [newBlock] + (free + initial))
      requires LiveOk(live, done, made) && (forall i :: i in done ==> i < head) && head <= |placed| <= CELLS * made
      modifies index, this`blocks, this`made, this`live
      ensures made == old(made) + 1 && old(made) !in old(live) && live == old(live)[old(made) := newBlock]
      ensures IndexValid() && MemoryOk(blocks, live, placed, done, free + initial) && LiveOk(live, done, made)
      ensures newBlock != 0 && newBlock in blocks
      ensures blocks.Keys == old(blocks).Keys && FreeSlots(RingOf()) == FreeSlots(r0) - 1
      ensures forall a :: a in old(blocks) && a != newBlock ==> a in blocks && blocks[a] == old(blocks)[a]
    {
      hide MemoryOk, IndexOk, LiveOk, Reusable, Insert, SetValue, FreeSlots;
      NewBlockFits(r0, slot, newBlock);
      ShapeOf(r0);
      InsertTakesSlot(r0, made, newBlock);
      blocks := blocks[newBlock := blocks[newBlock].(emptied := 0)];
      StoreValue(slot, newBlock);
      live := live[made := newBlock];
      made := made + 1;
    }

    lemma ShapeOf(r0: Ring)
      requires IndexOk(r0, made - 1, live)
      ensures Shape(r0)
    {
    }

    lemma NewBlockFits(r0: Ring, slot: nat, newBlock: nat)
      requires IndexOk(r0, made - 1, live) && Reusable(r0.slots[NextSlot(r0)]) && slot == NextSlot(r0)
      requires newBlock in blocks && MemoryOk(blocks, live, placed, done, [newBlock] + (free + initial))
      requires LiveOk(live, done, made) && (forall i :: i in done ==> i < head) && head <= |placed| <= CELLS * made
      ensures made !in live && newBlock != 0
      ensures IndexOk(SetValue(Insert(r0, BaseOf(made)), slot, newBlock), made, live[made := newBlock])
      ensures MemoryOk(Reset(blocks, newBlock), live[made := newBlock], placed, done, free + initial)
      ensures LiveOk(live[made := newBlock], done, made + 1)
    {
      hide IndexOk, MemoryOk, Insert, SetValue;
      LiveAfterMade(live, done, made, newBlock);
      AddBlockIsOk(blocks, live, placed, done, free + initial, made, newBlock);
      InsertedBlockIsOk(r0, made - 1, live, newBlock);
    }

    method Enqueue(x: T, canAlloc: bool, mallocs: nat) returns (ok: bool)
      requires Valid()
      modifies this, index
      ensures Valid() && (index == old(index) || fresh(index))
      ensures ok <==> old(|placed| % CELLS != 0 || RoomForBlock(canAlloc, mallocs))
      ensures placed == if ok then old(placed) + [x] else old(placed)
      ensures head == old(head) && done == old(done)
      ensures !ok ==> live == old(live)
    {
      hide MemoryOk, IndexOk, LiveOk, Wrap, BlocksFor, DoneIn;
      var currentTail := tailIndex;
      ok := HaveTailBlock(currentTail, canAlloc, mallocs);
      if ok {
        PlaceNext(currentTail, x);
        WrapSum(|placed| - 1, 1);
        tailIndex := Wrap(1 + currentTail);
        NextIsInBlock(|placed| - 1);
      }
    }

    /** The first half of enqueue: at a block boundary, a new block. */
    method HaveTailBlock(currentTail: nat, canAlloc: bool, mallocs: nat) returns (ok: bool)
      requires Valid() && currentTail == tailIndex
      modifies this`index, this`indexTail, this`nextCapacity, index
      modifies this`blocks, this`initial, this`free, this`unallocated, this`made, this`live, this`tailBlock
      ensures Core() && (index == old(index) || fresh(index))
      ensures ok <==> old(|placed| % CELLS != 0 || RoomForBlock(canAlloc, mallocs))
      ensures !ok ==> Valid() && live == old(live)
      ensures ok ==> |placed| < CELLS * made && made == |placed| / CELLS + 1
      ensures ok ==> |placed| / CELLS in live && tailBlock == live[|placed| / CELLS]
    {
      hide MemoryOk, IndexOk, LiveOk, Reusable, CircularLess, Wrap, BlocksFor, DoneIn;
      ok := true;
      TailOffset(|placed|);
      if currentTail % BLOCK_SIZE == 0 {
        var newBlock, left := StartBlock(currentTail, canAlloc, mallocs);
        if newBlock == 0 {
          return false;
        }
        tailBlock := newBlock;
      }
    }

    /** The placement new of one element in the tail block. */
    method PlaceNext(i: nat, x: T)
      requires Core() && i == Wrap(|placed|) && |placed| < CELLS * made
      requires |placed| / CELLS in live && tailBlock == live[|placed| / CELLS]
      modifies this`blocks, this`placed
      ensures Core() && placed == old(placed) + [x]
      ensures forall a :: a in old(blocks) ==> a in blocks && blocks[a].next == old(blocks)[a].next
    {
      hide IndexOk, LiveOk, Wrap;
      WrapKeepsOffset(|placed|);
      PlaceIsOk(blocks, live, placed, done, free + initial, x);
      assert |placed| / CELLS in live && BlockOk(blocks[live[|placed| / CELLS]], |placed| / CELLS, placed, done);
      var j := i % CELLS;
      assert blocks[tailBlock].cells[j] == Vacant;
      blocks := blocks[tailBlock := blocks[tailBlock].(cells := blocks[tailBlock].cells[j := Holds(x)])];
      placed := placed + [x];
    }

    // ----- Dequeueing -----

    /** Whoever has claimed an index and not moved its element out yet finds the block it is in: the key is
        the block's first index and the address is not null. */
    method FindBlock(i: nat, ghost pos: nat) returns (slot: nat, block: nat)
      requires Core() && pos < head && pos !in done && i == Wrap(pos)
      ensures slot < index.Length && index[slot] == Entry(BaseOf(pos / CELLS), block)
      ensures indexTail < index.Length && 0 <= made - 1 - pos / CELLS < index.Length
      ensures slot == Back(indexTail, made - 1 - pos / CELLS, index.Length)
      ensures pos / CELLS in live && block == live[pos / CELLS] && block != 0
    {
      hide MemoryOk, LiveOk, Wrap;
      BlockOfIndexIsLive(live, done, made, pos);
      BlockOfPosition(pos);
      LookUpFinds(RingOf(), made - 1, live, i, pos / CELLS);
      slot := FindSlot(i);
      block := index[slot].value;
    }

    /** The rest of a dequeue: the element of a claimed index is moved out, and the last one out of a block
        gives the block back. */
    method MoveOut(i: nat, ghost pos: nat) returns (x: T)
      requires Valid() && pos < head && pos !in done && i == Wrap(pos)
      modifies index, this`blocks, this`free, this`done, this`live
      ensures Valid()
      ensures x == placed[pos] && done == old(done) + {pos}
    {
      hide MemoryOk, LiveOk, IndexOk, Wrap, BlocksFor, DoneIn;
      ghost var b := pos / CELLS;
      var slot, block := FindBlock(i, pos);
      BlockOfPosition(pos);
      VacateIsOk(blocks, live, placed, done, free + initial, pos);
      LiveAfterDone(live, done, made, pos);
      var j := i % CELLS;
      x := blocks[block].cells[j].value;
      blocks := blocks[block := blocks[block].(cells := blocks[block].cells[j := Vacant], emptied := blocks[block].emptied + 1)];
      done := done + {pos};
      EmptiedCount(blocks, live, placed, done, free + initial, b);
      if blocks[block].emptied == CELLS {
        Release(slot, block, b);
      }
      PartialBlockIsLive(live, done, made, |placed|);
    }

    /** The entry of an emptied block is cleared and the block put on the free list. */
    method Release(slot: nat, block: nat, ghost b: int)
      requires index.Length > 0 && IndexOk(RingOf(), made - 1, live) && b in live && live[b] == block
      requires slot == Back(indexTail, made - 1 - b, index.Length)
      requires MemoryOk(blocks, live, placed, done, free + initial) && block in blocks
      requires DoneIn(done, b, CELLS) == CELLS || |placed| <= CELLS * b
      modifies index, this`free, this`live
      ensures live == old(live) - {b} && free == [block] + old(free)
      ensures IndexOk(RingOf(), made - 1, live) && MemoryOk(blocks, live, placed, done, free + initial)
    {
      hide IndexOk, DoneIn, SetValue, OwnedOk;
      ClearedBlockIsOk(RingOf(), made - 1, live, b);
      EmptiedIsVacant(blocks[block], b, placed, done);
      ReturnIsOk(blocks, live, placed, done, free + initial, b);
      StoreValue(slot, 0);
      assert [block] + (free + initial) == ([block] + free) + initial;
      free := [block] + free;
      live := live - {b};
    }

    /** The first half of a dequeue: a ticket is taken, and when there is an element for it its index is claimed.
        No other consumer comes in between, so that the second test cannot fail when the first has not. */
    method Claim() returns (ok: bool, i: nat)
      requires Valid()
      modifies this`headIndex, this`dequeueOptimisticCount, this`head
      ensures Valid() && (ok <==> old(head) < |placed|)
      ensures if ok then i == Wrap(old(head)) && head == old(head) + 1 else head == old(head)
    {
      hide MemoryOk, LiveOk, IndexOk, Wrap, BlocksFor, CircularLess, DoneIn;
      ok, i := false, 0;
      TestIsOrder(head, |placed|);
      if CircularLess(Wrap(dequeueOptimisticCount - dequeueOvercommit), tailIndex) {
        var myDequeueCount := dequeueOptimisticCount;
        WrapSum(head, 1);
        OneMoreTicket(dequeueOptimisticCount, dequeueOvercommit, 1);
        dequeueOptimisticCount := Wrap(dequeueOptimisticCount + 1);
        assert CircularLess(Wrap(myDequeueCount - dequeueOvercommit), tailIndex);
        ok, i := true, headIndex;
        headIndex := Wrap(headIndex + 1);
        head := head + 1;
      }
    }

    /** A dequeue that is not disturbed. */
    method Dequeue() returns (r: Taken<T>)
      requires Valid()
      modifies this, index
      ensures Valid() && placed == old(placed) && index == old(index)
      ensures r == if old(Contents()) == [] then Nothing else Got(old(Contents())[0])
      ensures head == (if r.Got? then old(head) + 1 else old(head)) <= |placed|
      ensures Contents() == if old(Contents()) == [] then [] else old(Contents())[1..]
      ensures done == old(done) + Range(old(head), head)
    {
      hide MemoryOk, LiveOk, IndexOk, Wrap, BlocksFor, CircularLess, DoneIn;
      r := Nothing;
      ghost var pos := head;
      var ok, i := Claim();
      if ok {
        var x := MoveOut(i, pos);
        r := Got(x);
      }
    }

    /** The first half of a bulk dequeue: as many tickets as there are elements, up to max. */
    method ClaimMany(max: nat) returns (n: nat, first: nat)
      requires Valid()
      modifies this`headIndex, this`dequeueOptimisticCount, this`head
      ensures Valid() && n == if max < |placed| - old(head) then max else |placed| - old(head)
      ensures head == old(head) + n && (n > 0 ==> first == Wrap(old(head)))
    {
      hide MemoryOk, LiveOk, IndexOk, Wrap, BlocksFor, CircularLess, DoneIn;
      n, first := 0, 0;
      PositionsAreClose();
      DesiredIsThere(head, |placed|, dequeueOptimisticCount, dequeueOvercommit);
      var desiredCount := Wrap(tailIndex - Wrap(dequeueOptimisticCount - dequeueOvercommit));
      if CircularLess(0, desiredCount) {
        desiredCount := if desiredCount < max then desiredCount else max;
        var myDequeueCount := dequeueOptimisticCount;
        WrapSum(head, desiredCount);
        OneMoreTicket(dequeueOptimisticCount, dequeueOvercommit, desiredCount);
        dequeueOptimisticCount := Wrap(dequeueOptimisticCount + desiredCount);
        var actualCount := Wrap(tailIndex - Wrap(myDequeueCount - dequeueOvercommit));
        assert CircularLess(0, actualCount) && desiredCount <= actualCount;
        n, first := desiredCount, headIndex;
        headIndex := Wrap(headIndex + desiredCount);
        head := head + desiredCount;
      }
    }

    /** A bulk dequeue that is not disturbed. */
    method DequeueBulk(max: nat) returns (xs: seq<T>)
      requires Valid()
      modifies this, index
      ensures Valid() && placed == old(placed) && index == old(index)
      ensures |xs| == (if max < |old(Contents())| then max else |old(Contents())|)
      ensures head == old(head) + |xs| <= |placed| && xs + Contents() == old(Contents())
      ensures done == old(done) + Range(old(head), head)
    {
      hide MemoryOk, LiveOk, IndexOk, Wrap, BlocksFor, CircularLess, DoneIn, Range;
      xs := [];
      PositionsAreClose();
      ghost var pos := head;
      var n, first := ClaimMany(max);
      if n > 0 {
        xs := MoveOutMany(first, n, pos);
      }
      SliceJoins(placed, pos, head, |placed|);
    }

    /** The rest of a bulk dequeue: the elements of n claimed indices are moved out, one block at a time, going
        round the index. */
    method MoveOutMany(first: nat, n: nat, ghost pos: nat) returns (xs: seq<T>)
      requires Valid() && 0 < n < TWO63 && first == Wrap(pos) && pos + n <= head
      requires forall i :: pos <= i < pos + n ==> i !in done
      modifies index, this`blocks, this`free, this`done, this`live
      ensures Valid()
      ensures xs == placed[pos..pos + n] && done == old(done) + Range(pos, pos + n)
    {
      hide Core, Wrap, BlocksFor, CircularLess, Back, BlockBase, LookUp, Stop, Range;
      xs := [];
      HeadWithin();
      RangeNone(pos);
      var i := first;
      var slot, block := FindBlock(first, pos);
      ghost var at := pos;
      var more := true;
      while more
        invariant Valid()
        invariant pos <= at <= pos + n && i == Wrap(at) && (more <==> at < pos + n)
        invariant xs == placed[pos..at] && done == old(done) + Range(pos, at)
        invariant more ==> SlotIsFor(slot, at / CELLS)
        decreases pos + n - at, more
      {
        WrapSum(pos, n);
        RangeJoins(pos, at, Stop(at, pos + n));
        SliceJoins(placed, pos, at, Stop(at, pos + n));
        var ys, endIndex, next := TakeBlock(slot, i, Wrap(first + n), at, pos + n);
        xs := xs + ys;
        assert done == old(done) + (Range(pos, at) + Range(at, Stop(at, pos + n)));
        at := Stop(at, pos + n);
        SameOffset(at, pos + n);
        i, slot := endIndex, next;
        more := i != Wrap(first + n);
      }
    }

    lemma HeadWithin()
      requires Core()
      ensures head <= |placed|
    {
    }

    lemma PositionsAreClose()
      requires Core()
      ensures head <= |placed| < head + TWO63
      ensures forall i :: i in done ==> i < head
    {
    }

    /** One round of that loop. */
    method TakeBlock(slot: nat, i: nat, last: nat, ghost at: nat, ghost upto: nat)
      returns (xs: seq<T>, endIndex: nat, next: nat)
      requires Valid() && at < upto <= head && upto < at + TWO63 && i == Wrap(at) && last == Wrap(upto)
      requires forall k :: at <= k < upto ==> k !in done
      requires SlotIsFor(slot, at / CELLS)
      modifies index, this`blocks, this`free, this`done, this`live
      ensures Valid() && endIndex == Wrap(Stop(at, upto))
      ensures xs == placed[at..Stop(at, upto)] && done == old(done) + Range(at, Stop(at, upto))
      ensures Stop(at, upto) < upto ==> SlotIsFor(next, Stop(at, upto) / CELLS)
    {
      hide MemoryOk, LiveOk, IndexOk, Wrap, BlocksFor, DoneIn, Back;
      endIndex := EndIndex(i, last, at, upto);
      xs := TakeRange(slot, i, endIndex, at, Stop(at, upto));
      if Stop(at, upto) < upto {
        NextSlotIs(slot, at / CELLS);
      }
      next := (slot + 1) % index.Length;
    }

    method EndIndex(i: nat, last: nat, ghost at: nat, ghost upto: nat) returns (endIndex: nat)
      requires at <= upto < at + TWO63 && i == Wrap(at) && last == Wrap(upto)
      ensures endIndex == Wrap(Stop(at, upto))
    {
      EndOfBlock(at, upto);
      endIndex := Wrap(BlockBase(i) + BLOCK_SIZE);
      if CircularLess(last, endIndex) {
        endIndex := last;
      }
    }

    /** The part of a stretch that lies in one block: its elements are moved out one by one and then counted
        all at once. */
    method TakeRange(slot: nat, first: nat, endIndex: nat, ghost at: nat, ghost end: nat) returns (xs: seq<T>)
      requires Valid() && at < end <= head && end <= CELLS * (at / CELLS) + CELLS
      requires SlotIsFor(slot, at / CELLS) && first == Wrap(at) && endIndex == Wrap(end)
      requires forall i :: at <= i < end ==> i !in done
      modifies index, this`blocks, this`free, this`done, this`live
      ensures Valid()
      ensures xs == placed[at..end] && done == old(done) + Range(at, end)
    {
      hide MemoryOk, LiveOk, IndexOk, Wrap, BlocksFor, DoneIn, LiveExcept, Range, FreeSlots, Back;
      ghost var b := at / CELLS;
      BlockOfIndexIsLive(live, done, made, at);
      var block := index[slot].value;
      SlotHolds(RingOf(), made - 1, live, b);
      LiveIsExcept(live, done, made, b);
      var count;
      xs, count := TakeCells(block, first, endIndex, at, end);
      blocks := blocks[block := blocks[block].(emptied := blocks[block].emptied + count)];
      EmptiedCount(blocks, live, placed, done, free + initial, b);
      LiveExceptEnd(live, done, made, b);
      if blocks[block].emptied == CELLS {
        Release(slot, block, b);
      }
      PartialBlockIsLive(live, done, made, |placed|);
    }

    method TakeCells(block: nat, first: nat, endIndex: nat, ghost at: nat, ghost end: nat) returns (xs: seq<T>, count: nat)
      requires at < end <= |placed| && end <= CELLS * (at / CELLS) + CELLS
      requires at / CELLS in live && block == live[at / CELLS] && first == Wrap(at) && endIndex == Wrap(end)
      requires MemoryOk(blocks, live, placed, done, free + initial) && LiveExcept(live, done, made, at / CELLS)
      requires forall i :: at <= i < end ==> i !in done
      modifies this`blocks, this`done
      ensures block in blocks && blocks.Keys == old(blocks.Keys) && count == end - at
      ensures xs == placed[at..end] && done == old(done) + Range(at, end)
      ensures MemoryOk(Counted(blocks, block, count), live, placed, done, free + initial)
      ensures LiveExcept(live, done, made, at / CELLS)
    {
      hide MemoryOk, Wrap, DoneIn, LiveExcept;
      ghost var b := at / CELLS;
      EmptiedCount(blocks, live, placed, done, free + initial, b);
      xs := [];
      var i := first;
      count := 0;
      CountedNone(blocks, block);
      while i != endIndex
        invariant count <= end - at && i == Wrap(at + count)
        invariant block in blocks && blocks.Keys == old(blocks.Keys)
        invariant MemoryOk(Counted(blocks, block, count), live, placed, done, free + initial)
        invariant xs == placed[at..at + count] && done == old(done) + Range(at, at + count)
        invariant LiveExcept(live, done, made, b)
        decreases end - at - count
      {
        SameOffset(at + count, end);
        VacateIsOk(Counted(blocks, block, count), live, placed, done, free + initial, at + count);
        LiveExceptDone(live, done, made, b, at + count);
        BlockOfPosition(at + count);
        var j := i % CELLS;
        xs := xs + [blocks[block].cells[j].value];
        CountedVacate(blocks, block, j, count);
        blocks := blocks[block := blocks[block].(cells := blocks[block].cells[j := Vacant])];
        done := done + {at + count};
        WrapSum(at + count, 1);
        count := count + 1;
        i := Wrap(i + 1);
      }
      SameOffset(at + count, end);
    }

    ghost predicate SlotIsFor(slot: int, b: int)
      reads this, index
    {
      && indexTail < index.Length && 0 <= made - 1 - b < index.Length
      && slot == Back(indexTail, made - 1 - b, index.Length)
    }

    lemma NextSlotIs(slot: nat, b: int)
      requires SlotIsFor(slot, b) && b + 1 <= made - 1
      ensures SlotIsFor((slot + 1) % index.Length, b + 1)
    {
      StepForward(indexTail, made - 1 - b, index.Length);
    }

    // ----- Bulk enqueueing -----

    /** What the allocation loop of enqueue_bulk has linked up, from block `from` to block made - 1. */
    ghost predicate Linking(firstAllocated: nat, endBlock: nat, startBlock: nat, from: int, first: nat)
      reads this
    {
      && first <= made && first - 1 <= from <= first
      && Chained(blocks, live, from, made)
      && (if made == first then firstAllocated == 0 && endBlock == startBlock
          else firstAllocated == live[first] != 0 && endBlock == live[made - 1] && blocks[endBlock].next == 0)
    }

    /** The links of a new block: nothing behind it, and the block before it, if in this chain, points to it. */
    method LinkBlock(newBlock: nat, after: bool, ghost from: int)
      requires MemoryOk(blocks, live, placed, done, free + initial)
      requires made > 0 && made - 1 in live && live[made - 1] == newBlock && newBlock in blocks
      requires from < made && Chained(blocks, live, from, made - 1)
      requires after <==> from < made - 1
      requires after ==> tailBlock == live[made - 2]
      modifies this`blocks
      ensures MemoryOk(blocks, live, placed, done, free + initial)
      ensures blocks.Keys == old(blocks.Keys) && blocks[newBlock].next == 0
      ensures Chained(blocks, live, from, made)
    {
      hide MemoryOk;
      LinkIsOk(blocks, live, placed, done, free + initial, newBlock, 0);
      LiveAreDistinct(blocks, live, placed, done, free + initial, made - 1);
      blocks := blocks[newBlock := blocks[newBlock].(next := 0)];
      if after {
        assert made - 2 in live && live[made - 2] in blocks;
        LiveAreDistinct(blocks, live, placed, done, free + initial, made - 2);
        LinkIsOk(blocks, live, placed, done, free + initial, tailBlock, newBlock);
        blocks := blocks[tailBlock := blocks[tailBlock].(next := newBlock)];
      }
    }

    lemma EmptyChain()
      requires Valid()
      ensures TailWas(made, tailBlock) && tailIndex % CELLS == |placed| % CELLS
      ensures Linking(0, tailBlock, tailBlock, ChainStart(), made)
    {
      TailOffset(|placed|);
      if |placed| % CELLS != 0 {
        NoNull(blocks, live, placed, done, free + initial);
      }
    }

    /** One round of the allocation loop. */
    method AllocateOne(blockStart: nat, canAlloc: bool, mallocs: nat, after: bool,
                       ghost firstAllocated: nat, ghost startBlock: nat, ghost from: int, ghost first: nat)
      returns (ok: bool, left: nat)
      requires Core() && blockStart == BaseOf(made)
      requires Linking(firstAllocated, tailBlock, startBlock, from, first)
      requires (from < made ==> tailBlock == live[made - 1]) && (after <==> from < made)
      modifies this`index, this`indexTail, this`nextCapacity, index
      modifies this`blocks, this`initial, this`free, this`unallocated, this`made, this`live, this`tailBlock
      ensures Core() && (index == old(index) || fresh(index))
      ensures old(index.Length) <= index.Length && (old(index.Length) == 0 ==> index.Length == 0)
      ensures ok <==> old(RoomForBlock(canAlloc, mallocs))
      ensures ok ==> SupplyOf(left) == old(Started(SupplyOf(mallocs)))
      ensures !ok ==> made == old(made) && live == old(live)
      ensures !ok ==> Linking(firstAllocated, tailBlock, startBlock, from, first)
      ensures forall b :: b in old(live) ==> b in live && live[b] == old(live)[b]
      ensures ok ==> made == old(made) + 1 && Older(live, first) == old(Older(live, first))
      ensures ok ==> Linking(if firstAllocated == 0 then tailBlock else firstAllocated, tailBlock, startBlock, from, first)
      ensures ok ==> made - 1 in live && tailBlock == live[made - 1]
    {
      hide MemoryOk, LiveOk, IndexOk, Wrap, DoneIn, BaseOf, Reusable, Chained, Older, CanStart, Started, FreeSlots;
      ghost var m, l := blocks, live;
      var newBlock;
      newBlock, left := StartBlock(blockStart, canAlloc, mallocs);
      ok := newBlock != 0;
      OlderKept(l, old(made), newBlock, first);
      ChainKept(m, blocks, l, live, placed, done, free + initial, from, old(made), newBlock);
      if ok {
        LinkBlock(newBlock, after, from);
        tailBlock := newBlock;
      }
    }

    /** Allocates the blocks for `count` more elements, or undoes everything. */
    method AllocateBlocks(count: nat, canAlloc: bool, mallocs: nat) returns (ok: bool, firstAllocated: nat, endBlock: nat)
      requires Valid() && count <= TWO64 - CELLS
      modifies this`index, this`indexTail, this`nextCapacity, index
      modifies this`blocks, this`initial, this`free, this`unallocated, this`made, this`live, this`tailBlock
      ensures index == old(index) || fresh(index)
      ensures ok <==> old(RoomForMany(count, canAlloc, mallocs))
      ensures !ok ==> Valid() && live == old(live) && made == old(made) < BlocksFor(|placed| + count)
      ensures ok ==> Core() && made == BlocksFor(|placed| + count) && Older(live, old(made)) == old(live)
      ensures ok ==> tailBlock == endBlock
      ensures ok ==> Linking(firstAllocated, endBlock, old(tailBlock), old(ChainStart()), old(made))
    {
      hide MemoryOk, LiveOk, IndexOk, Wrap, DoneIn, BlocksFor, BlockBase, Chained, Older, IndexValid, RoomFor, SupplyOf;
      var startTailIndex, startBlock := tailIndex, tailBlock;
      ghost var first, from, n := made, ChainStart(), BlocksFor(|placed| + count) - made;
      BulkBases(|placed|, count);
      var blockBaseDiff := Wrap(BlockBase(Wrap(startTailIndex + count - 1)) - BlockBase(Wrap(startTailIndex - 1)));
      LiveBelow(live, done, made, made);
      EmptyChain();
      ok, firstAllocated, endBlock := AllocateLoop(blockBaseDiff, BlockBase(Wrap(startTailIndex - 1)), canAlloc, mallocs, n);
      if !ok {
        Undo(firstAllocated, BlockBase(Wrap(startTailIndex - 1)), first, startBlock, from, endBlock);
      }
    }

    /** The allocation loop itself; it stops at the first block that cannot be had. */
    method AllocateLoop(diff: nat, base: nat, canAlloc: bool, mallocs: nat, ghost n: nat)
      returns (ok: bool, firstAllocated: nat, endBlock: nat)
      requires Core() && TailWas(made, tailBlock) && Older(live, made) == live
      requires Linking(0, tailBlock, tailBlock, ChainStart(), made)
      requires diff == CELLS * n && base == BaseOf(made - 1) && tailIndex % CELLS == |placed| % CELLS
      modifies this`index, this`indexTail, this`nextCapacity, index
      modifies this`blocks, this`initial, this`free, this`unallocated, this`made, this`live, this`tailBlock
      ensures index == old(index) || fresh(index)
      ensures ok <==> old(RoomFor(made + n, made, head, SupplyOf(mallocs), canAlloc))
      ensures Core() && TailWas(old(made), old(tailBlock)) && Older(live, old(made)) == old(live)
      ensures old(made) <= made <= old(made) + n && (ok <==> made == old(made) + n) && (ok ==> tailBlock == endBlock)
      ensures Linking(firstAllocated, endBlock, old(tailBlock), old(ChainStart()), old(made))
    {
      hide MemoryOk, LiveOk, IndexOk, Wrap, DoneIn, BlocksFor, Chained, Older, IndexValid, RoomFor, SupplyOf;
      ghost var first, from, startBlock := made, ChainStart(), tailBlock;
      var startTailIndex := tailIndex;
      firstAllocated, endBlock := 0, tailBlock;
      var blockBaseDiff, currentTail, left := diff, base, mallocs;
      ok := true;
      while blockBaseDiff > 0
        invariant index == old(index) || fresh(index)
        invariant Core() && first <= made <= first + n && TailWas(first, startBlock)
        invariant blockBaseDiff == CELLS * (first + n - made) && currentTail == BaseOf(made - 1)
        invariant Older(live, first) == old(live)
        invariant Linking(firstAllocated, endBlock, startBlock, from, first) && tailBlock == endBlock
        invariant old(RoomFor(made + n, made, head, SupplyOf(mallocs), canAlloc)) <==> RoomFor(first + n, made, head, SupplyOf(left), canAlloc)
      {
        blockBaseDiff := blockBaseDiff - BLOCK_SIZE;
        currentTail := Wrap(currentTail + BLOCK_SIZE);
        WrapSum(CELLS * (made - 1), CELLS);
        RoomForStep(first + n, made, head, SupplyOf(left), canAlloc);
        var after := startTailIndex % BLOCK_SIZE != 0 || firstAllocated != 0;
        ok, left := AllocateOne(currentTail, canAlloc, left, after, firstAllocated, startBlock, from, first);
        if !ok {
          return;
        }
        endBlock := tailBlock;
        firstAllocated := if firstAllocated == 0 then tailBlock else firstAllocated;
      }
      RoomForNone(made, head, SupplyOf(left), canAlloc);
    }

    /** Takes the new blocks back. */
    method Undo(firstAllocated: nat, before: nat, ghost first: nat, startBlock: nat, ghost from: int, ghost endBlock: nat)
      requires Core() && first <= made && before == BaseOf(first - 1) && |placed| <= CELLS * first
      requires Linking(firstAllocated, endBlock, startBlock, from, first)
      requires TailWas(first, startBlock)
      modifies index, this`indexTail, this`free, this`live, this`made, this`tailBlock
      ensures Valid() && made == first && live == old(Older(live, first))
    {
      hide MemoryOk, LiveOk, IndexOk, Wrap, BaseOf, BlocksFor, Chained, RingOf, Older;
      OlderHas(live, first, first - 1);
      LiveBelow(live, done, made, first);
      GiveBackNew(firstAllocated, before, first, from, startBlock, endBlock);
      tailBlock := startBlock;
    }

    /** Clears the entries of the new blocks and rewinds the index, block by block along the chain, then gives
        the blocks back. */
    method GiveBackNew(firstAllocated: nat, before: nat, ghost first: nat, ghost from: int,
                       ghost startBlock: nat, ghost endBlock: nat)
      requires IndexValid() && MemoryOk(blocks, live, placed, done, free + initial) && LiveOk(live, done, made)
      requires first <= made && before == BaseOf(first - 1) && |placed| <= CELLS * first
      requires Linking(firstAllocated, endBlock, startBlock, from, first)
      modifies index, this`indexTail, this`free, this`live, this`made
      ensures IndexValid() && MemoryOk(blocks, live, placed, done, free + initial)
      ensures made == first && live == old(Older(live, first))
    {
      hide MemoryOk, LiveOk, IndexOk, Wrap, BaseOf, Chained, RingOf, Older;
      ghost var n := made - first;
      ChainSuffix(blocks, live, from, first, made);
      LiveBelow(live, done, made, first);
      NoNull(blocks, live, placed, done, free + initial);
      ClearEntries(firstAllocated, before, first, n);
      AddBlocksToFreeList(firstAllocated, first, n);
      made := first;
    }

    /** The tail block before the bulk enqueue, when `first` blocks had been made. */
    ghost predicate TailWas(first: nat, startBlock: nat)
      reads this
    {
      && tailIndex == Wrap(|placed|) && first == BlocksFor(|placed|) && |placed| <= CELLS * first
      && (|placed| % CELLS != 0 ==> |placed| / CELLS == first - 1 && |placed| / CELLS in live && startBlock == live[|placed| / CELLS])
    }

    /** The undo loop over the index. A block is looked up while the tail is already rewound past it. */
    method ClearEntries(firstAllocated: nat, before: nat, ghost first: nat, ghost n: nat)
      requires IndexValid() && first + n == made && before == BaseOf(first - 1)
      requires Chained(blocks, live, first, made) && 0 !in blocks
      requires if n == 0 then firstAllocated == 0 else firstAllocated == live[first] && blocks[live[made - 1]].next == 0
      modifies index, this`indexTail
      ensures index.Length > 0 ==> IndexOk(RingOf(), first - 1, Older(live, first))
    {
      hide IndexOk, Wrap, LookUp, Back, Rewind;
      if index.Length > 0 {
        NewBlocksFit(RingOf(), first, n, live);
        ClearedNone(RingOf(), n);
      }
      ghost var r0 := RingOf();
      var currentTail, block := before, firstAllocated;
      ghost var j := 0;
      while block != 0
        invariant j <= n && block == if j < n then live[first + j] else 0
        invariant currentTail == BaseOf(first + j - 1)
        invariant index.Length > 0 ==> Rewound(r0, n, j)
        decreases n - j
      {
        WrapSum(CELLS * (first + j - 1), CELLS);
        currentTail := Wrap(currentTail + BLOCK_SIZE);
        ClearOne(currentTail, r0, first, n, j);
        block := blocks[block].next;
        j := j + 1;
      }
      if index.Length > 0 {
        UndoneIsOk(r0, first, n, live, index[..]);
      }
    }

    /** The index after j of n insertions have been taken back. */
    ghost predicate Rewound(r0: Ring, n: nat, j: nat)
      reads this, index
      requires r0.tail < |r0.slots|
    {
      Cleared(index[..], r0, n, j) && indexTail == Back(r0.tail, j, |r0.slots|)
    }

    method ClearOne(currentTail: nat, ghost r0: Ring, ghost first: nat, ghost n: nat, ghost j: nat)
      requires IndexOk(r0, first + n - 1, live) && Rewound(r0, n, j) && j < n
      requires forall b :: first <= b < first + n ==> b in live
      requires currentTail == BaseOf(first + j)
      modifies index, this`indexTail
      ensures Rewound(r0, n, j + 1)
    {
      hide IndexOk, Wrap, LookUp, Back, Cleared;
      SameShape(r0, first + n - 1, live, index[..], n, j);
      ClearedKeys(index[..], r0, n, j);
      LookUpWhileRewinding(r0, first + n - 1, live, index[..], j, first + j);
      var slot := FindSlot(currentTail);
      ClearedStep(index[..], r0, n, j);
      StoreValue(slot, 0);
      RewindIndexTail();
      RewindStep(r0, j);
    }

    /** The blocks of a chain go on the free list one after the other. */
    method AddBlocksToFreeList(firstAllocated: nat, ghost first: nat, ghost n: nat)
      requires MemoryOk(blocks, live, placed, done, free + initial) && |placed| <= CELLS * first
      requires Chained(blocks, live, first, first + n)
      requires if n == 0 then firstAllocated == 0 else firstAllocated == live[first] && blocks[live[first + n - 1]].next == 0
      requires forall b :: b in live ==> b < first + n
      modifies this`free, this`live
      ensures MemoryOk(blocks, live, placed, done, free + initial) && live == old(Older(live, first))
    {
      hide OwnedOk, BlockOk, DoneIn;
      var block := firstAllocated;
      NoNull(blocks, live, placed, done, free + initial);
      ghost var j, l := 0, live;
      while block != 0
        invariant j <= n && block == if j < n then l[first + j] else 0
        invariant live == Except(l, first, first + j)
        invariant MemoryOk(blocks, live, placed, done, free + initial)
        decreases n - j
      {
        var next := blocks[block].next;
        assert first + j in live && live[first + j] == block;
        EmptiedIsVacant(blocks[block], first + j, placed, done);
        ReturnIsOk(blocks, live, placed, done, free + initial, first + j);
        assert [block] + (free + initial) == ([block] + free) + initial;
        free := [block] + free;
        live := live - {first + j};
        block := next;
        j := j + 1;
      }
      assert live == Older(l, first);
    }

    /** All the items are enqueued, or, when some block cannot be had, none. */
    method EnqueueBulk(items: seq<T>, canAlloc: bool, mallocs: nat) returns (ok: bool)
      requires Valid() && |items| <= TWO64 - CELLS
      modifies this, index
      ensures Valid() && (index == old(index) || fresh(index))
      ensures placed == if ok then old(placed) + items else old(placed)
      ensures head == old(head) && done == old(done)
      ensures ok <==> old(RoomForMany(|items|, canAlloc, mallocs))
      ensures !ok ==> live == old(live) && made == old(made) && BlocksFor(|old(placed)| + |items|) > made
    {
      hide Core, Wrap, BaseOf, BlocksFor, CircularLess, Chained, Older, RoomForMany;
      ghost var first, from := made, ChainStart();
      var startBlock := tailBlock;
      TailOffset(|placed|);
      if |placed| % CELLS != 0 {
        OlderStays(live, made, from);
      }
      var firstAllocated, endBlock;
      ok, firstAllocated, endBlock := AllocateBlocks(|items|, canAlloc, mallocs);
      if ok {
        WrapSum(|placed|, |items|);
        Fill(items, startBlock, firstAllocated, endBlock, first, from);
        tailIndex := Wrap(tailIndex + |items|);
      }
    }

    /** Enqueues one block at a time along the chain. Without items its one round does nothing. */
    method Fill(items: seq<T>, startBlock: nat, firstAllocated: nat, endBlock: nat, ghost first: nat, ghost from: int)
      requires Core() && tailIndex == Wrap(|placed|) && made == BlocksFor(|placed| + |items|)
      requires Linking(firstAllocated, endBlock, startBlock, from, first) && first == BlocksFor(|placed|)
      requires |placed| % CELLS == 0 ==> from == first
      requires |placed| % CELLS != 0 ==> from == first - 1 && from in live && startBlock == live[from]
      modifies this`blocks, this`placed, this`tailBlock
      ensures Core() && placed == old(placed) + items
      ensures |placed| % CELLS != 0 ==> |placed| / CELLS in live && tailBlock == live[|placed| / CELLS]
    {
      hide Core, Wrap, CircularLess, Chained, BlockBase, BlocksFor, Stop;
      FirstBlock(|placed|, |items|);
      WrapSum(|placed|, |items|);
      ghost var upto, b := |placed| + |items|, from;
      var newTail := Wrap(tailIndex + |items|);
      var i := tailIndex;
      tailBlock := startBlock;
      if items == [] {
        TailOffset(|placed|);
        return;
      }
      if i % BLOCK_SIZE == 0 && firstAllocated != 0 {
        tailBlock := firstAllocated;
      }
      ChainEnds(blocks, live, from, made);
      FillChain(items, i, newTail, endBlock, from, upto);
      TailOffset(upto);
    }

    /** The loop over the blocks of the chain. */
    method FillChain(items: seq<T>, first: nat, newTail: nat, endBlock: nat, ghost from: int, ghost upto: nat)
      requires Core() && first == Wrap(|placed|) && newTail == Wrap(upto) && upto == |placed| + |items| > |placed|
      requires Chained(blocks, live, from, made) && InBlock(from, from)
      requires CELLS * from <= |placed| < CELLS * from + CELLS && CELLS * made - CELLS < upto <= CELLS * made
      requires made - 1 in live && endBlock == live[made - 1]
      modifies this`blocks, this`placed, this`tailBlock
      ensures Core() && placed == old(placed) + items
      ensures InBlock(from, made - 1)
    {
      hide Core, Wrap, CircularLess, Chained, BlockBase, BlocksFor, Stop;
      ghost var b := from;
      var i := first;
      var rest: nat, more := 0, true;
      while more
        invariant Core() && i == Wrap(|placed|) && |placed| <= upto
        invariant rest == |placed| - |old(placed)| <= |items| && placed == old(placed) + items[..rest]
        invariant Chained(blocks, live, from, made) && InBlock(from, b)
        invariant more ==> |placed| < upto && CELLS * b <= |placed| < CELLS * b + CELLS
        invariant !more ==> |placed| == upto && b == made - 1
        decreases made - b, more
      {
        ghost var rest0 := rest;
        i, rest := FillRound(items, rest, i, newTail, from, b, upto);
        more := tailBlock != endBlock;
        NextBlock(from, b);
        SliceJoins(items, 0, rest0, rest);
        StopOfBlock(rest0 + |old(placed)|, upto, b, made);
        if more {
          tailBlock := blocks[tailBlock].next;
          b := b + 1;
        }
      }
    }

    ghost predicate InBlock(from: int, b: int)
      reads this`made, this`live, this`tailBlock
    {
      from <= b < made && b in live && tailBlock == live[b]
    }

    /** One round: up to the end of the block, or of the items. */
    method FillRound(items: seq<T>, rest: nat, i: nat, newTail: nat, ghost from: int, ghost b: int, ghost upto: nat)
      returns (stopIndex: nat, rest': nat)
      requires Core() && i == Wrap(|placed|) && newTail == Wrap(upto)
      requires CELLS * b <= |placed| < CELLS * b + CELLS && |placed| < upto <= CELLS * made
      requires rest + (upto - |placed|) == |items|
      requires Chained(blocks, live, from, made) && InBlock(from, b)
      modifies this`blocks, this`placed
      ensures Core() && Chained(blocks, live, from, made)
      ensures stopIndex == Wrap(|placed|) && |placed| == Stop(|old(placed)|, upto)
      ensures rest' - rest == |placed| - |old(placed)| && placed == old(placed) + items[rest..rest']
    {
      hide Core, Wrap, CircularLess, Chained, BlockBase;
      RoomLeft(upto);
      ghost var before := blocks;
      stopIndex := EndIndex(i, newTail, |placed|, upto);
      rest' := FillBlock(items, rest, i, stopIndex, b, Stop(|placed|, upto));
      ChainSameLinks(before, blocks, live, from, made);
    }

    lemma RoomLeft(upto: nat)
      requires Core() && upto <= CELLS * made
      ensures upto < |placed| + TWO63
    {
    }

    lemma NextBlock(from: int, b: int)
      requires Core() && Chained(blocks, live, from, made) && from <= b < made
      ensures b in live && made - 1 in live && live[b] in blocks
      ensures b < made - 1 ==> live[b] != live[made - 1] && b + 1 in live && blocks[live[b]].next == live[b + 1]
    {
      NextInChain(blocks, live, placed, done, free + initial, from, b, made);
    }

    method FillBlock(items: seq<T>, from: nat, first: nat, stopIndex: nat, ghost b: int, ghost end: nat) returns (rest: nat)
      requires Core() && |placed| <= end <= |placed| + |items| - from && first == Wrap(|placed|) && stopIndex == Wrap(end)
      requires |placed| < end ==> CELLS * b <= |placed| && end <= CELLS * b + CELLS && end <= CELLS * made
      requires |placed| < end ==> b in live && tailBlock == live[b]
      modifies this`blocks, this`placed
      ensures Core() && from <= rest <= |items| && placed == old(placed) + items[from..rest] && |placed| == end
      ensures forall a :: a in old(blocks) ==> a in blocks && blocks[a].next == old(blocks)[a].next
    {
      hide MemoryOk, LiveOk, IndexOk, Wrap;
      var i := first;
      rest := from;
      ghost var start := |placed|;
      SameOffset(|placed|, end);
      while i != stopIndex
        invariant Core() && from <= rest && start <= |placed| == start + (rest - from) <= end && i == Wrap(|placed|)
        invariant placed == old(placed) + items[from..rest] && (i != stopIndex <==> |placed| < end)
        invariant forall a :: a in old(blocks) ==> a in blocks && blocks[a].next == old(blocks)[a].next
        decreases end - |placed|
      {
        PlaceNext(i, items[rest]);
        WrapSum(|placed| - 1, 1);
        SameOffset(|placed|, end);
        i := Wrap(i + 1);
        rest := rest + 1;
      }
    }

    /** Whether there is room for `count` more elements below 2^63 positions, and everything for the blocks that
        they need. */
    ghost predicate RoomForMany(count: nat, canAlloc: bool, mallocs: nat)
      reads this, index
    {
      RoomFor(BlocksFor(|placed| + count), made, head, SupplyOf(mallocs), canAlloc)
    }

    /** In terms of what there is: the index grows just as often as it must, and allocations are enough for that
        and for the blocks that the pool does not have. */
    lemma RoomForManyExactly(count: nat, canAlloc: bool, mallocs: nat)
      ensures var upto := BlocksFor(|placed| + count);
        RoomForMany(count, canAlloc, mallocs)
        <==> CELLS * upto - head < TWO63 && (upto > made ==> Enough(SupplyOf(mallocs), upto - made, canAlloc))
    {
      var upto := BlocksFor(|placed| + count);
      if upto > made {
        CanStartManyExactly(SupplyOf(mallocs), upto - made, canAlloc);
      }
    }

    ghost function ChainStart(): int
      reads this
    {
      if |placed| % CELLS != 0 then made - 1 else made
    }
  }

  /** A new block does not disturb the chain. */
  lemma ChainKept<T>(m: Memory<T>, m': Memory<T>, live: map<int, nat>, live': map<int, nat>, placed: seq<T>,
                     done: set<nat>, pool: seq<nat>, from: int, made: nat, id: nat)
    requires Chained(m, live, from, made) && MemoryOk(m', live', placed, done, pool)
    requires if id == 0 then live' == live else made !in live && live' == live[made := id]
    requires forall a :: a in m && a != id ==> a in m' && m'[a] == m[a]
    ensures Chained(m', live', from, made)
    ensures from < made && made > 0 ==> made - 1 in live && live[made - 1] in m' && m'[live[made - 1]] == m[live[made - 1]]
  {
    forall b | from <= b < made
      ensures live'[b] == live[b] && live[b] in m' && m'[live[b]] == m[live[b]]
    {
      if id != 0 {
        assert live'[made] == id && live'[b] != live'[made];
      } else {
        assert 0 !in m';
      }
    }
  }

  ghost function Except(live: map<int, nat>, lo: int, hi: int): map<int, nat> {
    map b | b in live && !(lo <= b < hi) :: live[b]
  }

  /** The slots after the entries of the first j of n new blocks have been cleared. */
  ghost predicate Cleared(slots: seq<Entry>, r: Ring, n: nat, j: nat)
    requires r.tail < |r.slots|
  {
    && |slots| == |r.slots| && j <= n <= |slots|
    && forall k :: 0 <= k < |slots| ==> var i := Back(r.tail, k, |slots|);
        slots[i] == if n - j <= k < n then r.slots[i].(value := 0) else r.slots[i]
  }

  lemma ClearedNone(r: Ring, n: nat)
    requires r.tail < |r.slots| && n <= |r.slots|
    ensures Cleared(r.slots, r, n, 0) && Back(r.tail, 0, |r.slots|) == r.tail
  {
  }

  lemma ClearedKeys(slots: seq<Entry>, r: Ring, n: nat, j: nat)
    requires r.tail < |r.slots| && Cleared(slots, r, n, j)
    ensures forall i :: 0 <= i < |slots| ==> slots[i].key == r.slots[i].key
  {
    forall i | 0 <= i < |slots|
      ensures slots[i].key == r.slots[i].key
    {
      var k := if i <= r.tail then r.tail - i else r.tail - i + |slots|;
      assert Back(r.tail, k, |slots|) == i;
    }
  }

  lemma ClearedStep(slots: seq<Entry>, r: Ring, n: nat, j: nat)
    requires r.tail < |r.slots| && Cleared(slots, r, n, j) && j < n
    ensures var i := Back(r.tail, n - 1 - j, |slots|); Cleared(slots[i := slots[i].(value := 0)], r, n, j + 1)
  {
  }

  lemma SameShape(r: Ring, last: int, live: map<int, nat>, slots: seq<Entry>, n: nat, j: nat)
    requires IndexOk(r, last, live) && Cleared(slots, r, n, j) && j < n
    ensures |slots| == |r.slots| && j < |slots| && n <= |slots| && Shape(r)
    ensures Shape(Ring(slots, Back(r.tail, j, |slots|)))
  {
  }

  lemma RewindStep(r: Ring, j: nat)
    requires Shape(r) && j < |r.slots|
    ensures Wrap(Back(r.tail, j, |r.slots|) - 1) % |r.slots| == Back(r.tail, j + 1, |r.slots|)
  {
    PreviousIsBack(Back(r.tail, j, |r.slots|), |r.slots|);
  }

  lemma NewBlocksFit(r: Ring, first: int, n: nat, live: map<int, nat>)
    requires IndexOk(r, first + n - 1, live) && forall b :: first <= b < first + n ==> b in live
    ensures n <= |r.slots| && Shape(r)
  {
    if n > 0 {
      assert first in live;
    }
  }

  lemma ChainSuffix<T>(m: Memory<T>, live: map<int, nat>, from: int, first: int, upto: int)
    requires Chained(m, live, from, upto) && from <= first
    ensures Chained(m, live, first, upto)
  {
  }

  lemma ChainEnds<T>(m: Memory<T>, live: map<int, nat>, from: int, upto: int)
    requires Chained(m, live, from, upto)
    ensures from < upto ==> from in live && upto - 1 in live
  {
  }

  lemma ChainSameLinks<T>(m: Memory<T>, m': Memory<T>, live: map<int, nat>, from: int, upto: int)
    requires Chained(m, live, from, upto)
    requires forall a :: a in m ==> a in m' && m'[a].next == m[a].next
    ensures Chained(m', live, from, upto)
  {
  }

  /** The chain leads from each block to the next, and ends at the last one only. */
  lemma NextInChain<T>(m: Memory<T>, live: map<int, nat>, placed: seq<T>, done: set<nat>, pool: seq<nat>,
                       from: int, b: int, upto: int)
    requires Chained(m, live, from, upto) && MemoryOk(m, live, placed, done, pool) && from <= b < upto
    ensures b in live && upto - 1 in live && live[b] in m
    ensures b < upto - 1 ==> live[b] != live[upto - 1] && b + 1 in live && m[live[b]].next == live[b + 1]
  {
  }

  /** In a block that is not the last one a round ends at the end of the block, in the last one at the end. */
  lemma StopOfBlock(at: nat, upto: nat, b: int, made: int)
    requires CELLS * b <= at < CELLS * b + CELLS && at < upto
    requires CELLS * made - CELLS < upto <= CELLS * made
    ensures b < made - 1 ==> Stop(at, upto) == CELLS * b + CELLS < upto
    ensures b == made - 1 ==> Stop(at, upto) == upto
  {
    assert at / CELLS == b;
  }

  /** The blocks around the elements n to n + count - 1. */
  lemma FirstBlock(n: nat, count: nat)
    ensures Wrap(n) % BLOCK_SIZE == n % CELLS
    ensures if n % CELLS == 0 then n == CELLS * BlocksFor(n) else CELLS * BlocksFor(n) - CELLS < n < CELLS * BlocksFor(n)
    ensures n + count <= CELLS * BlocksFor(n + count) < n + count + CELLS
    ensures BlocksFor(n) <= BlocksFor(n + count)
  {
    hide BlocksFor, Wrap;
    WrapKeepsOffset(n);
    BlocksForBounds(n);
    BlocksForBounds(n + count);
  }

  lemma BlocksForBounds(n: nat)
    ensures n <= CELLS * BlocksFor(n) < n + CELLS
  {
  }

  lemma OlderStays(live: map<int, nat>, made: nat, b: int)
    requires b < made && b in live
    ensures forall l: map<int, nat> :: Older(l, made) == live ==> b in l && l[b] == live[b]
  {
    forall l: map<int, nat> | Older(l, made) == live
      ensures b in l && l[b] == live[b]
    {
      assert b in Older(l, made);
    }
  }

  lemma OlderHas(live: map<int, nat>, first: nat, b: int)
    requires b < first
    ensures b in live ==> b in Older(live, first) && Older(live, first)[b] == live[b]
  {
  }

  lemma OlderKept(live: map<int, nat>, made: int, id: nat, first: nat)
    requires first <= made
    ensures Older(live[made := id], first) == Older(live, first)
  {
  }

  lemma LiveBelow(live: map<int, nat>, done: set<nat>, made: nat, first: nat)
    requires LiveOk(live, done, made) && first <= made
    ensures LiveOk(Older(live, first), done, first) && forall b :: b in live ==> b < made
    ensures first == made ==> Older(live, first) == live
  {
  }

  ghost function Older(live: map<int, nat>, first: nat): map<int, nat> {
    map b | b in live && b < first :: live[b]
  }

  lemma NoNull<T>(m: Memory<T>, live: map<int, nat>, placed: seq<T>, done: set<nat>, pool: seq<nat>)
    requires MemoryOk(m, live, placed, done, pool)
    ensures 0 !in m && forall b :: b in live ==> live[b] in m
  {
  }

  lemma LiveAreDistinct<T>(m: Memory<T>, live: map<int, nat>, placed: seq<T>, done: set<nat>, pool: seq<nat>, b: int)
    requires MemoryOk(m, live, placed, done, pool) && b in live
    ensures forall c :: c in live && c != b ==> live[c] != live[b] && live[c] in m
  {
  }

  /** The number of bytes to allocate blocks for, and where to start: the computation wraps at the start of the
      queue and is right all the same. */
  lemma BulkBases(start: nat, count: nat)
    requires count <= TWO64 - CELLS
    ensures BlocksFor(start) <= BlocksFor(start + count)
    ensures BlockBase(Wrap(Wrap(start) - 1)) == BaseOf(BlocksFor(start) - 1)
    ensures Wrap(BlockBase(Wrap(Wrap(start) + count - 1)) - BlockBase(Wrap(Wrap(start) - 1)))
            == CELLS * (BlocksFor(start + count) - BlocksFor(start))
  {
    hide Wrap, BlockBase, BlocksFor;
    WrapSum(start, -1);
    WrapSum(start, count - 1);
    BlockOfPosition(start - 1);
    BlockOfPosition(start + count - 1);
    BlockBefore(start);
    BlockBefore(start + count);
    BlocksForBounds(start);
    BlocksForBounds(start + count);
    var n := BlocksFor(start + count) - BlocksFor(start);
    WrapDifference(CELLS * (BlocksFor(start + count) - 1), CELLS * (BlocksFor(start) - 1));
    assert 0 <= CELLS * n < TWO64;
    WrapNear(CELLS * n);
  }

  lemma BlockBefore(n: nat)
    ensures (n - 1) / CELLS == BlocksFor(n) - 1
  {
  }

  /** Where a stretch of indices starting at `at` leaves its block, or ends. */
  function Stop(at: nat, upto: nat): (end: nat)
    requires at <= upto
    ensures at <= end <= upto && (at < upto ==> at < end) && (end < upto ==> end % CELLS == 0)
  {
    var next := CELLS * (at / CELLS) + CELLS;
    if upto < next then upto else next
  }

  /** The end of a stretch within a block, as the program computes it. */
  lemma EndOfBlock(at: nat, upto: nat)
    requires at <= upto < at + TWO63
    ensures var end := Wrap(BlockBase(Wrap(at)) + BLOCK_SIZE);
      Wrap(Stop(at, upto)) == if CircularLess(Wrap(upto), end) then Wrap(upto) else end
  {
    BlockOfPosition(at);
    WrapSum(CELLS * (at / CELLS), CELLS);
    CircularLessIsOrder(upto, CELLS * (at / CELLS) + CELLS);
  }

  /** Positions less than 2^64 apart are the same when their stored values are. */
  lemma SameOffset(x: nat, y: nat)
    requires x <= y < x + TWO64
    ensures Wrap(x) == Wrap(y) <==> x == y
  {
    WrapDifference(y, x);
    WrapNear(y - x);
  }

  /** The blocks with k more counted as moved out of one of them. */
  function Counted<T>(m: Memory<T>, id: nat, k: nat): Memory<T>
    requires id in m
  {
    m[id := m[id].(emptied := m[id].emptied + k)]
  }

  lemma CountedNone<T>(m: Memory<T>, id: nat)
    requires id in m
    ensures Counted(m, id, 0) == m
  {
  }

  lemma CountedVacate<T>(m: Memory<T>, id: nat, j: nat, k: nat)
    requires id in m && j < |m[id].cells|
    ensures Counted(Put(m, id, j, Vacant), id, k + 1) == Vacate(Counted(m, id, k), id, j)
  {
  }

  /** Like LiveOk, but block b is taken as live although it may just have been emptied. */
  ghost predicate LiveExcept(live: map<int, nat>, done: set<nat>, made: nat, b: int) {
    forall c :: c in live <==> 0 <= c < made && (c == b || DoneIn(done, c, CELLS) < CELLS)
  }

  lemma LiveIsExcept(live: map<int, nat>, done: set<nat>, made: nat, b: int)
    requires LiveOk(live, done, made) && b in live
    ensures LiveExcept(live, done, made, b)
  {
  }

  lemma LiveExceptDone(live: map<int, nat>, done: set<nat>, made: nat, b: int, i: nat)
    requires LiveExcept(live, done, made, b) && i !in done && i / CELLS == b
    ensures LiveExcept(live, done + {i}, made, b)
  {
    forall c: int
      ensures c != b ==> DoneIn(done + {i}, c, CELLS) == DoneIn(done, c, CELLS)
    {
      DoneInGrows(done, c, CELLS, i);
    }
  }

  lemma LiveExceptEnd(live: map<int, nat>, done: set<nat>, made: nat, b: int)
    requires LiveExcept(live, done, made, b) && b in live
    ensures if DoneIn(done, b, CELLS) == CELLS then LiveOk(live - {b}, done, made) else LiveOk(live, done, made)
  {
  }

  ghost function Range(lo: nat, hi: nat): (r: set<nat>)
    ensures forall i :: i in r <==> lo <= i < hi
  {
    if lo >= hi then {} else Range(lo, hi - 1) + {hi - 1}
  }

  lemma RangeNone(a: nat)
    ensures Range(a, a) == {}
  {
  }

  lemma SliceJoins<T>(s: seq<T>, a: nat, b: nat, c: nat)
    requires a <= b <= c <= |s|
    ensures s[a..b] + s[b..c] == s[a..c]
  {
  }

  lemma RangeJoins(a: nat, b: nat, c: nat)
    requires a <= b <= c
    ensures Range(a, b) + Range(b, c) == Range(a, c)
  {
  }

  lemma InitialMemory<T>(m: Memory<T>, pool: seq<nat>)
    requires (forall id :: id in m <==> id in pool) && (forall id :: id in m ==> m[id] == NewBlock())
    requires forall i :: 0 <= i < |pool| ==> pool[i] == i + 1
    ensures MemoryOk(m, map[], [], {}, pool)
  {
  }

  lemma NothingLive(done: set<nat>)
    ensures LiveOk(map[], done, 0)
  {
  }

  lemma NewRingIsOk(r: Ring)
    requires |r.slots| == INITIAL_INDEX_SIZE && r.tail < |r.slots|
    requires forall i :: 0 <= i < |r.slots| ==> r.slots[i].key == INVALID_BLOCK_BASE
    ensures IndexOk(r, -1, map[])
  {
    assert IsPow2(4) && IsPow2(32);
  }

  lemma BlockOfPosition(pos: int)
    ensures BlockBase(Wrap(pos)) == BaseOf(pos / CELLS) && Wrap(pos) < TWO64 && Wrap(pos) % CELLS == pos % CELLS
  {
    WrapKeepsOffset(pos);
    WrapSum(pos, 0 - pos % CELLS);
    WrapNear(Wrap(pos) - pos % CELLS);
  }

  lemma EmptiedCount<T>(m: Memory<T>, live: map<int, nat>, placed: seq<T>, done: set<nat>, pool: seq<nat>, b: int)
    requires MemoryOk(m, live, placed, done, pool) && b in live
    ensures live[b] in m && m[live[b]].emptied == DoneIn(done, b, CELLS)
  {
  }

  /** A block that is not filled up cannot have been emptied. */
  lemma PartialBlockIsLive(live: map<int, nat>, done: set<nat>, made: nat, n: nat)
    requires LiveOk(live, done, made) && n <= CELLS * made && n !in done
    ensures n % CELLS != 0 ==> n / CELLS in live
  {
    if n % CELLS != 0 {
      BlockOfIndexIsLive(live, done, made, n);
    }
  }

  /** The room test of the program, and the assertion before it. */
  lemma RoomTest(head: nat, made: nat)
    requires head <= CELLS * made && CELLS * made - head < TWO63
    ensures !CircularLess(BaseOf(made), Wrap(head))
    ensures CircularLess(Wrap(head), Wrap(BaseOf(made) + BLOCK_SIZE)) <==> CELLS * made + CELLS - head < TWO63
  {
    CircularLessIsOrder(CELLS * made, head);
    CircularLessIsOrder(head, CELLS * made + CELLS);
    WrapSum(CELLS * made, CELLS);
  }

  /** Whether blocks up to number `upto` can be started. */
  predicate RoomFor(upto: nat, made: nat, head: nat, s: Supply, canAlloc: bool) {
    CELLS * upto - head < TWO63 && (upto > made ==> CanStartMany(s, upto - made, canAlloc))
  }

  lemma RoomForStep(upto: nat, made: nat, head: nat, s: Supply, canAlloc: bool)
    requires made < upto
    ensures RoomFor(upto, made, head, s, canAlloc) ==
      (CELLS * made + CELLS - head < TWO63 && CanStart(s, canAlloc) && RoomFor(upto, made + 1, head, Started(s), canAlloc))
  {
    hide CanStart, Started;
    assert upto - made - 1 == upto - (made + 1);
    assert CanStartMany(s, upto - made, canAlloc) == (CanStart(s, canAlloc) && CanStartMany(Started(s), upto - made - 1, canAlloc));
  }

  lemma RoomForNone(made: nat, head: nat, s: Supply, canAlloc: bool)
    ensures RoomFor(made, made, head, s, canAlloc) <==> CELLS * made - head < TWO63
  {
  }

  /** The test of the tickets, between positions less than 2^63 apart. */
  lemma TestIsOrder(head: nat, tail: nat)
    requires head <= tail < head + TWO63
    ensures CircularLess(Wrap(head), Wrap(tail)) <==> head < tail
  {
    CircularLessIsOrder(head, tail);
  }

  lemma OneMoreTicket(optimistic: nat, overcommit: nat, n: nat)
    ensures Wrap(Wrap(optimistic + n) - overcommit) == Wrap(Wrap(optimistic - overcommit) + n)
  {
    WrapSum(optimistic + n, 0 - overcommit);
    WrapSum(optimistic - overcommit, n);
  }

  lemma DesiredIsThere(head: nat, tail: nat, optimistic: nat, overcommit: nat)
    requires head <= tail < head + TWO63 && Wrap(head) == Wrap(optimistic - overcommit)
    ensures Wrap(Wrap(tail) - Wrap(optimistic - overcommit)) == tail - head
    ensures CircularLess(0, tail - head) <==> head < tail
  {
    WrapDifference(tail, head);
    WrapNear(tail - head);
    CircularLessIsOrder(0, tail - head);
    WrapNear(0);
  }

  /** At a block boundary the tail is the first index of the next block. */
  lemma TailOffset(n: nat)
    ensures Wrap(n) % BLOCK_SIZE == n % CELLS
    ensures n % CELLS == 0 ==> Wrap(n) == BaseOf(BlocksFor(n)) && n / CELLS == BlocksFor(n)
    ensures n % CELLS != 0 ==> n / CELLS == BlocksFor(n) - 1
  {
    WrapKeepsOffset(n);
    assert n == CELLS * (n / CELLS) + n % CELLS;
  }

  lemma NextIsInBlock(n: nat)
    ensures BlocksFor(n + 1) == n / CELLS + 1
    ensures (n + 1) % CELLS != 0 ==> (n + 1) / CELLS == n / CELLS
  {
  }

  lemma PreviousIsBackOf(c: nat, next: nat)
    requires c == 0 < next == INITIAL_INDEX_SIZE || 0 < c < next
    ensures c == 0 ==> Wrap(c - 1) % next == INITIAL_INDEX_SIZE - 1
    ensures 0 < c < TWO64 ==> Wrap(c - 1) % next == c - 1
  {
    WrapNear(c - 1);
    if 0 < c < TWO64 {
      ModUnique(c - 1, 0, c - 1, next);
    }
  }

  lemma StepForward(tail: nat, k: nat, c: nat)
    requires tail < c && 0 < k <= c
    ensures (Back(tail, k, c) + 1) % c == Back(tail, k - 1, c)
    ensures Back(tail, k - 1, c) == tail <==> k == 1
  {
    NextIsBack(Back(tail, k, c), c);
  }

  // ----- The queue over any run -----

  /** What consumers and the producer do. An index that has been claimed is moved out at once or at any later
      time: MoveOutOp(k) is for the k-th claim of the run. */
  datatype Op<T> =
    | EnqueueOp(x: T, canAlloc: bool, mallocs: nat)
    | EnqueueBulkOp(xs: seq<T>, canAlloc: bool, mallocs: nat)
    | ClaimOp
    | MoveOutOp(k: nat)
    | DequeueOp
    | DequeueBulkOp(max: nat)

  /** The queue a client sees: what is in it, what has been claimed since the start, which of that is out. */
  datatype View<T> = View(queue: seq<T>, claimed: seq<T>, moved: seq<bool>)

  /** The first n are claimed. */
  function TakeFirst<T>(v: View<T>, n: nat, moved: bool): View<T>
    requires n <= |v.queue|
  {
    View(v.queue[n..], v.claimed + v.queue[..n], v.moved + seq(n, _ => moved))
  }

  /** `ok` says whether an enqueue succeeded. */
  function Apply<T>(v: View<T>, op: Op<T>, ok: bool): View<T> {
    match op
    case EnqueueOp(x, _, _) => if ok then v.(queue := v.queue + [x]) else v
    case EnqueueBulkOp(xs, _, _) => if ok then v.(queue := v.queue + xs) else v
    case ClaimOp => TakeFirst(v, AtMost(1, |v.queue|), false)
    case MoveOutOp(k) => if k < |v.moved| then v.(moved := v.moved[k := true]) else v
    case DequeueOp => TakeFirst(v, AtMost(1, |v.queue|), true)
    case DequeueBulkOp(max) => TakeFirst(v, AtMost(max, |v.queue|), true)
  }

  function AtMost(a: nat, b: nat): (n: nat)
    ensures n <= a && n <= b
  {
    if a < b then a else b
  }

  function ViewAfter<T>(v: View<T>, script: seq<Op<T>>, oks: seq<bool>): View<T>
    requires |script| == |oks|
    decreases |script|
  {
    if script == [] then v else
    var last := |script| - 1;
    Apply(ViewAfter(v, script[..last], oks[..last]), script[last], oks[last])
  }

  /** What the enqueues that succeeded have put in; those that failed add nothing. */
  function Accepted<T>(script: seq<Op<T>>, oks: seq<bool>): seq<T>
    requires |script| == |oks|
    decreases |script|
  {
    if script == [] then [] else
    var last := |script| - 1;
    Accepted(script[..last], oks[..last]) + if oks[last] then Puts(script[last]) else []
  }

  function Puts<T>(op: Op<T>): seq<T> {
    match op
    case EnqueueOp(x, _, _) => [x]
    case EnqueueBulkOp(xs, _, _) => xs
    case _ => []
  }

  /** First in, first out: over every run what is claimed, in the order of the claims, and then what is left is
      what was there and then what was put in. */
  lemma {:induction false} FirstInFirstOut<T>(v: View<T>, script: seq<Op<T>>, oks: seq<bool>)
    requires |script| == |oks| && |v.claimed| == |v.moved|
    ensures var w := ViewAfter(v, script, oks);
      |w.claimed| == |w.moved| && w.claimed + w.queue == v.claimed + v.queue + Accepted(script, oks)
    decreases |script|
  {
    if script != [] {
      var last := |script| - 1;
      FirstInFirstOut(v, script[..last], oks[..last]);
      ApplyKeepsOrder(ViewAfter(v, script[..last], oks[..last]), script[last], oks[last]);
    }
  }

  lemma ApplyKeepsOrder<T>(v: View<T>, op: Op<T>, ok: bool)
    requires |v.claimed| == |v.moved|
    ensures var w := Apply(v, op, ok);
      |w.claimed| == |w.moved| && w.claimed + w.queue == v.claimed + v.queue + if ok then Puts(op) else []
  {
    TakeKeepsOrder(v, AtMost(1, |v.queue|), true);
  }

  lemma TakeKeepsOrder<T>(v: View<T>, n: nat, moved: bool)
    requires n <= |v.queue|
    ensures TakeFirst(v, n, moved).claimed + TakeFirst(v, n, moved).queue == v.claimed + v.queue
  {
  }

  /** The producer `p`, whose head was at `base` at the start of the run, is in the state that the client sees. */
  ghost predicate Tracks<T>(p: Producer<T>, base: nat, v: View<T>, indices: seq<nat>, outs: seq<Taken<T>>)
    reads p, p.index
  {
    p.Valid() && Matches(base, v, p.placed, p.head, p.done, indices, outs)
  }

  /** `indices` are those claimed in the run, as the program holds them, as far as they are still needed, and
      `outs` what has come out for them. */
  ghost predicate Matches<T>(base: nat, v: View<T>, placed: seq<T>, head: nat, done: set<nat>,
                             indices: seq<nat>, outs: seq<Taken<T>>)
  {
    && base + |v.claimed| == head <= |placed|
    && v.queue == placed[head..] && v.claimed == placed[base..head]
    && |v.moved| == |v.claimed| == |indices|
    && outs == Outs(v)
    && forall k :: 0 <= k < |indices| ==>
         (base + k in done <==> v.moved[k]) && (!v.moved[k] ==> indices[k] == Wrap(base + k))
  }

  /** What has come out, claim by claim. */
  function Outs<T>(v: View<T>): seq<Taken<T>>
    requires |v.claimed| == |v.moved|
  {
    seq(|v.claimed|, k requires 0 <= k < |v.claimed| => if v.moved[k] then Got(v.claimed[k]) else Nothing)
  }

  lemma MatchesEnqueued<T>(base: nat, v: View<T>, placed: seq<T>, head: nat, done: set<nat>,
                           indices: seq<nat>, outs: seq<Taken<T>>, more: seq<T>)
    requires Matches(base, v, placed, head, done, indices, outs)
    ensures Matches(base, v.(queue := v.queue + more), placed + more, head, done, indices, outs)
  {
  }

  lemma MatchesClaimed<T>(base: nat, v: View<T>, placed: seq<T>, head: nat, done: set<nat>,
                          indices: seq<nat>, outs: seq<Taken<T>>)
    requires Matches(base, v, placed, head, done, indices, outs) && v.queue != [] && forall i :: i in done ==> i < head
    ensures Matches(base, TakeFirst(v, 1, false), placed, head + 1, done, indices + [Wrap(head)], outs + [Nothing])
  {
    hide Wrap;
    var w := TakeFirst(v, 1, false);
    assert w.queue == placed[head + 1..] && w.claimed == placed[base..head + 1];
    assert Outs(w) == outs + [Nothing];
  }

  lemma MatchesDequeued<T>(base: nat, v: View<T>, placed: seq<T>, head: nat, done: set<nat>,
                           indices: seq<nat>, outs: seq<Taken<T>>, xs: seq<T>)
    requires Matches(base, v, placed, head, done, indices, outs) && xs <= v.queue && forall i :: i in done ==> i < head
    ensures Matches(base, TakeFirst(v, |xs|, true), placed, head + |xs|, done + Range(head, head + |xs|),
                    indices + Zeros(|xs|), outs + AllGot(xs))
  {
    hide Wrap, Range;
    RangeHas(head, head + |xs|);
    SlicesMove(base, v, placed, head, xs);
    OutsDequeued(v, xs);
  }

  lemma SlicesMove<T>(base: nat, v: View<T>, placed: seq<T>, head: nat, xs: seq<T>)
    requires base <= head <= |placed| && v.queue == placed[head..] && v.claimed == placed[base..head] && xs <= v.queue
    ensures var w := TakeFirst(v, |xs|, true);
      w.queue == placed[head + |xs|..] && w.claimed == placed[base..head + |xs|]
  {
  }

  lemma OutsDequeued<T>(v: View<T>, xs: seq<T>)
    requires |v.claimed| == |v.moved| && xs <= v.queue
    ensures Outs(TakeFirst(v, |xs|, true)) == Outs(v) + AllGot(xs)
  {
  }

  lemma RangeHas(lo: nat, hi: nat)
    ensures forall i :: i in Range(lo, hi) <==> lo <= i < hi
  {
  }

  lemma MatchesMoved<T>(base: nat, v: View<T>, placed: seq<T>, head: nat, done: set<nat>,
                        indices: seq<nat>, outs: seq<Taken<T>>, k: nat)
    requires Matches(base, v, placed, head, done, indices, outs) && k < |v.moved| && !v.moved[k]
    ensures base + k < |placed|
    ensures Matches(base, v.(moved := v.moved[k := true]), placed, head, done + {base + k}, indices,
                    outs[k := Got(placed[base + k])])
  {
    hide Wrap;
    var w := v.(moved := v.moved[k := true]);
    assert v.claimed[k] == placed[base + k];
    assert Outs(w) == outs[k := Got(placed[base + k])];
  }

  function Zeros(n: nat): seq<nat> {
    seq(n, _ => 0)
  }

  function AllGot<T>(xs: seq<T>): seq<Taken<T>> {
    seq(|xs|, k requires 0 <= k < |xs| => Got(xs[k]))
  }

  /** When an enqueue succeeds. */
  ghost predicate HasRoom<T>(p: Producer<T>, op: Op<T>)
    reads p, p.index
  {
    match op
    case EnqueueOp(_, canAlloc, mallocs) => |p.placed| % CELLS != 0 || p.RoomForBlock(canAlloc, mallocs)
    case EnqueueBulkOp(xs, canAlloc, mallocs) => p.RoomForMany(|xs|, canAlloc, mallocs)
    case _ => true
  }

  method DriveEnqueue<T>(p: Producer<T>, op: Op<T>, ghost base: nat, ghost v: View<T>,
                         ghost indices: seq<nat>, ghost outs: seq<Taken<T>>)
    returns (ok: bool)
    requires Tracks(p, base, v, indices, outs)
    requires op.EnqueueOp? || (op.EnqueueBulkOp? && |op.xs| <= TWO64 - CELLS)
    modifies p, p.index
    ensures p.index == old(p.index) || fresh(p.index)
    ensures Tracks(p, base, Apply(v, op, ok), indices, outs)
    ensures ok <==> old(HasRoom(p, op))
  {
    hide Producer.Valid, BlocksFor, Matches;
    MatchesEnqueued(base, v, p.placed, p.head, p.done, indices, outs, Puts(op));
    match op
    case EnqueueOp(x, canAlloc, mallocs) => ok := p.Enqueue(x, canAlloc, mallocs);
    case EnqueueBulkOp(xs, canAlloc, mallocs) => ok := p.EnqueueBulk(xs, canAlloc, mallocs);
  }

  method DriveClaim<T>(p: Producer<T>, ghost base: nat, ghost v: View<T>, indices: seq<nat>, outs: seq<Taken<T>>)
    returns (indices': seq<nat>, outs': seq<Taken<T>>)
    requires Tracks(p, base, v, indices, outs)
    modifies p, p.index
    ensures p.index == old(p.index)
    ensures Tracks(p, base, Apply(v, ClaimOp, true), indices', outs')
  {
    hide Producer.Core, BlocksFor, Wrap;
    indices', outs' := indices, outs;
    p.PositionsAreClose();
    NothingTaken(v, false);
    ghost var head := p.head;
    var ok, i := p.Claim();
    if ok {
      MatchesClaimed(base, v, p.placed, head, p.done, indices, outs);
      indices', outs' := indices + [i], outs + [Nothing];
    }
  }

  lemma NothingTaken<T>(v: View<T>, moved: bool)
    ensures TakeFirst(v, 0, moved) == v
  {
  }

  /** One of the dequeues: what it takes from the front of the queue. */
  method DequeueSome<T>(p: Producer<T>, op: Op<T>) returns (xs: seq<T>)
    requires p.Valid() && p.head <= |p.placed| && (op.DequeueOp? || op.DequeueBulkOp?)
    modifies p, p.index
    ensures p.Valid() && p.placed == old(p.placed) && p.index == old(p.index)
    ensures p.head == old(p.head) + |xs| <= |p.placed| && xs + p.Contents() == old(p.Contents())
    ensures p.done == old(p.done) + Range(old(p.head), p.head)
    ensures |xs| == AtMost(if op.DequeueOp? then 1 else op.max, |old(p.Contents())|)
  {
    hide Producer.Valid, Range;
    if op.DequeueOp? {
      var r := p.Dequeue();
      xs := if r.Got? then [r.value] else [];
    } else {
      xs := p.DequeueBulk(op.max);
    }
  }

  method DriveDequeue<T>(p: Producer<T>, op: Op<T>, ghost base: nat, ghost v: View<T>,
                         indices: seq<nat>, outs: seq<Taken<T>>)
    returns (indices': seq<nat>, outs': seq<Taken<T>>)
    requires Tracks(p, base, v, indices, outs) && (op.DequeueOp? || op.DequeueBulkOp?)
    modifies p, p.index
    ensures p.index == old(p.index)
    ensures Tracks(p, base, Apply(v, op, true), indices', outs')
  {
    hide Producer.Core, BlocksFor, Wrap, Range, Matches, TakeFirst;
    p.PositionsAreClose();
    QueueIs(base, v, p.placed, p.head, p.done, indices, outs);
    hide Producer.Valid;
    ghost var head, done := p.head, p.done;
    var xs := DequeueSome(p, op);
    MatchesDequeued(base, v, p.placed, head, done, indices, outs, xs);
    indices', outs' := indices + Zeros(|xs|), outs + AllGot(xs);
  }

  lemma QueueIs<T>(base: nat, v: View<T>, placed: seq<T>, head: nat, done: set<nat>, indices: seq<nat>, outs: seq<Taken<T>>)
    requires Matches(base, v, placed, head, done, indices, outs)
    ensures head <= |placed| && v.queue == placed[head..]
  {
  }

  method DriveMoveOut<T>(p: Producer<T>, k: nat, ghost base: nat, ghost v: View<T>, indices: seq<nat>, outs: seq<Taken<T>>)
    returns (outs': seq<Taken<T>>)
    requires Tracks(p, base, v, indices, outs)
    modifies p, p.index
    ensures p.index == old(p.index)
    ensures Tracks(p, base, Apply(v, MoveOutOp(k), true), indices, outs')
  {
    hide Producer.Valid, BlocksFor, Wrap;
    outs' := outs;
    if k < |indices| {
      if outs[k] == Nothing {
        MatchesMoved(base, v, p.placed, p.head, p.done, indices, outs, k);
        var x := p.MoveOut(indices[k], base + k);
        outs' := outs[k := Got(x)];
      } else {
        assert v.moved == v.moved[k := true];
      }
    }
  }

  /** Any number of operations on a producer, in any order: the client sees a first-in first-out queue. What has
      come out is at each claim the element of that claim, and what is left are the elements that nobody has
      claimed, where `FirstInFirstOut` says which these are. */
  method Drive<T>(p: Producer<T>, script: seq<Op<T>>) returns (oks: seq<bool>, outs: seq<Taken<T>>)
    requires p.Valid() && p.head <= |p.placed|
    requires forall i :: 0 <= i < |script| && script[i].EnqueueBulkOp? ==> |script[i].xs| <= TWO64 - CELLS
    modifies p, p.index
    ensures p.Valid() && p.head <= |p.placed| && |oks| == |script|
    ensures var v := ViewAfter(View(old(p.Contents()), [], []), script, oks);
      p.Contents() == v.queue && |v.claimed| == |v.moved| && outs == Outs(v)
    ensures var v := ViewAfter(View(old(p.Contents()), [], []), script, oks);
      v.claimed + p.Contents() == old(p.Contents()) + Accepted(script, oks)
  {
    hide Producer.Valid, Apply, Accepted;
    ghost var base, v0 := p.head, View(p.Contents(), [], []);
    var indices: seq<nat> := [];
    oks, outs := [], [];
    for i := 0 to |script|
      invariant |oks| == i && (p.index == old(p.index) || fresh(p.index))
      invariant Tracks(p, base, ViewAfter(v0, script[..i], oks), indices, outs)
    {
      ghost var v := ViewAfter(v0, script[..i], oks);
      var ok := true;
      match script[i] {
        case EnqueueOp(_, _, _) => ok := DriveEnqueue(p, script[i], base, v, indices, outs);
        case EnqueueBulkOp(_, _, _) => ok := DriveEnqueue(p, script[i], base, v, indices, outs);
        case ClaimOp => indices, outs := DriveClaim(p, base, v, indices, outs);
        case MoveOutOp(k) => outs := DriveMoveOut(p, k, base, v, indices, outs);
        case DequeueOp => indices, outs := DriveDequeue(p, script[i], base, v, indices, outs);
        case DequeueBulkOp(_) => indices, outs := DriveDequeue(p, script[i], base, v, indices, outs);
      }
      assert script[..i + 1][..i] == script[..i] && (oks + [ok])[..i] == oks;
      oks := oks + [ok];
    }
    assert script[..|script|] == script;
    FirstInFirstOut(v0, script, oks);
    assert v0.claimed + v0.queue == v0.queue;
  }
}
