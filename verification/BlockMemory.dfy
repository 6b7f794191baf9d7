/**
 The blocks of a producer and their elements. Index i of the queue lives in cell i % 32 of block i / 32; a
 block has a count of the elements moved out of it and goes back to the pool when that reaches 32. Memory is a
 map from addresses to blocks.
 */
module BlockMemory {

  const CELLS: int := 32

  /** A cell without a constructed element is vacant. */
  datatype Cell<T> = Vacant | Holds(value: T)

  datatype Block<T> = Block(cells: seq<Cell<T>>, emptied: nat, next: nat)

  type Memory<T> = map<nat, Block<T>>

  ghost predicate AllVacant<T>(block: Block<T>) {
    |block.cells| == CELLS && forall j :: 0 <= j < CELLS ==> block.cells[j] == Vacant
  }

  function NewBlock<T>(): Block<T> {
    Block(seq(CELLS, _ => Vacant), 0, 0)
  }

  /** How many of the first n indices of block b have been moved out. */
  function DoneIn(done: set<nat>, b: int, n: nat): (k: nat)
    ensures k <= n
  {
    if n == 0 then 0 else DoneIn(done, b, n - 1) + if InDone(done, CELLS * b + n - 1) then 1 else 0
  }

  predicate InDone(done: set<nat>, i: int) {
    i >= 0 && i in done
  }

  function CellAt<T>(i: int, placed: seq<T>, done: set<nat>): Cell<T> {
    if 0 <= i < |placed| && i !in done then Holds(placed[i]) else Vacant
  }

  /** Block number b holds exactly the elements placed in it and not moved out, and counts the others. */
  ghost predicate BlockOk<T>(block: Block<T>, b: int, placed: seq<T>, done: set<nat>) {
    && |block.cells| == CELLS
    && (forall j :: 0 <= j < CELLS ==> block.cells[j] == CellAt(CELLS * b + j, placed, done))
    && block.emptied == DoneIn(done, b, CELLS)
  }

  /** Every block is live under one number, or in the pool once with no element in it. */
  ghost predicate MemoryOk<T>(m: Memory<T>, live: map<int, nat>, placed: seq<T>, done: set<nat>, pool: seq<nat>) {
    && (forall b :: b in live ==> live[b] in m && BlockOk(m[live[b]], b, placed, done))
    && OwnedOk(m, live, pool)
    && (forall i :: 0 <= i < |pool| ==> AllVacant(m[pool[i]]))
  }

  ghost predicate OwnedOk<T>(m: Memory<T>, live: map<int, nat>, pool: seq<nat>) {
    && 0 !in m
    && (forall b, c :: b in live && c in live && b != c ==> live[b] != live[c])
    && (forall i, j :: 0 <= i < j < |pool| ==> pool[i] != pool[j])
    && (forall i, b :: 0 <= i < |pool| && b in live ==> pool[i] != live[b])
    && (forall i :: 0 <= i < |pool| ==> pool[i] in m)
    && (forall id :: id in m ==> id in pool || exists b :: b in live && live[b] == id)
  }

  /** A block is live from when it is made until all its indices have been moved out. */
  ghost predicate LiveOk(live: map<int, nat>, done: set<nat>, made: nat) {
    forall b :: b in live <==> 0 <= b < made && DoneIn(done, b, CELLS) < CELLS
  }

  lemma {:induction false} DoneInGrows(done: set<nat>, b: int, n: nat, i: nat)
    requires i !in done
    ensures DoneIn(done + {i}, b, n) == DoneIn(done, b, n) + if CELLS * b <= i < CELLS * b + n then 1 else 0
  {
    if n > 0 {
      DoneInGrows(done, b, n - 1, i);
    }
  }

  lemma {:induction false} DoneInNotFull(done: set<nat>, b: int, n: nat, i: int)
    requires CELLS * b <= i < CELLS * b + n && !InDone(done, i)
    ensures DoneIn(done, b, n) < n
  {
    if i < CELLS * b + n - 1 {
      DoneInNotFull(done, b, n - 1, i);
    }
  }

  lemma {:induction false} DoneInNone(done: set<nat>, b: int, n: nat)
    requires forall i :: i in done ==> i < CELLS * b
    ensures DoneIn(done, b, n) == 0
  {
    if n > 0 {
      DoneInNone(done, b, n - 1);
    }
  }

  /** The block of an index that has not been moved out is live. */
  lemma BlockOfIndexIsLive(live: map<int, nat>, done: set<nat>, made: nat, i: nat)
    requires LiveOk(live, done, made) && i < CELLS * made && i !in done
    ensures i / CELLS in live
  {
    DoneInNotFull(done, i / CELLS, CELLS, i);
  }

  // ----- What the steps on memory keep -----

  function Put<T>(m: Memory<T>, id: nat, j: nat, c: Cell<T>): Memory<T>
    requires id in m && j < |m[id].cells|
  {
    m[id := m[id].(cells := m[id].cells[j := c])]
  }

  /** An element constructed at the next index. */
  lemma PlaceIsOk<T>(m: Memory<T>, live: map<int, nat>, placed: seq<T>, done: set<nat>, pool: seq<nat>, x: T)
    requires MemoryOk(m, live, placed, done, pool)
    requires |placed| / CELLS in live && |placed| !in done
    ensures var id := live[|placed| / CELLS];
      && m[id].cells[|placed| % CELLS] == Vacant
      && MemoryOk(Put(m, id, |placed| % CELLS, Holds(x)), live, placed + [x], done, pool)
  {
    var b0 := |placed| / CELLS;
    var id, j := live[b0], |placed| % CELLS;
    assert BlockOk(m[id], b0, placed, done);
    var m' := Put(m, id, j, Holds(x));
    forall b | b in live
      ensures BlockOk(m'[live[b]], b, placed + [x], done)
    {
      assert BlockOk(m[live[b]], b, placed, done);
      forall k | 0 <= k < CELLS
        ensures m'[live[b]].cells[k] == CellAt(CELLS * b + k, placed + [x], done)
      {
        assert m[live[b]].cells[k] == CellAt(CELLS * b + k, placed, done);
      }
    }
  }

  function Reset<T>(m: Memory<T>, id: nat): Memory<T>
    requires id in m
  {
    m[id := m[id].(emptied := 0)]
  }

  lemma NewBlockIsOk<T>(block: Block<T>, b: int, placed: seq<T>, done: set<nat>)
    requires AllVacant(block) && |placed| <= CELLS * b && forall i :: i in done ==> i < |placed|
    ensures BlockOk(block.(emptied := 0), b, placed, done)
  {
    DoneInNone(done, b, CELLS);
  }

  /** A block from the pool made live under a number whose indices are all still to come. */
  lemma AddBlockIsOk<T>(m: Memory<T>, live: map<int, nat>, placed: seq<T>, done: set<nat>, pool: seq<nat>, b: int, id: nat)
    requires MemoryOk(m, live, placed, done, [id] + pool) && b !in live && id in m
    requires |placed| <= CELLS * b && forall i :: i in done ==> i < |placed|
    ensures id != 0 && MemoryOk(Reset(m, id), live[b := id], placed, done, pool)
  {
    var all := [id] + pool;
    assert id == all[0] && AllVacant(m[all[0]]);
    NewBlockIsOk(m[id], b, placed, done);
    AddOwned(m, live, pool, b, id);
    var m', live' := Reset(m, id), live[b := id];
    forall c | c in live'
      ensures live'[c] in m' && BlockOk(m'[live'[c]], c, placed, done)
    {
      if c != b {
        assert BlockOk(m[live[c]], c, placed, done);
      }
    }
    forall i | 0 <= i < |pool|
      ensures AllVacant(m'[pool[i]])
    {
      assert pool[i] == all[i + 1] && AllVacant(m[all[i + 1]]);
    }
    ResetOwned(m, id, live', pool);
  }

  lemma ResetOwned<T>(m: Memory<T>, id: nat, live: map<int, nat>, pool: seq<nat>)
    requires OwnedOk(m, live, pool) && id in m
    ensures OwnedOk(Reset(m, id), live, pool)
  {
  }

  lemma AddOwned<T>(m: Memory<T>, live: map<int, nat>, pool: seq<nat>, b: int, id: nat)
    requires OwnedOk(m, live, [id] + pool) && b !in live
    ensures OwnedOk(m, live[b := id], pool)
  {
    var all, live' := [id] + pool, live[b := id];
    assert forall i :: 0 <= i < |pool| ==> pool[i] == all[i + 1];
    assert all[0] == id;
    forall a | a in m
      ensures a in pool || exists c :: c in live' && live'[c] == a
    {
      if a == id {
        assert live'[b] == id;
      } else if a !in pool {
        var c :| c in live && live[c] == a;
        assert live'[c] == a;
      }
    }
  }

  lemma CreatedIsOk<T>(m: Memory<T>, live: map<int, nat>, placed: seq<T>, done: set<nat>, pool: seq<nat>, id: nat)
    requires MemoryOk(m, live, placed, done, pool) && id !in m && id != 0
    ensures MemoryOk(m[id := NewBlock()], live, placed, done, [id] + pool)
  {
    var m', pool' := m[id := NewBlock()], [id] + pool;
    assert forall i :: 0 < i < |pool'| ==> pool'[i] == pool[i - 1];
    forall b | b in live
      ensures BlockOk(m'[live[b]], b, placed, done)
    {
      assert BlockOk(m[live[b]], b, placed, done);
    }
    forall a | a in m'
      ensures a in pool' || exists c :: c in live && live[c] == a
    {
      if a == id {
        assert pool'[0] == a;
      } else if a in pool {
        var i :| 0 <= i < |pool| && pool[i] == a;
        assert pool'[i + 1] == a;
      }
    }
  }

  function Linked<T>(m: Memory<T>, id: nat, next: nat): Memory<T>
    requires id in m
  {
    m[id := m[id].(next := next)]
  }

  lemma LinkIsOk<T>(m: Memory<T>, live: map<int, nat>, placed: seq<T>, done: set<nat>, pool: seq<nat>, id: nat, next: nat)
    requires MemoryOk(m, live, placed, done, pool) && id in m
    ensures MemoryOk(Linked(m, id, next), live, placed, done, pool)
  {
    var m' := Linked(m, id, next);
    forall b | b in live
      ensures BlockOk(m'[live[b]], b, placed, done)
    {
      assert BlockOk(m[live[b]], b, placed, done);
    }
  }

  /** An element moved out of cell j, and counted. */
  function Vacate<T>(m: Memory<T>, id: nat, j: nat): Memory<T>
    requires id in m && j < |m[id].cells|
  {
    m[id := m[id].(cells := m[id].cells[j := Vacant], emptied := m[id].emptied + 1)]
  }

  lemma VacatedBlock<T>(block: Block<T>, b: int, placed: seq<T>, done: set<nat>, i: nat)
    requires BlockOk(block, b, placed, done) && i !in done && i / CELLS == b
    ensures BlockOk(block.(cells := block.cells[i % CELLS := Vacant], emptied := block.emptied + 1), b, placed, done + {i})
  {
    DoneInGrows(done, b, CELLS, i);
    var block' := block.(cells := block.cells[i % CELLS := Vacant], emptied := block.emptied + 1);
    forall j | 0 <= j < CELLS
      ensures block'.cells[j] == CellAt(CELLS * b + j, placed, done + {i})
    {
      assert block.cells[j] == CellAt(CELLS * b + j, placed, done);
    }
  }

  lemma OtherBlock<T>(block: Block<T>, b: int, placed: seq<T>, done: set<nat>, i: nat)
    requires BlockOk(block, b, placed, done) && i !in done && i / CELLS != b
    ensures BlockOk(block, b, placed, done + {i})
  {
    DoneInGrows(done, b, CELLS, i);
    forall j | 0 <= j < CELLS
      ensures block.cells[j] == CellAt(CELLS * b + j, placed, done + {i})
    {
      assert block.cells[j] == CellAt(CELLS * b + j, placed, done);
    }
  }

  /** The element found at index i is the one that was placed there; after it has been moved out the block is
      right again, and full of vacant cells exactly when its count is 32. */
  lemma VacateIsOk<T>(m: Memory<T>, live: map<int, nat>, placed: seq<T>, done: set<nat>, pool: seq<nat>, i: nat)
    requires MemoryOk(m, live, placed, done, pool)
    requires i / CELLS in live && i < |placed| && i !in done
    ensures var id := live[i / CELLS];
      && id in m && |m[id].cells| == CELLS && m[id].cells[i % CELLS] == Holds(placed[i])
      && MemoryOk(Vacate(m, id, i % CELLS), live, placed, done + {i}, pool)
  {
    var id := live[i / CELLS];
    assert BlockOk(m[id], i / CELLS, placed, done);
    assert CELLS * (i / CELLS) + i % CELLS == i;
    assert m[id].cells[i % CELLS] == CellAt(CELLS * (i / CELLS) + i % CELLS, placed, done);
    var m' := Vacate(m, id, i % CELLS);
    forall b | b in live
      ensures BlockOk(m'[live[b]], b, placed, done + {i})
    {
      assert BlockOk(m[live[b]], b, placed, done);
      if b == i / CELLS {
        VacatedBlock(m[id], b, placed, done, i);
      } else {
        OtherBlock(m[live[b]], b, placed, done, i);
      }
    }
  }

  /** The order of the pool does not matter. */
  lemma PoolReordered<T>(m: Memory<T>, live: map<int, nat>, placed: seq<T>, done: set<nat>, p: seq<nat>, x: nat, q: seq<nat>)
    requires MemoryOk(m, live, placed, done, p + ([x] + q))
    ensures MemoryOk(m, live, placed, done, [x] + (p + q)) && x in m
  {
    var before, after := p + ([x] + q), [x] + (p + q);
    assert before[|p|] == x;
    forall i | 0 <= i < |after|
      ensures after[i] == before[Origin(i, |p|)]
    {
    }
    forall i | 0 <= i < |before|
      ensures before[i] in after
    {
      assert after[if i < |p| then i + 1 else if i == |p| then 0 else i] == before[i];
    }
    OwnedReordered(m, live, before, after, |p|);
  }

  function Origin(i: nat, n: nat): nat {
    if i == 0 then n else if i <= n then i - 1 else i
  }

  lemma OwnedReordered<T>(m: Memory<T>, live: map<int, nat>, before: seq<nat>, after: seq<nat>, n: nat)
    requires OwnedOk(m, live, before) && n < |before| == |after|
    requires forall i :: 0 <= i < |after| ==> after[i] == before[Origin(i, n)]
    requires forall i :: 0 <= i < |before| ==> before[i] in after
    ensures OwnedOk(m, live, after)
  {
  }

  /** A block without elements given back to the pool. */
  lemma ReturnIsOk<T>(m: Memory<T>, live: map<int, nat>, placed: seq<T>, done: set<nat>, pool: seq<nat>, b: int)
    requires MemoryOk(m, live, placed, done, pool) && b in live && AllVacant(m[live[b]])
    ensures MemoryOk(m, live - {b}, placed, done, [live[b]] + pool)
  {
    var pool' := [live[b]] + pool;
    assert forall i :: 0 < i < |pool'| ==> pool'[i] == pool[i - 1];
    forall a | a in m
      ensures a in pool' || exists c :: c in live - {b} && (live - {b})[c] == a
    {
      if a in pool {
        assert a in pool';
      } else {
        var c :| c in live && live[c] == a;
        if c == b {
          assert pool'[0] == a;
        } else {
          assert (live - {b})[c] == a;
        }
      }
    }
  }

  lemma {:induction false} DoneInAll(done: set<nat>, b: int, n: nat, i: int)
    requires DoneIn(done, b, n) == n && CELLS * b <= i < CELLS * b + n
    ensures InDone(done, i)
  {
    if i < CELLS * b + n - 1 {
      DoneInAll(done, b, n - 1, i);
    }
  }

  lemma EmptiedIsVacant<T>(block: Block<T>, b: int, placed: seq<T>, done: set<nat>)
    requires BlockOk(block, b, placed, done) && (block.emptied == CELLS || |placed| <= CELLS * b)
    ensures AllVacant(block)
  {
    forall j | 0 <= j < CELLS
      ensures block.cells[j] == Vacant
    {
      assert block.cells[j] == CellAt(CELLS * b + j, placed, done);
      if block.emptied == CELLS {
        DoneInAll(done, b, CELLS, CELLS * b + j);
      }
    }
  }

  lemma {:induction false} LiveAfterDone(live: map<int, nat>, done: set<nat>, made: nat, i: nat)
    requires LiveOk(live, done, made) && i !in done && i < CELLS * made
    ensures i / CELLS in live
    ensures if DoneIn(done + {i}, i / CELLS, CELLS) == CELLS then LiveOk(live - {i / CELLS}, done + {i}, made)
            else LiveOk(live, done + {i}, made)
  {
    BlockOfIndexIsLive(live, done, made, i);
    forall b: int
      ensures b != i / CELLS ==> DoneIn(done + {i}, b, CELLS) == DoneIn(done, b, CELLS)
    {
      DoneInGrows(done, b, CELLS, i);
    }
  }

  lemma LiveAfterMade(live: map<int, nat>, done: set<nat>, made: nat, id: nat)
    requires LiveOk(live, done, made) && forall i :: i in done ==> i < CELLS * made
    ensures made !in live && LiveOk(live[made := id], done, made + 1)
  {
    DoneInNone(done, made, CELLS);
  }
}
