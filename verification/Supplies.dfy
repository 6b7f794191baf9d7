/**
 What it takes to start blocks one after the other: a slot of the block index for each, or a larger index, and a
 block from the pool, or a new one. `mallocs` is how many allocations will still succeed.
 */
module Supplies {
  import opened Circular

  /** `slots` are the slots after the index tail that can be used, up to the first that cannot. */
  datatype Supply = Supply(slots: nat, capacity: nat, pool: nat, mallocs: nat)

  predicate HasSlot(s: Supply, canAlloc: bool) {
    s.capacity > 0 && (s.slots > 0 || (canAlloc && s.mallocs > 0 && 2 * s.capacity <= TWO59))
  }

  /** An entry takes a slot; when there is none the index is doubled first, and the new half is all free. */
  function WithEntry(s: Supply): Supply {
    if s.slots > 0 then s.(slots := s.slots - 1)
    else if s.capacity == 0 || s.mallocs == 0 then s
    else Supply(s.capacity - 1, 2 * s.capacity, s.pool, s.mallocs - 1)
  }

  predicate HasBlock(s: Supply, canAlloc: bool) {
    s.pool > 0 || (canAlloc && s.mallocs > 0)
  }

  function WithBlock(s: Supply): Supply {
    if s.pool > 0 then s.(pool := s.pool - 1)
    else if s.mallocs > 0 then s.(mallocs := s.mallocs - 1) else s
  }

  predicate CanStart(s: Supply, canAlloc: bool) {
    HasSlot(s, canAlloc) && HasBlock(WithEntry(s), canAlloc)
  }

  function Started(s: Supply): Supply {
    WithBlock(WithEntry(s))
  }

  predicate CanStartMany(s: Supply, n: nat, canAlloc: bool)
    decreases n
  {
    n == 0 || (CanStart(s, canAlloc) && CanStartMany(Started(s), n - 1, canAlloc))
  }

  // ----- In closed form -----

  /** How often the index has to be doubled for n more entries. */
  function Growths(slots: nat, capacity: nat, n: nat): nat
    requires capacity > 0
    decreases n, slots == 0
  {
    if n <= slots then 0 else 1 + Growths(capacity, 2 * capacity, n - slots)
  }

  function Grown(capacity: nat, g: nat): nat
    decreases g
  {
    if g == 0 then capacity else Grown(2 * capacity, g - 1)
  }

  /** Enough for n blocks: the allocations are for the doublings and for the blocks the pool does not have. */
  predicate Enough(s: Supply, n: nat, canAlloc: bool) {
    && s.capacity > 0
    && var g := Growths(s.slots, s.capacity, n);
       && (g > 0 ==> Grown(s.capacity, g) <= TWO59)
       && g + (if n > s.pool then n - s.pool else 0) <= (if canAlloc then s.mallocs else 0)
  }

  lemma GrowthsOneLess(slots: nat, capacity: nat, n: nat)
    requires capacity > 0 && slots > 0 && n > 0
    ensures Growths(slots, capacity, n) == Growths(slots - 1, capacity, n - 1)
  {
  }

  lemma {:induction false} GrownIsMore(capacity: nat, g: nat)
    ensures capacity <= Grown(capacity, g)
    decreases g
  {
    if g > 0 {
      GrownIsMore(2 * capacity, g - 1);
    }
  }

  lemma EnoughStep(s: Supply, n: nat, canAlloc: bool)
    requires n > 0
    ensures Enough(s, n, canAlloc) <==> CanStart(s, canAlloc) && Enough(Started(s), n - 1, canAlloc)
  {
    if s.capacity > 0 {
      if s.slots > 0 {
        GrowthsOneLess(s.slots, s.capacity, n);
      } else {
        GrowthsOneLess(s.capacity, 2 * s.capacity, n);
        GrownIsMore(2 * s.capacity, Growths(s.capacity, 2 * s.capacity, n));
      }
    }
  }

  /** Block after block can be started exactly if at the outset there is enough for all of them. */
  lemma {:induction false} CanStartManyExactly(s: Supply, n: nat, canAlloc: bool)
    ensures CanStartMany(s, n, canAlloc) <==> n == 0 || Enough(s, n, canAlloc)
    decreases n
  {
    if n > 0 {
      EnoughStep(s, n, canAlloc);
      CanStartManyExactly(Started(s), n - 1, canAlloc);
    }
  }
}
