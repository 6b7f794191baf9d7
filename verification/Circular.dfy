/** Arithmetic on 64-bit positions that wrap around: the order test, and the slot of a block in the circular
    block index. Positions are unbounded integers here; what the program holds is their value modulo 2^64. */
module Circular {

  const TWO63: int := 0x8000_0000_0000_0000
  const TWO64: int := 0x1_0000_0000_0000_0000
  const TWO59: int := 0x800_0000_0000_0000
  const BLOCK_SIZE: int := 32

  function Wrap(x: int): (r: nat) {
    x % TWO64
  }

  /** The test of the program: an unsigned difference above 2^63. */
  predicate CircularLess(a: nat, b: nat) {
    Wrap(a - b) > TWO63
  }

  lemma WrapNear(x: int)
    ensures 0 <= x < TWO64 ==> Wrap(x) == x
    ensures -TWO64 <= x < 0 ==> Wrap(x) == x + TWO64
  {
    if -TWO64 <= x < 0 {
      assert (x + TWO64) % TWO64 == x % TWO64;
    }
  }

  lemma WrapDifference(x: int, y: int)
    ensures Wrap(Wrap(x) - Wrap(y)) == Wrap(x - y)
  {
    var q, p := x / TWO64, y / TWO64;
    assert x == q * TWO64 + Wrap(x) && y == p * TWO64 + Wrap(y);
    assert x - y == Wrap(x) - Wrap(y) + (q - p) * TWO64;
    WrapMultiple(Wrap(x) - Wrap(y), q - p);
  }

  lemma WrapSum(x: int, y: int)
    ensures Wrap(Wrap(x) + y) == Wrap(x + y)
  {
    assert x == x / TWO64 * TWO64 + Wrap(x);
    WrapMultiple(Wrap(x) + y, x / TWO64);
  }

  lemma WrapMultiple(x: int, k: int)
    ensures Wrap(x + k * TWO64) == Wrap(x)
  {
    var q := x / TWO64;
    assert x + k * TWO64 == (q + k) * TWO64 + Wrap(x);
  }

  /** For positions less than 2^64 apart the test is the order exactly when they are less than 2^63 apart,
      or the first is 2^63 ahead. */
  lemma CircularLessIsOrder(x: int, y: int)
    requires -TWO64 < x - y < TWO64
    ensures (CircularLess(Wrap(x), Wrap(y)) <==> x < y) <==> -TWO63 < x - y <= TWO63
  {
    WrapDifference(x, y);
    WrapNear(x - y);
  }

  // ----- The block index -----

  predicate IsPow2(c: nat) {
    c == 1 || (c > 0 && c % 2 == 0 && IsPow2(c / 2))
  }

  /** The first index of the block an index is in. */
  function BlockBase(i: nat): nat {
    i - i % BLOCK_SIZE
  }

  /** The slot the program looks in: the distance to the tail's block is divided by an unsigned constant, so
      the division is unsigned too, and the sum is masked with capacity - 1. */
  function Slot(tail: nat, index: nat, tailBase: nat, capacity: nat): nat
    requires capacity > 0
  {
    Wrap(tail + Wrap(BlockBase(index) - tailBase) / BLOCK_SIZE) % capacity
  }

  lemma {:induction false} Pow2Product(a: nat, b: nat)
    requires IsPow2(a) && IsPow2(b)
    ensures IsPow2(a * b)
  {
    if b != 1 {
      var c := b / 2;
      Pow2Product(a, c);
      assert b == 2 * c;
      var p := a * c;
      assert a * b == 2 * p && p > 0;
    }
  }

  lemma TwoTo59IsPow2()
    ensures IsPow2(TWO59)
  {
    assert IsPow2(0x8) && IsPow2(0x100) by {
      assert IsPow2(0x10);
    }
    Pow2Product(0x100, 0x100);
    Pow2Product(0x1_0000, 0x1_0000);
    Pow2Product(0x1_0000_0000, 0x1_0000);
    Pow2Product(0x1_0000_0000_0000, 0x100);
    Pow2Product(0x100_0000_0000_0000, 0x8);
  }

  /** A power of two divides every larger one. */
  lemma {:induction false} Pow2Divides(c: nat, m: nat) returns (q: nat)
    requires IsPow2(c) && IsPow2(m) && c <= m
    ensures m == q * c
  {
    if c == 1 {
      q := m;
    } else {
      q := Pow2Divides(c / 2, m / 2);
      assert m == 2 * (q * (c / 2)) == q * (2 * (c / 2));
    }
  }

  lemma ModMultiple(x: int, k: int, m: nat)
    requires m > 0
    ensures (x + k * m) % m == x % m
  {
    var q := x / m;
    assert x == q * m + x % m;
    assert x + k * m == (q + k) * m + x % m by {
      assert (q + k) * m == q * m + k * m;
    }
    ModUnique(x + k * m, q + k, x % m, m);
  }

  lemma ModUnique(x: int, q: int, r: int, m: nat)
    requires m > 0 && 0 <= r < m && x == q * m + r
    ensures x % m == r
  {
    var d := x / m - q;
    assert x == (x / m) * m + x % m;
    assert d * m == r - x % m;
    MulPastRange(d, m);
  }

  lemma MulPastRange(d: int, m: nat)
    ensures d >= 1 ==> d * m >= m
    ensures d <= -1 ==> d * m <= 0 - m
  {
    if d >= 1 {
      assert d * m == m + (d - 1) * m;
    } else if d <= -1 {
      assert d * m == (d + 1) * m - m;
    }
  }

  lemma SlotIsUnsigned(tail: nat, b: int, k: nat, index: nat, capacity: nat)
    requires tail < TWO63 && capacity > 0 && k < TWO59
    requires index < TWO64 && BlockBase(index) == Wrap(BLOCK_SIZE * (b - k))
    ensures Slot(tail, index, Wrap(BLOCK_SIZE * b), capacity)
            == (if k == 0 then tail else tail + TWO59 - k) % capacity
  {
    WrapDifference(BLOCK_SIZE * (b - k), BLOCK_SIZE * b);
    WrapNear(-BLOCK_SIZE * k);
    WrapNear(tail + TWO59 - k);
    WrapNear(tail);
  }

  /** Block b is the tail's block, in slot `tail`; the block k behind it has its slot k before, circularly. */
  lemma SlotOfEarlierBlock(tail: nat, b: int, k: nat, index: nat, capacity: nat)
    requires IsPow2(capacity) && capacity <= TWO59 && tail < capacity && k < TWO59
    requires index < TWO64 && BlockBase(index) == Wrap(BLOCK_SIZE * (b - k))
    ensures Slot(tail, index, Wrap(BLOCK_SIZE * b), capacity) == (tail - k) % capacity
  {
    TwoTo59IsPow2();
    var q := Pow2Divides(capacity, TWO59);
    SlotIsUnsigned(tail, b, k, index, capacity);
    ModMultiple(tail - k, q, capacity);
  }

  /** A block k ahead of the tail's block, as the undo loop of a bulk enqueue meets it, has its slot k after. */
  lemma SlotOfLaterBlock(tail: nat, b: int, k: nat, index: nat, capacity: nat)
    requires 0 < capacity <= TWO59 && tail < capacity && k < TWO59
    requires index < TWO64 && BlockBase(index) == Wrap(BLOCK_SIZE * (b + k))
    ensures Slot(tail, index, Wrap(BLOCK_SIZE * b), capacity) == (tail + k) % capacity
  {
    var d := Wrap(BlockBase(index) - Wrap(BLOCK_SIZE * b));
    assert d == BLOCK_SIZE * k by {
      WrapDifference(BLOCK_SIZE * (b + k), BLOCK_SIZE * b);
      WrapNear(BLOCK_SIZE * k);
    }
    assert d / BLOCK_SIZE == k;
    WrapNear(tail + k);
  }

  /** The slot formula is right for a power-of-two capacity up to 2^59 and for no larger one: the unsigned
      division loses the sign, and the block just behind slot 0 is then looked up in the wrong slot. */
  lemma SlotFormulaExact(capacity: nat)
    requires IsPow2(capacity)
    ensures SlotsAgree(capacity) <==> capacity <= TWO59
  {
    if capacity <= TWO59 {
      forall tail: nat, b: int, k: nat, index: nat | SlotCase(tail, b, k, index, capacity)
        ensures Slot(tail, index, Wrap(BLOCK_SIZE * b), capacity) == (tail - k) % capacity
      {
        SlotOfEarlierBlock(tail, b, k, index, capacity);
      }
    } else {
      var index := Wrap(-BLOCK_SIZE);
      WrapNear(-BLOCK_SIZE);
      assert BlockBase(index) == index;
      SlotIsUnsigned(0, 0, 1, index, capacity);
      ModUnique(0 - 1, -1, capacity - 1, capacity);
      ModUnique(TWO59 - 1, 0, TWO59 - 1, capacity);
      assert SlotCase(0, 0, 1, index, capacity);
    }
  }

  predicate SlotCase(tail: nat, b: int, k: nat, index: nat, capacity: nat) {
    && tail < capacity && k < capacity && k < TWO59
    && index < TWO64 && BlockBase(index) == Wrap(BLOCK_SIZE * (b - k))
  }

  ghost predicate SlotsAgree(capacity: nat)
    requires capacity > 0
  {
    forall tail: nat, b: int, k: nat, index: nat :: SlotCase(tail, b, k, index, capacity)
      ==> Slot(tail, index, Wrap(BLOCK_SIZE * b), capacity) == (tail - k) % capacity
  }
}
