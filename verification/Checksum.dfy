/**
 The Internet checksum as the stack computes it: 16-bit words are loaded little-endian, a left-over byte counts
 as the low half of a word, the sum is kept in 32 bits and folded at the end, and the result is its complement.
 Sections 1 and 2 of RFC 1071 say what such a sum is good for.
 */
module Checksum {

  type Byte = x: int | 0 <= x < 256

  const TWO16: int := 0x1_0000
  const TWO32: int := 0x1_0000_0000
  const ONES: int := 0xffff              // sums that agree modulo this are the same checksum

  /** A word loaded from two bytes. */
  function Word(low: Byte, high: Byte): (w: nat)
    ensures w < TWO16
  {
    low + 256 * high
  }

  /** The unbounded sum of the words of s from byte i on. */
  function SumFrom(s: seq<Byte>, i: nat): (sum: nat)
    decreases |s| - i
  {
    if i + 1 < |s| then Word(s[i], s[i + 1]) + SumFrom(s, i + 2)
    else if i < |s| then s[i]
    else 0
  }

  function WordSum(s: seq<Byte>): nat {
    SumFrom(s, 0)
  }

  /** One folding step adds the part above 16 bits to the part below, until there is none above. */
  function Fold(x: nat): (r: nat)
    ensures r < TWO16 && r % ONES == x % ONES
    ensures r == 0 <==> x == 0
  {
    if x < TWO16 then x else
    FoldStep(x);
    Fold(x % TWO16 + x / TWO16)
  }

  lemma FoldStep(x: nat)
    ensures (x % TWO16 + x / TWO16) % ONES == x % ONES
    ensures x >= TWO16 ==> 0 < x % TWO16 + x / TWO16 < x
  {
    var q := x / TWO16;
    assert x == (x % TWO16 + q) + q * ONES;
    SameRemainder(x % TWO16 + q, q);
  }

  lemma SameRemainder(x: int, q: int)
    ensures (x + q * ONES) % ONES == x % ONES
  {
    var p := x / ONES;
    assert x + q * ONES == (p + q) * ONES + x % ONES;
  }

  /** The folded sum is the one number from 1 to 65535 in the class of a sum that is not 0. */
  lemma FoldIsUnique(x: nat, y: nat)
    requires x % ONES == y % ONES && (x == 0 <==> y == 0)
    ensures Fold(x) == Fold(y)
  {
    var f, g := Fold(x), Fold(y);
    assert f % ONES == g % ONES;
  }

  /** What a 32-bit accumulator keeps. */
  function Low32(x: int): (r: nat)
    ensures r < TWO32 && (0 <= x < TWO32 ==> r == x)
  {
    x % TWO32
  }

  lemma AddWraps(x: int, w: int, rest: int)
    ensures Low32(Low32(x + w) + rest) == Low32(x + (w + rest))
  {
  }

  /** The summing loop, on top of a start value. */
  method SumWords(memory: array<Byte>, at: nat, count: nat, startSum: nat) returns (sum: nat)
    requires at + count <= memory.Length && startSum < TWO32
    ensures sum == Low32(startSum + WordSum(memory[at..at + count]))
  {
    hide Low32, Word;
    ghost var s := memory[at..at + count];
    sum := startSum;
    var ptr, left := at, count;
    while left > 1
      invariant at <= ptr && ptr + left == at + count && (ptr - at) % 2 == 0
      invariant sum < TWO32 && Low32(sum + SumFrom(s, ptr - at)) == Low32(startSum + SumFrom(s, 0))
    {
      assert s[ptr - at] == memory[ptr] && s[ptr - at + 1] == memory[ptr + 1];
      AddWraps(sum, Word(memory[ptr], memory[ptr + 1]), SumFrom(s, ptr - at + 2));
      sum := Low32(sum + Word(memory[ptr], memory[ptr + 1]));
      ptr := ptr + 2;
      left := left - 2;
    }
    if left > 0 {
      assert s[ptr - at] == memory[ptr];
      sum := Low32(sum + memory[ptr]);
    }
  }

  /** The checksum function, for `count` bytes at address `at`; the result's low 16 bits are what is stored. */
  method Compute(memory: array<Byte>, at: nat, count: nat, startSum: nat) returns (r: nat)
    requires at + count <= memory.Length && startSum < TWO32
    ensures r == TWO32 - 1 - Fold(Low32(startSum + WordSum(memory[at..at + count])))
  {
    var sum := SumWords(memory, at, count, startSum);
    ghost var total := sum;
    while sum / TWO16 != 0
      invariant 0 <= sum < TWO32 && Fold(sum) == Fold(total)
      decreases sum
    {
      FoldStep(sum);
      sum := sum % TWO16 + sum / TWO16;
    }
    r := TWO32 - 1 - sum;
  }

  /** What is stored in a 16-bit field. */
  function Stored(sum: nat): (c: nat)
    ensures c < TWO16 && Fold(sum) + c == ONES
  {
    ONES - Fold(sum)
  }

  /** A block verifies when its words, with the checksum among them, fold to all ones. */
  predicate Verifies(sum: nat) {
    Fold(sum) == ONES
  }

  // ----- Sums of parts -----

  lemma {:induction false} SumOfRest(s: seq<Byte>, i: nat, n: nat)
    requires i <= |s| && n <= i
    ensures SumFrom(s, i) == SumFrom(s[n..], i - n)
    decreases |s| - i
  {
    if i + 1 < |s| {
      SumOfRest(s, i + 2, n);
    }
  }

  lemma {:induction false} SumOfBoth(a: seq<Byte>, b: seq<Byte>, i: nat)
    requires |a| % 2 == 0 && i % 2 == 0 && i <= |a|
    ensures SumFrom(a + b, i) == SumFrom(a, i) + SumFrom(b, 0)
    decreases |a| - i
  {
    if i < |a| {
      SumOfBoth(a, b, i + 2);
    } else {
      SumOfRest(a + b, i, i);
      assert (a + b)[i..] == b;
    }
  }

  /** The order in which parts are summed does not matter as long as the first has an even length. */
  lemma SumOfParts(a: seq<Byte>, b: seq<Byte>)
    requires |a| % 2 == 0
    ensures WordSum(a + b) == WordSum(a) + WordSum(b)
  {
    SumOfBoth(a, b, 0);
  }

  /** The left-over byte is padded with a zero byte behind it, as section 4.1 of RFC 1071 asks. */
  lemma OddByteIsPadded(s: seq<Byte>)
    requires |s| % 2 == 1
    ensures WordSum(s) == WordSum(s + [0])
  {
    var a, z := s[..|s| - 1], s[|s| - 1..];
    assert s == a + z && s + [0] == a + (z + [0]);
    SumOfParts(a, z);
    SumOfParts(a, z + [0]);
    assert SumFrom(z + [0], 0) == z[0] + SumFrom(z + [0], 2);
  }

  // ----- Overflow -----

  lemma {:induction false} SumIsBounded(s: seq<Byte>, i: nat)
    requires i <= |s|
    ensures 2 * SumFrom(s, i) <= (|s| - i) * ONES + (if (|s| - i) % 2 == 1 then 510 - ONES else 0)
    decreases |s| - i
  {
    if i + 1 < |s| {
      SumIsBounded(s, i + 2);
    }
  }

  lemma {:induction false} SumOfMaximal(n: nat, i: nat)
    requires i <= n
    ensures 2 * SumFrom(seq(n, _ => 255), i) == (n - i) * ONES + (if (n - i) % 2 == 1 then 510 - ONES else 0)
    decreases n - i
  {
    if i + 1 < n {
      SumOfMaximal(n, i + 2);
    }
  }

  ghost predicate FitsAlways(n: nat) {
    forall s: seq<Byte> :: |s| == n ==> WordSum(s) < TWO32
  }

  /** The 32-bit accumulator holds the sum of every block of up to 131074 bytes, more than any packet has, and
      of no larger block. */
  lemma NoOverflowExactly(n: nat)
    ensures FitsAlways(n) <==> n <= 131074
  {
    var worst: seq<Byte> := seq(n, _ => 255);
    SumOfMaximal(n, 0);
    forall s: seq<Byte> | |s| == n
      ensures WordSum(s) <= WordSum(worst)
    {
      SumIsBounded(s, 0);
    }
    assert |worst| == n;
  }

  // ----- Storing the checksum makes a block verify -----

  function Patched(s: seq<Byte>, at: nat, c: nat): (r: seq<Byte>)
    requires at + 1 < |s| && c < TWO16
    ensures |r| == |s|
  {
    s[at := c % 256][at + 1 := c / 256]
  }

  lemma {:induction false} SumOfPatched(s: seq<Byte>, at: nat, c: nat, i: nat)
    requires at % 2 == 0 && i % 2 == 0 && i <= at && at + 1 < |s| && c < TWO16 && s[at] == s[at + 1] == 0
    ensures SumFrom(Patched(s, at, c), i) == SumFrom(s, i) + c
    decreases at - i
  {
    var p := Patched(s, at, c);
    if i < at {
      SumOfPatched(s, at, c, i + 2);
    } else {
      SumOfRest(p, i + 2, i + 2);
      SumOfRest(s, i + 2, i + 2);
      assert p[i + 2..] == s[i + 2..];
    }
  }

  /** A checksum stored in a zero field, on top of any sum of other parts, makes everything together verify. */
  lemma StoredVerifies(others: nat, s: seq<Byte>, at: nat)
    requires at % 2 == 0 && at + 1 < |s| && s[at] == s[at + 1] == 0
    ensures Verifies(others + WordSum(Patched(s, at, Stored(others + WordSum(s)))))
  {
    var x := others + WordSum(s);
    SumOfPatched(s, at, Stored(x), 0);
    ComplementVerifies(x);
  }

  lemma ComplementVerifies(x: nat)
    ensures Verifies(x + Stored(x))
  {
    var f := Fold(x);
    var k := x / ONES - f / ONES;
    assert x == f + k * ONES && x + Stored(x) == 0 + (k + 1) * ONES;
    SameRemainder(0, k + 1);
    FoldIsUnique(x + Stored(x), ONES);
  }

  /** And no other value in the field does, but for the two forms of zero. */
  lemma OnlyStoredVerifies(x: nat, c: nat)
    requires c < TWO16 && Verifies(x + c)
    ensures c % ONES == Stored(x) % ONES
  {
    var f := Fold(x);
    var k := x / ONES - f / ONES;
    assert x + c == f + c + k * ONES;
    SameRemainder(f + c, k);
    assert (f + c) % ONES == 0;
    assert f + c == 0 || f + c == ONES || f + c == 2 * ONES;
  }

  // ----- Byte order -----

  function Swap(x: nat): (r: nat)
    requires x < TWO16
    ensures r < TWO16
  {
    x % 256 * 256 + x / 256
  }

  function SwapPairs(s: seq<Byte>): (r: seq<Byte>)
    requires |s| % 2 == 0
    ensures |r| == |s|
  {
    if s == [] then [] else [s[1], s[0]] + SwapPairs(s[2..])
  }

  lemma {:induction false} SwappedSum(s: seq<Byte>)
    requires |s| % 2 == 0
    ensures WordSum(SwapPairs(s)) % ONES == (256 * WordSum(s)) % ONES
    ensures WordSum(SwapPairs(s)) == 0 <==> WordSum(s) == 0
  {
    if s != [] {
      var rest := SwapPairs(s[2..]);
      SwappedSum(s[2..]);
      SumOfParts([s[1], s[0]], rest);
      SumOfRest(s, 2, 2);
      var x, y := WordSum(rest), WordSum(s[2..]);
      var w, v: int := Word(s[0], s[1]), Word(s[1], s[0]);
      assert WordSum([s[1], s[0]]) == v by {
        assert SumFrom([s[1], s[0]], 2) == 0;
      }
      assert WordSum(s) == w + y;
      assert 256 * (w + y) == (v + 256 * y) + s[1] * ONES;
      SameRemainder(v + 256 * y, s[1]);
      AddSame(v, x, 256 * y);
    }
  }

  lemma AddSame(z: int, x: int, y: int)
    requires x % ONES == y % ONES
    ensures (z + x) % ONES == (z + y) % ONES
  {
    var k := x / ONES - y / ONES;
    assert z + x == z + y + k * ONES;
    SameRemainder(z + y, k);
  }

  /** The sum does not depend on the byte order of the machine: swapping the bytes of every word swaps the
      bytes of the result. */
  lemma {:induction false} SwapCommutes(s: seq<Byte>)
    requires |s| % 2 == 0
    ensures Fold(WordSum(SwapPairs(s))) == Swap(Fold(WordSum(s)))
  {
    var x, y := WordSum(s), WordSum(SwapPairs(s));
    SwappedSum(s);
    Times256(x, Fold(x));
    SwapIsTimes256(Fold(x));
    FoldIsUnique(y, Swap(Fold(x)));
  }

  lemma SwapIsTimes256(f: nat)
    requires f < TWO16
    ensures Swap(f) % ONES == (256 * f) % ONES && (Swap(f) == 0 <==> f == 0) && Fold(Swap(f)) == Swap(f)
  {
    assert 256 * f == Swap(f) + f / 256 * ONES;
    SameRemainder(Swap(f), f / 256);
  }

  lemma Times256(x: nat, f: nat)
    requires x % ONES == f % ONES
    ensures (256 * x) % ONES == (256 * f) % ONES
  {
    var k := x / ONES - f / ONES;
    assert x == f + k * ONES;
    assert 256 * x == 256 * f + (256 * k) * ONES;
    SameRemainder(256 * f, 256 * k);
  }
}
