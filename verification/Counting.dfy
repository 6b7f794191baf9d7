/** Summing a weight over the threads of a state machine, and how one thread's step changes the sum. */
module Counting {

  function Sum<T>(s: seq<T>, w: T -> nat): nat {
    if s == [] then 0 else w(s[0]) + Sum(s[1..], w)
  }

  /** Only the element that is replaced changes its part of the sum. */
  lemma {:induction false} SumUpdate<T>(s: seq<T>, w: T -> nat, i: nat, x: T)
    requires i < |s|
    ensures Sum(s[i := x], w) == Sum(s, w) - w(s[i]) + w(x)
    ensures w(s[i]) <= Sum(s, w)
  {
    var u := s[i := x];
    if i == 0 {
      assert u[1..] == s[1..];
    } else {
      assert u[1..] == s[1..][i - 1 := x];
      SumUpdate(s[1..], w, i - 1, x);
    }
  }

  lemma {:induction false} SumZero<T>(s: seq<T>, w: T -> nat)
    requires forall i :: 0 <= i < |s| ==> w(s[i]) == 0
    ensures Sum(s, w) == 0
  {
    if s != [] {
      assert forall i :: 0 <= i < |s[1..]| ==> s[1..][i] == s[i + 1];
      SumZero(s[1..], w);
    }
  }

  /** A positive sum has a witness. */
  lemma {:induction false} SumPositive<T>(s: seq<T>, w: T -> nat) returns (i: nat)
    requires Sum(s, w) > 0
    ensures i < |s| && w(s[i]) > 0
  {
    if w(s[0]) > 0 {
      i := 0;
    } else {
      i := SumPositive(s[1..], w);
      i := i + 1;
    }
  }

  lemma {:induction false} SumAtMost<T>(s: seq<T>, w: T -> nat, b: nat)
    requires forall i :: 0 <= i < |s| ==> w(s[i]) <= b
    ensures Sum(s, w) <= b * |s|
  {
    if s != [] {
      assert forall i :: 0 <= i < |s[1..]| ==> s[1..][i] == s[i + 1];
      SumAtMost(s[1..], w, b);
      assert b * |s| == b + b * |s[1..]| by {
        assert |s| == 1 + |s[1..]|;
        assert b * (1 + |s[1..]|) == b + b * |s[1..]|;
      }
    }
  }

  lemma {:induction false} SumLast<T>(s: seq<T>, w: T -> nat)
    requires s != []
    ensures Sum(s, w) == Sum(s[..|s| - 1], w) + w(s[|s| - 1])
  {
    if |s| > 1 {
      SumLast(s[1..], w);
      assert s[1..][..|s| - 2] == s[..|s| - 1][1..];
    }
  }
}
