/**
 The reassembly of IP fragments in place: a list of contexts, each with a linked list of socket buffers that is
 searched, relinked and walked. Every method does what the functions of module Reassembly say.
 */
module Defrager {
  import opened Reassembly

  class SocketBuffer {
    const frag: Fragment             // the packet as it arrived
    var next: SocketBuffer?
    var totLen: nat                  // the total length in its IP header
    var hasHeader: bool              // whether network_hdr is set
    var begin: nat                   // user_payload_begin, from the start of the raw bytes

    constructor (f: Fragment)
      ensures frag == f && next == null && totLen == f.totLen && hasHeader
    {
      frag, next, totLen, hasHeader := f, null, f.totLen, true;
      begin := 0;
    }
  }

  class DefragContext {
    const key: Key
    var first: SocketBuffer?
    ghost var chain: seq<SocketBuffer>

    constructor (k: Key)
      ensures key == k && first == null && chain == []
    {
      key, first, chain := k, null, [];
    }
  }

  ghost function Frags(chain: seq<SocketBuffer>): (fs: seq<Fragment>)
    ensures |fs| == |chain| && forall i :: 0 <= i < |chain| ==> fs[i] == chain[i].frag
  {
    seq(|chain|, i requires 0 <= i < |chain| => chain[i].frag)
  }

  ghost function NextIn(chain: seq<SocketBuffer>, i: nat): SocketBuffer? {
    if i + 1 < |chain| then chain[i + 1] else null
  }

  ghost predicate Linked(first: SocketBuffer?, chain: seq<SocketBuffer>)
    reads chain`next
  {
    && first == (if chain == [] then null else chain[0])
    && (forall i, j :: 0 <= i < j < |chain| ==> chain[i] != chain[j])
    && forall i :: 0 <= i < |chain| ==> chain[i].next == NextIn(chain, i)
  }

  /** The buffers are as they arrived but for their links. */
  ghost predicate Untouched(chain: seq<SocketBuffer>)
    reads chain`totLen, chain`hasHeader
  {
    forall b :: b in chain ==> b.totLen == b.frag.totLen && b.hasHeader
  }

  lemma PlaceIs(chain: seq<Fragment>, x: Fragment, i: nat)
    requires i <= |chain| && (forall j :: 0 <= j < i ==> RawOff(x) > Off(chain[j]))
    requires i < |chain| ==> RawOff(x) <= Off(chain[i])
    ensures Place(chain, x) == i
  {
  }

  ghost function Splice<T>(c: seq<T>, i: nat, x: T): (r: seq<T>)
    requires i <= |c|
    ensures |r| == |c| + 1
    ensures forall j :: 0 <= j < |r| ==> r[j] == if j < i then c[j] else if j == i then x else c[j - 1]
  {
    c[..i] + [x] + c[i..]
  }

  lemma SpliceFrags(c: seq<SocketBuffer>, i: nat, x: SocketBuffer)
    requires i <= |c|
    ensures Frags(Splice(c, i, x)) == Frags(c)[..i] + [x.frag] + Frags(c)[i..]
    ensures forall b :: b in Splice(c, i, x) <==> b in c || b == x
  {
    assert c == c[..i] + c[i..];
  }

  /** The list after the two assignments that put x behind place i - 1, or the one that puts it in front. */
  lemma Relinked(first: SocketBuffer?, c: seq<SocketBuffer>, i: nat, x: SocketBuffer)
    requires i <= |c| && x !in c && forall j, k :: 0 <= j < k < |c| ==> c[j] != c[k]
    requires forall j :: 0 <= j < |c| && j != i - 1 ==> c[j].next == NextIn(c, j)
    requires i > 0 ==> c[i - 1].next == x && first == c[0]
    requires i == 0 ==> first == x
    requires x.next == if i < |c| then c[i] else null
    ensures Linked(first, Splice(c, i, x))
  {
    var r := Splice(c, i, x);
    forall j | 0 <= j < |r|
      ensures r[j].next == NextIn(r, j)
      ensures j != i ==> r[j] != x
    {
      if j < i {
        assert r[j] == c[j] && c[j] in c;
        if j < i - 1 {
          assert c[j].next == NextIn(c, j);
        }
      } else if i < j {
        assert r[j] == c[j - 1] && c[j - 1] in c;
        assert c[j - 1].next == NextIn(c, j - 1);
      }
    }
    forall j, k | 0 <= j < k < |r|
      ensures r[j] != r[k]
    {
      assert j != i && k != i ==> c[if j < i then j else j - 1] != c[if k < i then k else k - 1];
    }
  }

  /** Links a buffer into its context; false where the program would dereference null. */
  method InsertInto(ctx: DefragContext, skbuf: SocketBuffer) returns (ok: bool)
    requires Linked(ctx.first, ctx.chain) && skbuf !in ctx.chain
    modifies ctx, skbuf`next, ctx.chain`next
    ensures ok <==> Insert(Frags(old(ctx.chain)), skbuf.frag).Some?
    ensures ok ==> Linked(ctx.first, ctx.chain) && Some(Frags(ctx.chain)) == Insert(Frags(old(ctx.chain)), skbuf.frag)
    ensures ok ==> forall b :: b in ctx.chain <==> b in old(ctx.chain) || b == skbuf
  {
    hide Splice, Place, Frags, RawOff, NextIn;
    var x := skbuf.frag;
    ghost var c := ctx.chain;
    if ctx.first == null || Off(ctx.first.frag) > Off(x) {
      LinkFront(ctx, skbuf);
      SpliceFrags(c, 0, skbuf);
      assert Frags(c)[..0] + [x] + Frags(c)[0..] == [x] + Frags(c);
      ok := true;
    } else {
      ok := InsertBehind(ctx, skbuf);
      SpliceFrags(c, Place(Frags(c), x), skbuf);
    }
  }

  method LinkFront(ctx: DefragContext, skbuf: SocketBuffer)
    requires Linked(ctx.first, ctx.chain) && skbuf !in ctx.chain
    modifies ctx, skbuf`next
    ensures ctx.chain == Splice(old(ctx.chain), 0, skbuf) && Linked(ctx.first, ctx.chain)
  {
    hide Splice;
    ghost var c := ctx.chain;
    assert forall j :: 0 <= j < |c| ==> c[j] in c;
    skbuf.next := ctx.first;
    ctx.first := skbuf;
    Relinked(ctx.first, c, 0, skbuf);
    ctx.chain := Splice(c, 0, skbuf);
  }

  /** The search for the place, and the relinking there. */
  method InsertBehind(ctx: DefragContext, skbuf: SocketBuffer) returns (ok: bool)
    requires Linked(ctx.first, ctx.chain) && skbuf !in ctx.chain && ctx.chain != []
    modifies ctx`chain, skbuf`next, ctx.chain`next
    ensures ok <==> Place(Frags(old(ctx.chain)), skbuf.frag) > 0
    ensures ok ==> Linked(ctx.first, ctx.chain)
    ensures ok ==> ctx.chain == Splice(old(ctx.chain), Place(Frags(old(ctx.chain)), skbuf.frag), skbuf)
  {
    hide Splice, RawOff;
    var x := skbuf.frag;
    var prev: SocketBuffer? := null;
    var curr := ctx.first;
    ghost var i := 0;
    while curr != null && RawOff(x) > Off(curr.frag)
      invariant i <= |ctx.chain| && curr == (if i < |ctx.chain| then ctx.chain[i] else null)
      invariant prev == if i == 0 then null else ctx.chain[i - 1]
      invariant forall j :: 0 <= j < i ==> RawOff(x) > Off(ctx.chain[j].frag)
      decreases |ctx.chain| - i
    {
      prev := curr;
      curr := curr.next;
      i := i + 1;
    }
    PlaceIs(Frags(ctx.chain), x, i);
    ok := prev != null;
    if ok {
      LinkBehind(ctx, skbuf, prev, curr, i);
    }
  }

  method LinkBehind(ctx: DefragContext, skbuf: SocketBuffer, prev: SocketBuffer, curr: SocketBuffer?, ghost i: nat)
    requires Linked(ctx.first, ctx.chain) && skbuf !in ctx.chain && 0 < i <= |ctx.chain|
    requires prev == ctx.chain[i - 1] && curr == if i < |ctx.chain| then ctx.chain[i] else null
    modifies ctx`chain, skbuf`next, ctx.chain`next
    ensures ctx.chain == Splice(old(ctx.chain), i, skbuf) && Linked(ctx.first, ctx.chain)
  {
    hide Splice;
    hide NextIn;
    ghost var c := ctx.chain;
    prev.next := skbuf;
    skbuf.next := curr;
    forall j | 0 <= j < |c| && j != i - 1
      ensures c[j].next == NextIn(c, j)
    {
      assert c[j] in c && c[j] != c[i - 1];
    }
    Relinked(ctx.first, c, i, skbuf);
    ctx.chain := Splice(c, i, skbuf);
  }

  // ----- The completeness test -----

  method IsReady(ctx: DefragContext) returns (ready: bool)
    requires Linked(ctx.first, ctx.chain) && ctx.chain != [] && Untouched(ctx.chain)
    ensures ready <==> Ready(Frags(ctx.chain))
  {
    var curr := ctx.first;
    var expectedOff: int := 0;
    ghost var i := 0;
    ready := true;
    while curr != null && ready
      invariant i <= |ctx.chain| && curr == if i < |ctx.chain| then ctx.chain[i] else null
      invariant Contiguous(Frags(ctx.chain), 0) <==> ready && Contiguous(Frags(ctx.chain)[i..], expectedOff)
      decreases |ctx.chain| - i, ready
    {
      var currOff := 8 * Off(curr.frag);
      ready := currOff == expectedOff;
      if ready {
        assert curr in ctx.chain;
        expectedOff := currOff + curr.totLen - 4 * curr.frag.ihl;
        assert Frags(ctx.chain)[i..][1..] == Frags(ctx.chain)[i + 1..];
        curr := curr.next;
        i := i + 1;
      }
    }
    if ready {
      var last := LastOf(ctx);
      ready := !More(last.frag);
    }
  }

  method LastOf(ctx: DefragContext) returns (last: SocketBuffer)
    requires Linked(ctx.first, ctx.chain) && ctx.chain != []
    ensures last == ctx.chain[|ctx.chain| - 1]
  {
    last := ctx.first;
    ghost var i := 0;
    while last.next != null
      invariant i < |ctx.chain| && last == ctx.chain[i]
      decreases |ctx.chain| - i
    {
      last := last.next;
      i := i + 1;
    }
  }

  lemma LinkedFirst(ctx: DefragContext)
    requires Linked(ctx.first, ctx.chain) && ctx.chain != []
    ensures ctx.first == ctx.chain[0]
  {
  }

  /** The first header gets its new length; the later fragments lose theirs, and their windows move. */
  method Reassemble(ctx: DefragContext) returns (packet: SocketBuffer)
    requires Linked(ctx.first, ctx.chain) && ctx.chain != [] && Untouched(ctx.chain)
    modifies ctx.chain`totLen, ctx.chain`hasHeader, ctx.chain`begin
    ensures packet == ctx.chain[0]
    ensures packet.totLen == NewTotLen(Frags(ctx.chain)) && packet.hasHeader && packet.begin == old(packet.begin)
    ensures forall i :: 1 <= i < |ctx.chain| ==> !ctx.chain[i].hasHeader && ctx.chain[i].begin == ctx.chain[i].frag.ihl
  {
    hide Off, Low16, Linked;
    assert ctx.first == ctx.chain[0] && ctx.first in ctx.chain by { LinkedFirst(ctx); }
    var last := LastOf(ctx);
    var payloadlen := Low16(8 * Off(last.frag) + last.totLen - 4 * last.frag.ihl);
    packet := ctx.first;
    packet.totLen := Low16(payloadlen + 4 * packet.frag.ihl);
    MoveWindows(ctx, packet);
  }

  method MoveWindows(ctx: DefragContext, packet: SocketBuffer)
    requires Linked(ctx.first, ctx.chain) && ctx.chain != [] && packet == ctx.chain[0]
    modifies ctx.chain`hasHeader, ctx.chain`begin
    ensures packet.hasHeader == old(packet.hasHeader) && packet.begin == old(packet.begin)
    ensures forall i :: 1 <= i < |ctx.chain| ==> !ctx.chain[i].hasHeader && ctx.chain[i].begin == ctx.chain[i].frag.ihl
  {
    var curr := packet.next;
    ghost var k := 1;
    while curr != null
      invariant 1 <= k <= |ctx.chain| && curr == if k < |ctx.chain| then ctx.chain[k] else null
      invariant packet.hasHeader == old(packet.hasHeader) && packet.begin == old(packet.begin)
      invariant forall i :: 1 <= i < k ==> !ctx.chain[i].hasHeader && ctx.chain[i].begin == ctx.chain[i].frag.ihl
      decreases |ctx.chain| - k
    {
      curr.hasHeader := false;
      curr.begin := curr.frag.ihl;
      curr := curr.next;
      k := k + 1;
    }
  }

  // ----- The list of contexts -----

  ghost predicate ContextOk(c: DefragContext)
    reads c, c.chain
  {
    Linked(c.first, c.chain) && Untouched(c.chain)
  }

  twostate lemma ContextKept(c: DefragContext)
    requires old(ContextOk(c)) && unchanged(c)
    requires forall b :: b in c.chain ==> b.next == old(b.next) && b.totLen == old(b.totLen) && b.hasHeader == old(b.hasHeader)
    ensures ContextOk(c)
  {
  }

  /** Two contexts are different objects and share no buffer. */
  ghost predicate Apart(cs: seq<DefragContext>)
    reads cs`chain
  {
    forall i, j :: 0 <= i < |cs| && 0 <= j < |cs| && i != j ==> cs[i] != cs[j] && NoShared(cs[i].chain, cs[j].chain)
  }

  ghost predicate NoShared(a: seq<SocketBuffer>, b: seq<SocketBuffer>) {
    forall x :: x in a ==> x !in b
  }

  /** `buffers` has at least the buffers of all contexts. */
  ghost predicate ListOk(cs: seq<DefragContext>, buffers: set<SocketBuffer>)
    reads cs, buffers
  {
    && (forall i, b :: 0 <= i < |cs| && b in cs[i].chain ==> b in buffers)
    && (forall i :: 0 <= i < |cs| ==> ContextOk(cs[i])) && Apart(cs)
  }

  /** The contexts as values. */
  ghost function Abs(cs: seq<DefragContext>): (r: seq<Context>)
    reads cs`chain
    ensures |r| == |cs| && forall i :: 0 <= i < |cs| ==> r[i] == Context(cs[i].key, Frags(cs[i].chain))
  {
    if cs == [] then [] else
    var c := cs[|cs| - 1];
    Abs(cs[..|cs| - 1]) + [Context(c.key, Frags(c.chain))]
  }

  ghost predicate Unused(cs: seq<DefragContext>, skbuf: SocketBuffer)
    reads cs`chain
  {
    forall i :: 0 <= i < |cs| ==> skbuf !in cs[i].chain
  }

  /** The program fails, keeps the fragment, or returns the first buffer of a reassembled packet. */
  datatype Outcome = Fails | Keeps | Returns(packet: SocketBuffer)

  class Defrager {
    var ctxList: seq<DefragContext>
    ghost var buffers: set<SocketBuffer>

    constructor ()
      ensures ctxList == [] && ListOk(ctxList, buffers)
    {
      ctxList, buffers := [], {};
    }

    /** The search for the context of a datagram; a new one goes to the end of the list. */
    method ContextFor(key: Key) returns (ctx: DefragContext, ghost i: nat)
      requires ListOk(ctxList, buffers)
      modifies this`ctxList
      ensures i == Find(old(Abs(ctxList)), key) < |ctxList| && ctxList[i] == ctx && ctx.key == key
      ensures ListOk(ctxList, buffers) && i <= |old(ctxList)|
      ensures if i < |old(ctxList)| then ctxList == old(ctxList)
              else ctxList == old(ctxList) + [ctx] && ctx.chain == [] && fresh(ctx)
    {
      var n := 0;
      while n < |ctxList| && ctxList[n].key != key
        invariant n <= |ctxList| && forall j :: 0 <= j < n ==> ctxList[j].key != key
      {
        n := n + 1;
      }
      FoundHere(Abs(ctxList), key, n);
      i := n;
      if n < |ctxList| {
        ctx := ctxList[n];
      } else {
        ctx := AddContext(key);
      }
    }

    method AddContext(key: Key) returns (ctx: DefragContext)
      requires ListOk(ctxList, buffers)
      modifies this`ctxList
      ensures ListOk(ctxList, buffers) && ctxList == old(ctxList) + [ctx] && ctx.key == key && ctx.chain == [] && fresh(ctx)
    {
      ghost var cs := ctxList;
      ctx := new DefragContext(key);
      ctxList := ctxList + [ctx];
      forall j | 0 <= j < |cs|
        ensures ContextOk(ctxList[j])
      {
        assert ctxList[j] == cs[j];
      }
    }

    /** Inserts into context i and leaves the others alone. */
    method InsertAt(ctx: DefragContext, skbuf: SocketBuffer, ghost i: nat) returns (ok: bool)
      requires ListOk(ctxList, buffers) && i < |ctxList| && ctxList[i] == ctx
      requires Unused(ctxList, skbuf) && skbuf.totLen == skbuf.frag.totLen && skbuf.hasHeader
      modifies this`buffers, ctx, skbuf`next, ctx.chain`next
      ensures buffers == old(buffers) + {skbuf}
      ensures ok <==> Insert(old(Abs(ctxList))[i].chain, skbuf.frag).Some?
      ensures ok ==> ListOk(ctxList, buffers) && ctx.chain != []
      ensures ok ==> forall b :: b in ctx.chain ==> b in old(ctx.chain) || b == skbuf
      ensures ok ==>
        Abs(ctxList) == old(Abs(ctxList))[i := Context(ctx.key, Insert(old(Abs(ctxList))[i].chain, skbuf.frag).value)]
    {
      hide Insert, Frags, Abs, Linked;
      ghost var cs, chain := ctxList, ctx.chain;
      assert ContextOk(cs[i]);
      forall j | 0 <= j < |cs| && j != i
        ensures cs[j] != ctx && NoShared(cs[j].chain, chain) && NoShared(chain, cs[j].chain) && skbuf !in cs[j].chain
        ensures ContextOk(cs[j])
      {
      }
      ok := InsertInto(ctx, skbuf);
      buffers := buffers + {skbuf};
      if ok {
        assert Untouched(ctx.chain);
        forall j | 0 <= j < |cs| && j != i
          ensures cs[j].chain == old(cs[j].chain) && ContextOk(cs[j])
        {
          assert cs[j] != ctx && NoShared(cs[j].chain, chain) && skbuf !in cs[j].chain;
          ContextKept(cs[j]);
        }
      }
    }

    /** Removes a context from the list if it is in it; that one need not be in order any more. */
    method RemoveIf(ctx: DefragContext) returns (ghost i: nat)
      requires Apart(ctxList) && forall j :: 0 <= j < |ctxList| && ctxList[j] != ctx ==> ContextOk(ctxList[j])
      requires forall j, b :: 0 <= j < |ctxList| && b in ctxList[j].chain ==> b in buffers
      requires ctx !in ctxList ==> ListOk(ctxList, buffers)
      modifies this`ctxList
      ensures ListOk(ctxList, buffers) && i <= |old(ctxList)|
      ensures if i < |old(ctxList)| then old(ctxList)[i] == ctx && ctxList == Dropped(old(ctxList), i)
              else ctx !in old(ctxList) && ctxList == old(ctxList)
    {
      var n := 0;
      while n < |ctxList| && ctxList[n] != ctx
        invariant n <= |ctxList| && forall j :: 0 <= j < n ==> ctxList[j] != ctx
      {
        n := n + 1;
      }
      i := n;
      if n < |ctxList| {
        DroppedOk(ctxList, buffers, n);
        ctxList := ctxList[..n] + ctxList[n + 1..];
      }
    }

    /** One fragment. `bufs` are the buffers of a reassembled packet. */
    method Defrag(skbuf: SocketBuffer) returns (outcome: Outcome, ghost bufs: seq<SocketBuffer>)
      requires ListOk(ctxList, buffers) && Unused(ctxList, skbuf)
      requires skbuf.totLen == skbuf.frag.totLen && skbuf.hasHeader
      modifies this, ctxList, buffers, skbuf
      ensures match Reassembly.Defrag(old(Abs(ctxList)), skbuf.frag)
        case Crash => outcome == Fails
        case Kept(cs) => outcome == Keeps && ListOk(ctxList, buffers) && Abs(ctxList) == cs
        case Done(cs, chain) =>
          outcome.Returns? && ListOk(ctxList, buffers) && Abs(ctxList) == cs && Reassembled(outcome.packet, bufs, chain)
    {
      hide Reassembly.Defrag, Insert, Find, Frags, Abs, ListOk, Ready, NewTotLen, Linked, Dropped;
      ghost var before := Abs(ctxList);
      var ctx, i := ContextFor(skbuf.frag.key);
      DefragIs(before, Abs(ctxList), skbuf.frag, i);
      ListHas(ctxList, buffers, i);
      outcome, bufs := Proceed(ctx, skbuf, i);
    }

    /** The rest of defrag, once the context is there. */
    method Proceed(ctx: DefragContext, skbuf: SocketBuffer, ghost i: nat)
      returns (outcome: Outcome, ghost bufs: seq<SocketBuffer>)
      requires ListOk(ctxList, buffers) && i < |ctxList| && ctxList[i] == ctx
      requires Unused(ctxList, skbuf) && skbuf.totLen == skbuf.frag.totLen && skbuf.hasHeader
      modifies this, ctx, buffers, skbuf
      ensures match Insert(old(Abs(ctxList))[i].chain, skbuf.frag)
        case None => outcome == Fails
        case Some(c) =>
          && ListOk(ctxList, buffers)
          && var cs := old(Abs(ctxList))[i := Context(ctx.key, c)];
          if Ready(c) then outcome.Returns? && Abs(ctxList) == Dropped(cs, i) && Reassembled(outcome.packet, bufs, c)
          else outcome == Keeps && Abs(ctxList) == cs
    {
      hide Insert, Frags, Abs, ListOk, Ready, NewTotLen, Linked, Dropped;
      bufs := [];
      ListHas(ctxList, buffers, i);
      var ok := InsertAt(ctx, skbuf, i);
      if !ok {
        return Fails, bufs;
      }
      ListHas(ctxList, buffers, i);
      var ready := IsReady(ctx);
      if !ready {
        return Keeps, bufs;
      }
      bufs := ctx.chain;
      var packet := TakeOut(ctx, i);
      outcome := Returns(packet);
    }

    /** A complete datagram is put together and its context removed. */
    method TakeOut(ctx: DefragContext, ghost i: nat) returns (packet: SocketBuffer)
      requires ListOk(ctxList, buffers) && i < |ctxList| && ctxList[i] == ctx && ctx.chain != []
      modifies this`ctxList, buffers`totLen, buffers`hasHeader, buffers`begin
      ensures ListOk(ctxList, buffers) && Abs(ctxList) == Dropped(old(Abs(ctxList)), i)
      ensures Reassembled(packet, old(ctx.chain), old(Frags(ctx.chain)))
    {
      hide Frags, NewTotLen, Linked, Untouched, Abs, ListOk, Apart, ContextOk;
      ghost var cs := ctxList;
      ListHas(cs, buffers, i);
      OthersOk(cs, buffers, i);
      AbsDropped(cs, i);
      packet := Reassemble(ctx);
      forall j | 0 <= j < |cs| && cs[j] != ctx
        ensures ContextOk(cs[j])
      {
        assert NoShared(cs[j].chain, ctx.chain);
        ContextKept(cs[j]);
      }
      ghost var k := RemoveIf(ctx);
    }

    /** The timer of a context: it is removed if it is still in the list. */
    method Expire(ctx: DefragContext)
      requires ListOk(ctxList, buffers) && UniqueKeys(Abs(ctxList))
      modifies this
      ensures ListOk(ctxList, buffers)
      ensures Abs(ctxList) == if ctx in old(ctxList) then Without(old(Abs(ctxList)), ctx.key) else old(Abs(ctxList))
    {
      hide Abs, Find;
      ghost var cs := ctxList;
      ghost var i := RemoveIf(ctx);
      if i < |cs| {
        FoundHere(Abs(cs), ctx.key, i);
        AbsDropped(cs, i);
      }
    }
  }

  ghost function Dropped<T>(s: seq<T>, i: nat): (r: seq<T>)
    requires i < |s|
  {
    s[..i] + s[i + 1..]
  }

  lemma DroppedOk(cs: seq<DefragContext>, buffers: set<SocketBuffer>, i: nat)
    requires i < |cs| && Apart(cs) && forall j :: 0 <= j < |cs| && cs[j] != cs[i] ==> ContextOk(cs[j])
    requires forall j, b :: 0 <= j < |cs| && b in cs[j].chain ==> b in buffers
    ensures ListOk(Dropped(cs, i), buffers)
  {
    var r := Dropped(cs, i);
    assert forall j :: 0 <= j < |r| ==> r[j] == cs[if j < i then j else j + 1];
  }

  lemma {:induction false} AbsDropped(cs: seq<DefragContext>, i: nat)
    requires i < |cs|
    ensures Abs(Dropped(cs, i)) == Dropped(Abs(cs), i)
  {
    hide Abs, Frags;
    var r := Dropped(cs, i);
    forall j | 0 <= j < |r|
      ensures Abs(r)[j] == Dropped(Abs(cs), i)[j]
    {
      assert r[j] == cs[if j < i then j else j + 1];
    }
  }

  lemma OthersOk(cs: seq<DefragContext>, buffers: set<SocketBuffer>, i: nat)
    requires ListOk(cs, buffers) && i < |cs|
    ensures Apart(cs) && forall j, b :: 0 <= j < |cs| && b in cs[j].chain ==> b in buffers
    ensures forall j :: 0 <= j < |cs| && cs[j] != cs[i] ==> NoShared(cs[j].chain, cs[i].chain) && ContextOk(cs[j])
  {
  }

  lemma ListHas(cs: seq<DefragContext>, buffers: set<SocketBuffer>, i: nat)
    requires ListOk(cs, buffers) && i < |cs|
    ensures ContextOk(cs[i]) && Linked(cs[i].first, cs[i].chain) && Untouched(cs[i].chain)
    ensures forall b :: b in cs[i].chain ==> b in buffers
  {
  }

  /** The list with the context of a datagram in it, perhaps a new one. */
  ghost predicate Listed(before: seq<Context>, listed: seq<Context>, key: Key, i: nat) {
    && i == Find(before, key) < |listed|
    && listed == if i < |before| then before else before + [Context(key, [])]
  }

  lemma SetInListed(before: seq<Context>, listed: seq<Context>, key: Key, i: nat, chain: seq<Fragment>)
    requires Listed(before, listed, key, i)
    ensures ChainFor(before, key) == listed[i].chain
    ensures WithChain(before, key, chain) == listed[i := Context(key, chain)]
    ensures Without(WithChain(before, key, chain), key) == Dropped(listed[i := Context(key, chain)], i)
  {
    FoundHere(listed[i := Context(key, chain)], key, i);
  }

  /** What the function does, in terms of that list. */
  lemma DefragIs(before: seq<Context>, listed: seq<Context>, x: Fragment, i: nat)
    requires Listed(before, listed, x.key, i)
    ensures Reassembly.Defrag(before, x) == match Insert(listed[i].chain, x)
      case None => Crash
      case Some(c) =>
        if Ready(c) then Done(Dropped(listed[i := Context(x.key, c)], i), c) else Kept(listed[i := Context(x.key, c)])
  {
    hide Find, WithChain, Without, ChainFor, Insert, Ready;
    SetInListed(before, listed, x.key, i, []);
    match Insert(listed[i].chain, x)
    case None =>
    case Some(c) => SetInListed(before, listed, x.key, i, c);
  }

  /** A packet of all these fragments: linked in order, its new length in the first header, the windows of the
      others moved. */
  ghost predicate Reassembled(packet: SocketBuffer, bufs: seq<SocketBuffer>, chain: seq<Fragment>)
    reads bufs, packet
  {
    && bufs != [] && Linked(packet, bufs) && Frags(bufs) == chain
    && packet.totLen == NewTotLen(chain) && packet.hasHeader
    && forall i :: 1 <= i < |bufs| ==> !bufs[i].hasHeader && bufs[i].begin == bufs[i].frag.ihl
  }

  lemma FoundHere(cs: seq<Context>, key: Key, i: nat)
    requires i <= |cs| && (i < |cs| ==> cs[i].key == key) && forall j :: 0 <= j < i ==> cs[j].key != key
    ensures Find(cs, key) == i
  {
  }
}
