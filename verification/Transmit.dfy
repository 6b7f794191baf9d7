/**
 How a TCP segment leaves the stack: a template is filled in, the transport layer uses the IP header as the
 pseudo-header of section 3.1 of RFC 9293 while it computes its checksum and then turns it into the IP header of
 section 3.1 of RFC 791, and the network layer completes that and computes its own checksum. All headers are
 bytes of one buffer, written in place.
 */
module Transmit {
  import opened Checksum

  const RAW_BYTES: nat := 1518
  const NETWORK: nat := 40             // 40 bytes are kept free for IP options
  const TRANSPORT: nat := 60
  const HEADERS_END: nat := 80

  const TCP: Byte := 6
  const SYN: Byte := 0x02
  const ACK: Byte := 0x10

  /** Addresses and ports as they are in memory, in network order. */
  datatype Ends = Ends(laddr: seq<Byte>, faddr: seq<Byte>, lport: seq<Byte>, fport: seq<Byte>)

  predicate GoodEnds(e: Ends) {
    |e.laddr| == |e.faddr| == 4 && |e.lport| == |e.fport| == 2
  }

  function High(x: nat): Byte { x / 256 % 256 }

  function Low(x: nat): Byte { x % 256 }

  /** htonl */
  function Net32(x: nat): (s: seq<Byte>)
    ensures |s| == 4
  {
    [x / 0x100_0000 % 256, x / 0x1_0000 % 256, High(x), Low(x)]
  }

  function Zeros(n: nat): (s: seq<Byte>)
    ensures |s| == n && forall i :: 0 <= i < n ==> s[i] == 0
  {
    seq(n, _ => 0)
  }

  // ----- What the headers are at each stage -----

  /** The IP header standing for the pseudo-header, with the length of the TCP segment in 16 bits. */
  function Overlay(e: Ends, n: nat): (s: seq<Byte>)
    requires GoodEnds(e)
    ensures |s| == 20
  {
    Zeros(8) + [0, TCP] + [High(n + 20), Low(n + 20)] + e.laddr + e.faddr
  }

  /** What the transport layer leaves. */
  function Unfinished(e: Ends, n: nat): (s: seq<Byte>)
    requires GoodEnds(e)
    ensures |s| == 20
  {
    [0, 0, High(n + 40), Low(n + 40), 0, 0, 0, 0, 64, TCP, 0, 0] + e.laddr + e.faddr
  }

  /** The IP header, before its checksum. */
  function Unchecked(e: Ends, n: nat, id: nat): (s: seq<Byte>)
    requires GoodEnds(e)
    ensures |s| == 20
  {
    [0x45, 0, High(n + 40), Low(n + 40), High(id), Low(id), 0, 0, 64, TCP, 0, 0] + e.laddr + e.faddr
  }

  /** The TCP header, before its checksum. */
  function Segment(e: Ends, sequence: nat, acknowledged: nat, flags: Byte): (s: seq<Byte>)
    requires GoodEnds(e)
    ensures |s| == 20
  {
    e.lport + e.fport + Net32(sequence) + Net32(acknowledged) + [0x50, flags, 0x10, 0, 0, 0, 0, 0]
  }

  // ----- What a receiver computes -----

  function TotalLength(ip: seq<Byte>): nat
    requires |ip| == 20
  {
    Word(ip[3], ip[2])
  }

  /** The pseudo-header rebuilt from an IP header: addresses, zero, protocol, length of the segment. */
  function PseudoHeader(ip: seq<Byte>): (s: seq<Byte>)
    requires |ip| == 20
    ensures |s| == 12
  {
    var length := (TotalLength(ip) - 4 * (ip[0] % 16)) % TWO16;
    ip[12..16] + ip[16..20] + [0, ip[9]] + [High(length), Low(length)]
  }

  /** A 32-bit field and a 16-bit field, most significant byte first. */
  function Read32(s: seq<Byte>, i: nat): nat
    requires i + 4 <= |s|
  {
    0x100_0000 * (s[i] as nat) + 0x1_0000 * (s[i + 1] as nat) + 256 * (s[i + 2] as nat) + s[i + 3]
  }

  function Read16(s: seq<Byte>, i: nat): nat
    requires i + 2 <= |s|
  {
    256 * (s[i] as nat) + s[i + 1]
  }

  /** What a receiver reads in a TCP header: section 3.1 of RFC 9293. */
  predicate TcpReads(tcp: seq<Byte>, e: Ends, sequence: nat, acknowledged: nat, flags: Byte) {
    && |tcp| == 20
    && tcp[0..2] == e.lport && tcp[2..4] == e.fport
    && Read32(tcp, 4) == sequence % 0x1_0000_0000 && Read32(tcp, 8) == acknowledged % 0x1_0000_0000
    && tcp[12] / 16 == 5 && tcp[13] == flags && Read16(tcp, 14) == 4096 && Read16(tcp, 18) == 0
  }

  /** And in an IP header: section 3.1 of RFC 791. */
  predicate IpReads(ip: seq<Byte>, e: Ends, n: nat, id: nat) {
    && |ip| == 20
    && ip[0] / 16 == 4 && ip[0] % 16 == 5 && ip[1] == 0
    && Read16(ip, 2) == (n + 40) % 0x1_0000 && Read16(ip, 4) == id % 0x1_0000 && Read16(ip, 6) == 0
    && ip[8] == 64 && ip[9] == 6
    && ip[12..16] == e.laddr && ip[16..20] == e.faddr
  }

  predicate IpVerifies(ip: seq<Byte>) {
    Verifies(WordSum(ip))
  }

  predicate TcpVerifies(ip: seq<Byte>, tcp: seq<Byte>, payload: seq<Byte>)
    requires |ip| == 20
  {
    Verifies(WordSum(PseudoHeader(ip) + tcp + payload))
  }

  // ----- Writing into a header -----

  function With(s: seq<Byte>, at: nat, bytes: seq<Byte>): (r: seq<Byte>)
    requires at + |bytes| <= |s|
    ensures |r| == |s|
    ensures forall i :: 0 <= i < |s| ==> r[i] == if at <= i < at + |bytes| then bytes[i - at] else s[i]
  {
    s[..at] + bytes + s[at + |bytes|..]
  }

  lemma WithInside(s: seq<Byte>, at: nat, bytes: seq<Byte>, lo: nat, hi: nat)
    requires lo <= at && at + |bytes| <= hi <= |s|
    ensures With(s, at, bytes)[lo..hi] == With(s[lo..hi], at - lo, bytes)
  {
  }

  lemma WithOutside(s: seq<Byte>, at: nat, bytes: seq<Byte>, lo: nat, hi: nat)
    requires at + |bytes| <= |s| && lo <= hi <= |s| && (hi <= at || at + |bytes| <= lo)
    ensures With(s, at, bytes)[lo..hi] == s[lo..hi]
  {
  }

  function NetworkPart(raw: seq<Byte>): (s: seq<Byte>)
    requires |raw| == RAW_BYTES
    ensures |s| == 20
  {
    raw[NETWORK..TRANSPORT]
  }

  function TransportPart(raw: seq<Byte>): (s: seq<Byte>)
    requires |raw| == RAW_BYTES
    ensures |s| == 20
  {
    raw[TRANSPORT..HEADERS_END]
  }

  /** A store into the IP header, at an offset from its start. */
  method StoreNetwork(raw: array<Byte>, at: nat, bytes: seq<Byte>)
    requires raw.Length == RAW_BYTES && at + |bytes| <= 20
    modifies raw
    ensures NetworkPart(raw[..]) == With(old(NetworkPart(raw[..])), at, bytes)
    ensures TransportPart(raw[..]) == old(TransportPart(raw[..]))
  {
    WithInside(raw[..], NETWORK + at, bytes, NETWORK, TRANSPORT);
    WithOutside(raw[..], NETWORK + at, bytes, TRANSPORT, HEADERS_END);
    StoreBytes(raw, NETWORK + at, bytes);
  }

  method StoreTransport(raw: array<Byte>, at: nat, bytes: seq<Byte>)
    requires raw.Length == RAW_BYTES && at + |bytes| <= 20
    modifies raw
    ensures TransportPart(raw[..]) == With(old(TransportPart(raw[..])), at, bytes)
    ensures NetworkPart(raw[..]) == old(NetworkPart(raw[..]))
  {
    WithInside(raw[..], TRANSPORT + at, bytes, TRANSPORT, HEADERS_END);
    WithOutside(raw[..], TRANSPORT + at, bytes, NETWORK, TRANSPORT);
    StoreBytes(raw, TRANSPORT + at, bytes);
  }

  method StoreBytes(raw: array<Byte>, at: nat, bytes: seq<Byte>)
    requires at + |bytes| <= raw.Length
    modifies raw
    ensures raw[..] == With(old(raw[..]), at, bytes)
  {
    for i := 0 to |bytes|
      invariant forall j :: 0 <= j < raw.Length ==> raw[j] == if at <= j < at + i then bytes[j - at] else old(raw[j])
    {
      raw[at + i] := bytes[i];
    }
  }

  // ----- The stages -----

  /** socketBufferOfTcpTempl: only the first 120 bytes are cleared. */
  method Template(e: Ends) returns (raw: array<Byte>)
    requires GoodEnds(e)
    ensures fresh(raw) && raw.Length == RAW_BYTES
    ensures NetworkPart(raw[..]) == Zeros(20) && TransportPart(raw[..]) == FromTemplate(e)
  {
    raw := new Byte[RAW_BYTES];
    for i := 0 to 120
      invariant forall j :: 0 <= j < i ==> raw[j] == 0
    {
      raw[i] := 0;
    }
    assert NetworkPart(raw[..]) == Zeros(20) && TransportPart(raw[..]) == Zeros(20);
    StoreTransport(raw, 0, e.lport);
    StoreTransport(raw, 2, e.fport);
    StoreTransport(raw, 12, [0x50]);
    StoreTransport(raw, 14, [0x10, 0]);
  }

  function FromTemplate(e: Ends): (s: seq<Byte>)
    requires GoodEnds(e)
    ensures |s| == 20
  {
    With(With(With(With(Zeros(20), 0, e.lport), 2, e.fport), 12, [0x50]), 14, [0x10, 0])
  }

  lemma SegmentStages(e: Ends, sequence: nat, acknowledged: nat, flags: Byte)
    requires GoodEnds(e)
    ensures With(With(With(FromTemplate(e), 4, Net32(sequence)), 8, Net32(acknowledged)), 13, [flags])
            == Segment(e, sequence, acknowledged, flags)
  {
  }

  lemma OverlayStages(e: Ends, n: nat)
    requires GoodEnds(e)
    ensures With(With(With(With(Zeros(20), 9, [TCP]), 10, [High(n + 20), Low(n + 20)]), 12, e.laddr), 16, e.faddr)
            == Overlay(e, n)
  {
  }

  lemma UnfinishedStages(e: Ends, n: nat)
    requires GoodEnds(e)
    ensures With(With(With(With(Overlay(e, n), 8, [64]), 1, [0]), 2, [High(n + 40), Low(n + 40)]), 10, [0, 0])
            == Unfinished(e, n)
  {
  }

  lemma UncheckedStages(e: Ends, n: nat, id: nat)
    requires GoodEnds(e)
    ensures With(With(Unfinished(e, n), 0, [0x45]), 4, [High(id), Low(id)]) == Unchecked(e, n, id)
  {
  }

  lemma CheckBytes(f: nat)
    requires f < TWO16
    ensures Low(TWO32 - 1 - f) == (ONES - f) % 256 && High(TWO32 - 1 - f) == (ONES - f) / 256
  {
  }

  lemma PatchIsStore(s: seq<Byte>, at: nat, c: nat)
    requires at + 1 < |s| && c < TWO16
    ensures With(s, at, [c % 256, c / 256]) == Patched(s, at, c)
  {
  }

  /** The TCP checksum of a segment, as the program computes it. */
  function TcpSum(e: Ends, tcp: seq<Byte>, payload: seq<Byte>): nat
    requires GoodEnds(e)
  {
    Low32(Low32(WordSum(payload)) + WordSum(Overlay(e, |payload|) + tcp))
  }

  /** prepareBeforeIpTx: the checksum is taken while the IP header stands for the pseudo-header, payload first
      and headers second; the header length is read from the header. */
  method PrepareBeforeIpTx(raw: array<Byte>, e: Ends, payload: array<Byte>)
    requires GoodEnds(e) && raw.Length == RAW_BYTES && raw != payload
    requires NetworkPart(raw[..]) == Zeros(20)
    requires var tcp := TransportPart(raw[..]); tcp[12] == 0x50 && tcp[16] == tcp[17] == 0
    modifies raw
    ensures NetworkPart(raw[..]) == Unfinished(e, payload.Length)
    ensures TransportPart(raw[..])
            == Patched(old(TransportPart(raw[..])), 16, Stored(TcpSum(e, old(TransportPart(raw[..])), payload[..])))
  {
    hide With, Overlay, Unfinished, WordSum, Low32;
    ghost var tcp := TransportPart(raw[..]);
    var n := payload.Length;
    StoreNetwork(raw, 9, [TCP]);
    StoreNetwork(raw, 10, [High(n + 20), Low(n + 20)]);
    StoreNetwork(raw, 12, e.laddr);
    StoreNetwork(raw, 16, e.faddr);
    OverlayStages(e, n);
    StoreTcpChecksum(raw, e, payload, tcp);
    StoreNetwork(raw, 8, [64]);
    StoreNetwork(raw, 1, [0]);
    StoreNetwork(raw, 2, [High(n + 40), Low(n + 40)]);
    StoreNetwork(raw, 10, [0, 0]);
    UnfinishedStages(e, n);
  }

  method StoreTcpChecksum(raw: array<Byte>, e: Ends, payload: array<Byte>, ghost tcp: seq<Byte>)
    requires GoodEnds(e) && raw.Length == RAW_BYTES && raw != payload
    requires NetworkPart(raw[..]) == Overlay(e, payload.Length) && TransportPart(raw[..]) == tcp && tcp[12] == 0x50
    modifies raw
    ensures NetworkPart(raw[..]) == old(NetworkPart(raw[..]))
    ensures TransportPart(raw[..]) == Patched(tcp, 16, Stored(TcpSum(e, tcp, payload[..])))
  {
    hide Overlay, SumFrom, Fold, Low32;
    var sum := 0;
    NoWords();
    if payload.Length > 0 {
      sum := SumWords(payload, 0, payload.Length, 0);
      assert payload[0..payload.Length] == payload[..];
    } else {
      assert payload[..] == [];
    }
    assert raw[NETWORK..HEADERS_END] == NetworkPart(raw[..]) + TransportPart(raw[..]);
    assert raw[72] == tcp[12];
    var check := Compute(raw, NETWORK, raw[72] / 16 * 4 + 20, sum);
    CheckBytes(Fold(TcpSum(e, tcp, payload[..])));
    PatchIsStore(tcp, 16, Stored(TcpSum(e, tcp, payload[..])));
    StoreTransport(raw, 16, [Low(check), High(check)]);
  }

  lemma NoWords()
    ensures WordSum([]) == 0 && Low32(0) == 0
  {
  }

  /** The identification of the next packet; 0 is never given out. */
  class IpIdGenerator {
    var last: nat

    constructor ()
      ensures last == 0
    {
      last := 0;
    }

    method Next() returns (id: nat)
      requires last < TWO16
      modifies this
      ensures id == last == old(last) % ONES + 1
    {
      if last == ONES {
        last := 0;
      }
      last := last + 1;
      id := last;
    }
  }

  /** The part of Ip::tx that completes the header. */
  method IpTx(raw: array<Byte>, ids: IpIdGenerator, ghost e: Ends, ghost n: nat) returns (ghost id: nat)
    requires GoodEnds(e) && raw.Length == RAW_BYTES && NetworkPart(raw[..]) == Unfinished(e, n) && ids.last < TWO16
    modifies raw, ids
    ensures id == ids.last == old(ids.last) % ONES + 1
    ensures NetworkPart(raw[..]) == Finished(e, n, id)
    ensures TransportPart(raw[..]) == old(TransportPart(raw[..]))
  {
    hide WordSum, Fold, Low32;
    assert raw[NETWORK] == NetworkPart(raw[..])[0] == 0;
    StoreNetwork(raw, 0, [4 * 16 + raw[NETWORK] % 16]);
    assert raw[NETWORK] == NetworkPart(raw[..])[0] == 0x40;
    StoreNetwork(raw, 0, [raw[NETWORK] / 16 * 16 + 5]);
    var next := ids.Next();
    id := next;
    StoreNetwork(raw, 4, [High(next), Low(next)]);
    UncheckedStages(e, n, id);
    ghost var ip := Unchecked(e, n, id);
    assert NetworkPart(raw[..]) == ip;
    StoreIpChecksum(raw, ip);
  }

  method StoreIpChecksum(raw: array<Byte>, ghost ip: seq<Byte>)
    requires raw.Length == RAW_BYTES && NetworkPart(raw[..]) == ip && ip[0] == 0x45
    modifies raw
    ensures NetworkPart(raw[..]) == Patched(ip, 10, Stored(WordSum(ip)))
    ensures TransportPart(raw[..]) == old(TransportPart(raw[..]))
  {
    hide Fold, SumFrom;
    assert raw[NETWORK] == ip[0];
    SumIsBounded(ip, 0);
    var check := Compute(raw, NETWORK, raw[NETWORK] % 16 * 4, 0);
    CheckBytes(Fold(WordSum(ip)));
    PatchIsStore(ip, 10, Stored(WordSum(ip)));
    StoreNetwork(raw, 10, [Low(check), High(check)]);
  }

  // ----- What arrives verifies -----

  lemma OverlaySum(e: Ends, n: nat)
    requires GoodEnds(e)
    ensures WordSum(Overlay(e, n))
            == WordSum([0, TCP]) + WordSum([High(n + 20), Low(n + 20)]) + WordSum(e.laddr) + WordSum(e.faddr)
  {
    var length: seq<Byte> := [High(n + 20), Low(n + 20)];
    SumOfParts(Zeros(8), [0, TCP]);
    SumOfParts(Zeros(8) + [0, TCP], length);
    SumOfParts(Zeros(8) + [0, TCP] + length, e.laddr);
    SumOfParts(Zeros(8) + [0, TCP] + length + e.laddr, e.faddr);
    ZerosSum(8, 0);
  }

  lemma {:induction false} ZerosSum(n: nat, i: nat)
    requires i <= n
    ensures SumFrom(Zeros(n), i) == 0
    decreases n - i
  {
    if i + 1 < n {
      ZerosSum(n, i + 2);
    }
  }

  /** The total length in the header is right exactly for payloads that fit an IP packet. */
  lemma TotalLengthExactly(e: Ends, n: nat, id: nat, c: nat)
    requires GoodEnds(e) && c < TWO16
    ensures TotalLength(Patched(Unchecked(e, n, id), 10, c)) == (n + 40) % TWO16
    ensures TotalLength(Patched(Unchecked(e, n, id), 10, c)) == n + 40 <==> n <= 65495
  {
    hide High, Low, Word;
    var ip := Patched(Unchecked(e, n, id), 10, c);
    assert ip[2] == High(n + 40) && ip[3] == Low(n + 40);
    BytesOf(n + 40);
  }

  lemma BytesOf(x: nat)
    ensures Word(Low(x), High(x)) == x % TWO16
    ensures x % TWO16 == x <==> x < TWO16
  {
    assert x == 256 * (x / 256) + x % 256;
    assert x / 256 == 256 * (x / TWO16) + x / 256 % 256;
  }

  lemma PseudoHeaderIs(e: Ends, n: nat, id: nat, c: nat)
    requires GoodEnds(e) && c < TWO16 && n <= 65495
    ensures PseudoHeader(Patched(Unchecked(e, n, id), 10, c))
            == e.laddr + e.faddr + [0, TCP] + [High(n + 20), Low(n + 20)]
  {
    hide High, Low, TotalLength;
    var ip := Patched(Unchecked(e, n, id), 10, c);
    HeaderFields(e, n, id, c);
    TotalLengthExactly(e, n, id, c);
    SmallMod(n + 20);
  }

  lemma SmallMod(x: nat)
    requires x < TWO16
    ensures x % TWO16 == x
  {
  }

  lemma HeaderFields(e: Ends, n: nat, id: nat, c: nat)
    requires GoodEnds(e) && c < TWO16
    ensures var ip := Patched(Unchecked(e, n, id), 10, c);
      ip[0] == 0x45 && ip[9] == TCP && ip[12..16] == e.laddr && ip[16..20] == e.faddr
  {
    hide High, Low;
  }

  lemma PseudoHeaderSum(e: Ends, n: nat, id: nat, c: nat)
    requires GoodEnds(e) && c < TWO16 && n <= 65495
    ensures WordSum(PseudoHeader(Patched(Unchecked(e, n, id), 10, c))) == WordSum(Overlay(e, n))
  {
    hide Fold, WordSum, PseudoHeader, Patched, Unchecked, Overlay, High, Low;
    PseudoHeaderIs(e, n, id, c);
    SumOfParts(e.laddr, e.faddr);
    SumOfParts(e.laddr + e.faddr, [0, TCP]);
    SumOfParts(e.laddr + e.faddr + [0, TCP], [High(n + 20), Low(n + 20)]);
    OverlaySum(e, n);
  }

  lemma NoWrap(e: Ends, tcp: seq<Byte>, payload: seq<Byte>)
    requires GoodEnds(e) && |tcp| == 20 && |payload| <= 65495
    ensures TcpSum(e, tcp, payload) == WordSum(payload) + WordSum(Overlay(e, |payload|)) + WordSum(tcp)
  {
    SumOfParts(Overlay(e, |payload|), tcp);
    SumIsBounded(payload, 0);
    SumIsBounded(Overlay(e, |payload|), 0);
    SumIsBounded(tcp, 0);
  }

  /** The IP header that leaves the stack. */
  function Finished(e: Ends, n: nat, id: nat): (s: seq<Byte>)
    requires GoodEnds(e)
    ensures |s| == 20
  {
    Patched(Unchecked(e, n, id), 10, Stored(WordSum(Unchecked(e, n, id))))
  }

  /** The IP header always verifies. */
  lemma HeaderVerifies(e: Ends, n: nat, id: nat)
    requires GoodEnds(e)
    ensures IpVerifies(Finished(e, n, id))
    ensures TotalLength(Finished(e, n, id)) == n + 40 <==> n <= 65495
  {
    hide Fold, WordSum, Patched, Unchecked, Stored;
    UncheckedField(e, n, id);
    StoredVerifies(0, Unchecked(e, n, id), 10);
    TotalLengthExactly(e, n, id, Stored(WordSum(Unchecked(e, n, id))));
  }

  /** For every payload that fits an IP packet the segment verifies against the pseudo-header a receiver
      rebuilds from the IP header, although the sender never built it and wrote into the header afterwards. */
  lemma SegmentVerifies(e: Ends, id: nat, tcp: seq<Byte>, payload: seq<Byte>)
    requires GoodEnds(e) && |tcp| == 20 && tcp[16] == tcp[17] == 0 && |payload| <= 65495
    ensures var segment := Patched(tcp, 16, Stored(TcpSum(e, tcp, payload)));
      TcpVerifies(Finished(e, |payload|, id), segment, payload)
  {
    hide Fold, WordSum, PseudoHeader, Patched, Unchecked, Overlay, Stored;
    var n := |payload|;
    NoWrap(e, tcp, payload);
    StoredVerifies(WordSum(payload) + WordSum(Overlay(e, n)), tcp, 16);
    PseudoHeaderSum(e, n, id, Stored(WordSum(Unchecked(e, n, id))));
    var pseudo := PseudoHeader(Finished(e, n, id));
    var segment := Patched(tcp, 16, Stored(TcpSum(e, tcp, payload)));
    SumOfParts(pseudo, segment);
    SumOfParts(pseudo + segment, payload);
  }

  lemma UncheckedField(e: Ends, n: nat, id: nat)
    requires GoodEnds(e)
    ensures Unchecked(e, n, id)[10] == Unchecked(e, n, id)[11] == 0
  {
  }

  /** Two headers that differ in the 16-bit field at `field` at most. */
  predicate SameBut(s: seq<Byte>, t: seq<Byte>, field: nat) {
    |s| == |t| && forall i :: 0 <= i < |s| && i != field && i != field + 1 ==> s[i] == t[i]
  }

  lemma Net32Reads(x: nat)
    ensures Read32(Net32(x), 0) == x % 0x1_0000_0000
  {
    hide High, Low;
    ReadsBack(x);
    Halves(x);
    ReadsBack(x / 0x1_0000);
    UpperBytes(x);
  }

  lemma Halves(x: nat)
    ensures x % 0x1_0000_0000 == 0x1_0000 * (x / 0x1_0000 % 0x1_0000) + x % 0x1_0000
  {
    var q := x / 0x1_0000;
    assert x == 0x1_0000 * q + x % 0x1_0000 && q == 0x1_0000 * (q / 0x1_0000) + q % 0x1_0000;
    assert x == 0x1_0000_0000 * (q / 0x1_0000) + (0x1_0000 * (q % 0x1_0000) + x % 0x1_0000);
  }

  lemma UpperBytes(x: nat)
    ensures x / 0x100_0000 % 256 == High(x / 0x1_0000) && x / 0x1_0000 % 256 == Low(x / 0x1_0000)
  {
  }

  /** The header that leaves means what it is meant to. */
  lemma SegmentReads(e: Ends, sequence: nat, acknowledged: nat, flags: Byte, tcp: seq<Byte>)
    requires GoodEnds(e) && SameBut(tcp, Segment(e, sequence, acknowledged, flags), 16)
    ensures TcpReads(tcp, e, sequence, acknowledged, flags)
  {
    hide Net32, Read32;
    var s := Segment(e, sequence, acknowledged, flags);
    assert s[4..8] == Net32(sequence) && s[8..12] == Net32(acknowledged);
    assert tcp[4..8] == s[4..8] && tcp[8..12] == s[8..12];
    NumberReads(tcp, 4, sequence);
    NumberReads(tcp, 8, acknowledged);
    assert tcp[0..2] == s[0..2] == e.lport && tcp[2..4] == s[2..4] == e.fport;
  }

  lemma NumberReads(s: seq<Byte>, i: nat, x: nat)
    requires i + 4 <= |s| && s[i..i + 4] == Net32(x)
    ensures Read32(s, i) == x % 0x1_0000_0000
  {
    hide Net32;
    Net32Reads(x);
    assert s[i..i + 4][0] == s[i] && s[i..i + 4][1] == s[i + 1] && s[i..i + 4][2] == s[i + 2] && s[i..i + 4][3] == s[i + 3];
  }

  lemma HeaderReads(e: Ends, n: nat, id: nat, ip: seq<Byte>)
    requires GoodEnds(e) && SameBut(ip, Unchecked(e, n, id), 10)
    ensures IpReads(ip, e, n, id)
  {
    hide High, Low;
    var s := Unchecked(e, n, id);
    ReadsBack(n + 40);
    ReadsBack(id);
    assert ip[12..16] == s[12..16] == e.laddr && ip[16..20] == s[16..20] == e.faddr;
  }

  lemma ReadsBack(x: nat)
    ensures 256 * (High(x) as nat) + Low(x) == x % 0x1_0000
  {
    BytesOf(x);
  }

  /** The whole way of a segment, from send or ack2peer to the interface. */
  method SendSegment(e: Ends, sequence: nat, acknowledged: nat, flags: Byte, payload: array<Byte>, ids: IpIdGenerator)
    returns (raw: array<Byte>)
    requires GoodEnds(e) && ids.last < TWO16
    modifies ids
    ensures fresh(raw) && raw.Length == RAW_BYTES && ids.last == old(ids.last) % ONES + 1
    ensures IpVerifies(NetworkPart(raw[..]))
    ensures TotalLength(NetworkPart(raw[..])) == payload.Length + 40 <==> payload.Length <= 65495
    ensures payload.Length <= 65495 ==> TcpVerifies(NetworkPart(raw[..]), TransportPart(raw[..]), payload[..])
    ensures TcpReads(TransportPart(raw[..]), e, sequence, acknowledged, flags)
    ensures IpReads(NetworkPart(raw[..]), e, payload.Length, ids.last)
    ensures SameBut(TransportPart(raw[..]), Segment(e, sequence, acknowledged, flags), 16)
    ensures SameBut(NetworkPart(raw[..]), Unchecked(e, payload.Length, ids.last), 10)
  {
    hide With, WordSum, Fold, TcpSum, Overlay, Unfinished, Stored;
    raw := Template(e);
    StoreTransport(raw, 4, Net32(sequence));
    StoreTransport(raw, 8, Net32(acknowledged));
    StoreTransport(raw, 13, [flags]);
    SegmentStages(e, sequence, acknowledged, flags);
    ghost var tcp := Segment(e, sequence, acknowledged, flags);
    PrepareBeforeIpTx(raw, e, payload);
    ghost var id := IpTx(raw, ids, e, payload.Length);
    HeaderVerifies(e, payload.Length, id);
    SegmentReads(e, sequence, acknowledged, flags, TransportPart(raw[..]));
    HeaderReads(e, payload.Length, id, NetworkPart(raw[..]));
    if payload.Length <= 65495 {
      SegmentVerifies(e, id, tcp, payload[..]);
    }
  }
}
