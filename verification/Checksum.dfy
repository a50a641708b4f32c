/** The Internet checksum and the two senders that store it (RFC 1071 section 1,
    RFC 791 section 3.1, RFC 793 section 3.1). */
module Checksum {

  type Byte = b: nat | b < 256

  const WRAP: nat := 0x1_0000_0000

  function Word(hi: nat, lo: nat): nat { 256 * hi + lo }

  /** The mathematical sum of the big-endian 16-bit words of `d`; an odd last byte is a high byte. */
  function WordSum(d: seq<Byte>): nat {
    if |d| == 0 then 0
    else if |d| == 1 then Word(d[0], 0)
    else Word(d[0], d[1]) + WordSum(d[2..])
  }

  /** Sums of the bytes at even and at odd positions. */
  ghost function EvenBytes(d: seq<Byte>): nat { if d == [] then 0 else d[0] as int + OddBytes(d[1..]) }

  ghost function OddBytes(d: seq<Byte>): nat { if d == [] then 0 else EvenBytes(d[1..]) }

  /** Bytes at even positions count 256 times, the others once. */
  lemma {:induction false} WordSumBytes(d: seq<Byte>)
    ensures WordSum(d) == 256 * EvenBytes(d) + OddBytes(d)
  {
    if |d| >= 2 {
      WordSumBytes(d[2..]);
      assert d[1..][1..] == d[2..];
      assert EvenBytes(d) == d[0] as int + EvenBytes(d[2..]);
      assert OddBytes(d) == d[1] as int + OddBytes(d[2..]);
    } else if |d| == 1 {
      assert OddBytes(d[1..]) == 0 && EvenBytes(d[1..]) == 0;
    }
  }

  lemma {:induction false} WordSumConcat(a: seq<Byte>, b: seq<Byte>)
    requires |a| % 2 == 0
    ensures WordSum(a + b) == WordSum(a) + WordSum(b)
  {
    if a == [] {
      assert a + b == b;
    } else {
      assert (a + b)[2..] == a[2..] + b;
      WordSumConcat(a[2..], b);
    }
  }

  /** The value that folding carries back in settles on: the ones' complement sum. */
  function OnesSum(s: nat): nat { if s == 0 then 0 else (s - 1) % 0xFFFF + 1 }

  lemma FoldKeeps(s: nat)
    requires s >= 0x1_0000
    ensures OnesSum(s % 0x1_0000 + s / 0x1_0000) == OnesSum(s)
    ensures 0 < s % 0x1_0000 + s / 0x1_0000 < s
  {
    var hi, lo := s / 0x1_0000, s % 0x1_0000;
    assert s - 1 == hi * 0xFFFF + (lo + hi - 1);
    ModShift(lo + hi - 1, hi);
  }

  lemma {:induction false} ModShift(a: nat, k: nat)
    ensures (k * 0xFFFF + a) % 0xFFFF == a % 0xFFFF
  {
    if k > 0 {
      ModShift(a, k - 1);
      assert k * 0xFFFF + a == ((k - 1) * 0xFFFF + a) + 0xFFFF;
    }
  }

  lemma {:induction false} WordSumBound(d: seq<Byte>)
    ensures WordSum(d) <= (|d| + 1) / 2 * 0xFFFF
  {
    if |d| >= 2 {
      WordSumBound(d[2..]);
      assert (|d| + 1) / 2 == (|d[2..]| + 1) / 2 + 1;
    }
  }

  /** The checksum as a function of the bytes: the complement of the ones' complement sum. */
  function Cksum(d: seq<Byte>): (r: nat)
    ensures r <= 0xFFFF
  {
    0xFFFF - OnesSum(WordSum(d))
  }

  /** The first loop, over a 32-bit accumulator that wraps. */
  method SumWords(data: seq<Byte>) returns (sum: nat)
    ensures sum < WRAP
    ensures WordSum(data) < WRAP ==> sum == WordSum(data)
  {
    hide Word;
    sum := 0;
    var i := 0;
    while i + 1 < |data|
      invariant 0 <= i <= |data|
      invariant sum < WRAP
      invariant WordSum(data) < WRAP ==> sum + WordSum(data[i..]) == WordSum(data)
    {
      assert data[i..][2..] == data[i + 2..];
      sum := (sum + Word(data[i], data[i + 1])) % WRAP;
      i := i + 2;
    }
    if i < |data| { sum := (sum + Word(data[i], 0)) % WRAP; }
  }

  /** Both loops of the source. Up to 131074 bytes, twice what a segment can hold, the
      32-bit accumulator cannot overflow. */
  method IpChecksum(data: seq<Byte>) returns (r: nat)
    ensures r < 0x1_0000
    ensures |data| <= 131074 ==> r == Cksum(data)
  {
    WordSumBound(data);
    var sum := SumWords(data);
    while sum / 0x1_0000 != 0
      invariant |data| <= 131074 ==> OnesSum(sum) == OnesSum(WordSum(data))
      decreases sum
    {
      FoldKeeps(sum);
      sum := sum % 0x1_0000 + sum / 0x1_0000;
    }
    r := 0xFFFF - sum;
  }

  // ---- storing the checksum --------------------------------------------------------------

  /** Big-endian bytes of `v`, truncated to 16 bits as the cast does. */
  function U16Bytes(v: nat): (r: seq<Byte>)
    ensures |r| == 2 && Word(r[0], r[1]) == v % 0x1_0000 == 256 * r[0] as int + r[1] as int
  {
    var w := v % 0x1_0000;
    [w / 256, w % 256]
  }

  function U32Bytes(v: nat): (r: seq<Byte>)
    ensures |r| == 4 && Word(r[0], r[1]) == v / 0x1_0000 % 0x1_0000 && Word(r[2], r[3]) == v % 0x1_0000
  {
    U16Bytes(v / 0x1_0000) + U16Bytes(v)
  }

  /** Most significant byte first. */
  lemma U32Value(v: nat)
    requires v < 0x1_0000_0000
    ensures var r := U32Bytes(v);
      v == 0x100_0000 * r[0] as int + 0x1_0000 * r[1] as int + 0x100 * r[2] as int + r[3] as int
  {
    hide U32Bytes, U16Bytes;
    var hi, lo := v / 0x1_0000, v % 0x1_0000;
    assert v == 0x1_0000 * hi + lo && hi % 0x1_0000 == hi;
    var r := U32Bytes(v);
    assert hi == 256 * r[0] as int + r[1] as int && lo == 256 * r[2] as int + r[3] as int;
  }

  function Put(b: seq<Byte>, off: nat, s: seq<Byte>): (r: seq<Byte>)
    requires off + |s| <= |b|
    ensures |r| == |b| && r[off..off + |s|] == s
    ensures forall i :: 0 <= i < |b| && !(off <= i < off + |s|) ==> r[i] == b[i]
  {
    b[..off] + s + b[off + |s|..]
  }

  /** Storing a word over a zeroed one adds it to the sum. */
  lemma {:induction false} StoreAdds(d: seq<Byte>, f: nat, w: seq<Byte>)
    requires f % 2 == 0 && f + 2 <= |d| && d[f] == d[f + 1] == 0 && |w| == 2
    ensures WordSum(Put(d, f, w)) == WordSum(d) + Word(w[0], w[1])
  {
    if f == 0 {
      assert Put(d, 0, w)[2..] == d[2..];
    } else {
      StoreAdds(d[2..], f - 2, w);
      assert Put(d, f, w)[2..] == Put(d[2..], f - 2, w);
    }
  }

  /** The receiver's check: with the field in place, at any even offset and whatever the length, the
      checksum comes out zero. */
  lemma StoredVerifies(d: seq<Byte>, f: nat)
    requires f % 2 == 0 && f + 2 <= |d| && d[f] == d[f + 1] == 0
    ensures Cksum(Put(d, f, U16Bytes(Cksum(d)))) == 0
  {
    hide Put, U16Bytes, Word, OnesSum, WordSum;
    OnesBound(WordSum(d));
    StoreAdds(d, f, U16Bytes(Cksum(d)));
    Complement(WordSum(d));
  }

  lemma OnesBound(s: nat)
    ensures OnesSum(s) <= 0xFFFF
  {
  }

  /** Adding the complement of its ones' complement sum rounds any sum up to all ones. */
  lemma Complement(s: nat)
    ensures OnesSum(s) <= 0xFFFF && OnesSum(s + (0xFFFF - OnesSum(s))) == 0xFFFF
  {
    if s > 0 {
      var q, r := (s - 1) / 0xFFFF, (s - 1) % 0xFFFF;
      assert s + (0xFFFF - (r + 1)) - 1 == q * 0xFFFF + 0xFFFE;
      ModShift(0xFFFE, q);
    }
  }

  // ---- the senders ---------------------------------------------------------------------------

  const MY_IP: seq<Byte> := [10, 0, 2, 15]

  /** Build the IP packet around `payload`: the header checks to zero and the fields and payload
      are where section 3.1 of RFC 791 puts them. */
  method IpPacket(dst: seq<Byte>, proto: Byte, payload: seq<Byte>) returns (pkt: seq<Byte>)
    requires |dst| == 4
    ensures |pkt| == 20 + |payload| && Cksum(pkt[..20]) == 0
    ensures pkt[..2] == [0x45, 0] && Word(pkt[2], pkt[3]) == |pkt| % 0x1_0000 && pkt[4..8] == [0, 1, 0x40, 0]
    ensures 256 * pkt[2] as int + pkt[3] as int == |pkt| % 0x1_0000
    ensures pkt[8..10] == [64, proto] && pkt[12..16] == MY_IP && pkt[16..20] == dst && pkt[20..] == payload
  {
    var total := 20 + |payload|;
    pkt := Put(seq(total, _ => 0), 0, [0x45, 0]);
    pkt := Put(pkt, 2, U16Bytes(total));
    pkt := Put(pkt, 4, [0, 1]);
    pkt := Put(pkt, 6, [0x40, 0]);
    pkt := Put(pkt, 8, [64, proto]);
    pkt := Put(pkt, 10, [0, 0]);
    pkt := Put(pkt, 12, MY_IP);
    pkt := Put(pkt, 16, dst);
    var cksum := IpChecksum(pkt[..20]);
    StoredVerifies(pkt[..20], 10);
    ghost var header := Put(pkt[..20], 10, U16Bytes(cksum));
    pkt := Put(pkt, 10, U16Bytes(cksum));
    pkt := Put(pkt, 20, payload);
    assert pkt[..20] == header;
  }

  /** What the TCP checksum covers: the pseudo-header, then the segment. */
  function Covered(src: seq<Byte>, dst: seq<Byte>, seg: seq<Byte>): seq<Byte> {
    src + dst + [0, 6] + U16Bytes(|seg|) + seg
  }

  method TcpChecksum(src: seq<Byte>, dst: seq<Byte>, seg: seq<Byte>) returns (r: nat)
    requires |src| == |dst| == 4
    ensures r < 0x1_0000
    ensures |seg| <= 131062 ==> r == Cksum(Covered(src, dst, seg))
    ensures |seg| <= 131062 ==> r == 0xFFFF - OnesSum(PseudoSum(src, dst, |seg|) + WordSum(seg))
  {
    hide WordSum, OnesSum, PseudoSum, Word;
    var buf: seq<Byte> := seq(12 + |seg|, _ => 0);
    buf := Put(buf, 0, src);
    buf := Put(buf, 4, dst);
    buf := Put(buf, 8, [0]);
    buf := Put(buf, 9, [6]);
    buf := Put(buf, 10, U16Bytes(|seg|));
    buf := Put(buf, 12, seg);
    assert buf == Covered(src, dst, seg);
    CoveredSum(src, dst, seg);
    r := IpChecksum(buf);
  }

  /** The words of the pseudo-header: both addresses, the protocol number of TCP, and the length. */
  ghost function PseudoSum(src: seq<Byte>, dst: seq<Byte>, len: nat): nat {
    WordSum(src) + WordSum(dst) + 6 + len % 0x1_0000
  }

  lemma CoveredSum(src: seq<Byte>, dst: seq<Byte>, seg: seq<Byte>)
    requires |src| == |dst| == 4
    ensures WordSum(Covered(src, dst, seg)) == PseudoSum(src, dst, |seg|) + WordSum(seg)
  {
    hide WordSum;
    FiveSums(src, dst, [0, 6], U16Bytes(|seg|), seg);
    OneWord([0, 6]);
    OneWord(U16Bytes(|seg|));
  }

  lemma FiveSums(a: seq<Byte>, b: seq<Byte>, c: seq<Byte>, d: seq<Byte>, e: seq<Byte>)
    requires |a| == |b| == 4 && |c| == |d| == 2
    ensures WordSum(a + b + c + d + e) == WordSum(a) + WordSum(b) + WordSum(c) + WordSum(d) + WordSum(e)
  {
    hide WordSum;
    WordSumConcat(a + b + c + d, e);
    WordSumConcat(a + b + c, d);
    WordSumConcat(a + b, c);
    WordSumConcat(a, b);
  }

  lemma OneWord(b: seq<Byte>)
    requires |b| == 2
    ensures WordSum(b) == 256 * b[0] as int + b[1] as int
  {
    assert WordSum(b[2..]) == 0;
  }

  /** Everything a segment is made of. */
  datatype Segment = Segment(srcPort: nat, dstPort: nat, seqNo: nat, ackNo: nat, flags: Byte, data: seq<Byte>)

  /** Section 3.1 of RFC 793: where the fields of `s` are found in `seg`. */
  ghost predicate Carries(seg: seq<Byte>, s: Segment) {
    && |seg| == 20 + |s.data| && seg[20..] == s.data
    && seg[..2] == U16Bytes(s.srcPort) && seg[2..4] == U16Bytes(s.dstPort)
    && seg[4..8] == U32Bytes(s.seqNo) && seg[8..12] == U32Bytes(s.ackNo)
    && seg[12..16] == [0x50, s.flags, 255, 255] && seg[18..20] == [0, 0]
  }

  function Zeros(n: nat): seq<Byte> { seq(n, _ => 0) }

  /** Writing at the front of the untouched part. */
  lemma PutNext(done: seq<Byte>, n: nat, s: seq<Byte>)
    requires |s| <= n
    ensures Put(done + Zeros(n), |done|, s) == (done + s) + Zeros(n - |s|)
  {
    assert (done + Zeros(n))[..|done|] == done;
    assert (done + Zeros(n))[|done| + |s|..] == Zeros(n - |s|);
  }

  /** A segment without its checksum, field after field. */
  function Fields(s: Segment): seq<Byte> {
    U16Bytes(s.srcPort) + U16Bytes(s.dstPort) + U32Bytes(s.seqNo) + U32Bytes(s.ackNo) + [0x50] + [s.flags] + [255, 255]
  }

  lemma FieldsCarried(s: Segment, seg: seq<Byte>)
    requires seg == Fields(s) + Zeros(4) + s.data
    ensures Carries(seg, s) && seg[16] == seg[17] == 0
  {
    hide U16Bytes, U32Bytes;
    assert seg[..2] == U16Bytes(s.srcPort);
    assert seg[2..4] == U16Bytes(s.dstPort);
    assert seg[4..8] == U32Bytes(s.seqNo);
    assert seg[8..12] == U32Bytes(s.ackNo);
    assert seg[12..16] == [0x50, s.flags, 255, 255];
    assert seg[16..20] == Zeros(4) && seg[18..20] == [0, 0];
    assert seg[20..] == s.data;
  }

  /** The segment before its checksum is stored. */
  method FillSegment(s: Segment) returns (seg: seq<Byte>)
    ensures |seg| == 20 + |s.data| && Carries(seg, s) && seg[16] == seg[17] == 0
  {
    hide U16Bytes, U32Bytes, Put, Carries, Zeros;
    var n := 20 + |s.data|;
    ghost var done: seq<Byte> := [];
    seg := Zeros(n);
    assert seg == done + Zeros(n);
    PutNext(done, n, U16Bytes(s.srcPort));
    seg, done := Put(seg, 0, U16Bytes(s.srcPort)), done + U16Bytes(s.srcPort);
    PutNext(done, n - 2, U16Bytes(s.dstPort));
    seg, done := Put(seg, 2, U16Bytes(s.dstPort)), done + U16Bytes(s.dstPort);
    PutNext(done, n - 4, U32Bytes(s.seqNo));
    seg, done := Put(seg, 4, U32Bytes(s.seqNo)), done + U32Bytes(s.seqNo);
    PutNext(done, n - 8, U32Bytes(s.ackNo));
    seg, done := Put(seg, 8, U32Bytes(s.ackNo)), done + U32Bytes(s.ackNo);
    PutNext(done, n - 12, [0x50]);
    seg, done := Put(seg, 12, [0x50]), done + [0x50];
    PutNext(done, n - 13, [s.flags]);
    seg, done := Put(seg, 13, [s.flags]), done + [s.flags];
    PutNext(done, n - 14, [255, 255]);
    seg, done := Put(seg, 14, [255, 255]), done + [255, 255];
    assert done == Fields(s);
    ZerosSplit(4, |s.data|);
    assert seg == (done + Zeros(4)) + Zeros(|s.data|);
    PutNext(done + Zeros(4), |s.data|, s.data);
    seg := Put(seg, 20, s.data);
    ZerosNone();
    assert seg == Fields(s) + Zeros(4) + s.data;
    FieldsCarried(s, seg);
  }

  lemma ZerosSplit(a: nat, b: nat)
    ensures Zeros(a + b) == Zeros(a) + Zeros(b) && |Zeros(a)| == a
  {
  }

  lemma ZerosNone()
    ensures Zeros(0) == []
  {
  }

  method TcpSegment(dst: seq<Byte>, s: Segment) returns (seg: seq<Byte>)
    requires |dst| == 4
    ensures |seg| == 20 + |s.data| && Carries(seg, s)
    ensures |seg| <= 131062 ==> Cksum(Covered(MY_IP, dst, seg)) == 0
  {
    hide Carries, Cksum;
    seg := FillSegment(s);
    var ck := TcpChecksum(MY_IP, dst, seg);
    StoreCovered(MY_IP, dst, seg, U16Bytes(ck));
    StoreCarries(seg, s, U16Bytes(ck));
    if |seg| <= 131062 { StoredVerifies(Covered(MY_IP, dst, seg), 28); }
    seg := Put(seg, 16, U16Bytes(ck));
  }

  lemma StoreCarries(seg: seq<Byte>, s: Segment, w: seq<Byte>)
    requires Carries(seg, s) && |w| == 2
    ensures |seg| >= 20 && Carries(Put(seg, 16, w), s)
  {
    var r := Put(seg, 16, w);
    assert r[20..] == seg[20..] && r[..2] == seg[..2] && r[2..4] == seg[2..4] && r[4..8] == seg[4..8];
    assert r[8..12] == seg[8..12] && r[12..16] == seg[12..16] && r[18..20] == seg[18..20];
  }

  lemma StoreCovered(src: seq<Byte>, dst: seq<Byte>, seg: seq<Byte>, w: seq<Byte>)
    requires |src| == |dst| == 4 && |seg| >= 20 && |w| == 2
    ensures Covered(src, dst, Put(seg, 16, w)) == Put(Covered(src, dst, seg), 28, w)
  {
    var a, b := Covered(src, dst, Put(seg, 16, w)), Put(Covered(src, dst, seg), 28, w);
    assert a == src + dst + [0, 6] + U16Bytes(|seg|) + (seg[..16] + w + seg[18..]);
    assert b == Covered(src, dst, seg)[..28] + w + Covered(src, dst, seg)[30..];
    assert Covered(src, dst, seg)[..28] == src + dst + [0, 6] + U16Bytes(|seg|) + seg[..16];
    assert Covered(src, dst, seg)[30..] == seg[18..];
  }

  /** What goes on the wire for one segment: a packet whose header and whose segment both check to zero. */
  method SendSegment(dst: seq<Byte>, s: Segment) returns (pkt: seq<Byte>)
    requires |dst| == 4
    ensures |pkt| == 40 + |s.data| && Cksum(pkt[..20]) == 0 && pkt[8..10] == [64, 6] && pkt[12..16] == MY_IP
    ensures pkt[16..20] == dst
    ensures Carries(pkt[20..], s)
    ensures |pkt| <= 0xFFFF ==>
      Word(pkt[2], pkt[3]) == |pkt| && Cksum(Covered(pkt[12..16], pkt[16..20], pkt[20..])) == 0
    ensures |pkt| <= 0xFFFF ==>
      && 256 * pkt[2] as int + pkt[3] as int == |pkt|
      && OnesSum(PseudoSum(pkt[12..16], pkt[16..20], |pkt| - 20) + WordSum(pkt[20..])) == 0xFFFF
  {
    hide Carries, Covered, Word, PseudoSum, OnesSum, WordSum;
    var seg := TcpSegment(dst, s);
    pkt := IpPacket(dst, 6, seg);
    CoveredSum(pkt[12..16], pkt[16..20], pkt[20..]);
  }
}
