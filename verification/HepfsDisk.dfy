/** Where on the disk everything is, byte by byte: the format another reader of the disk would go by. */
module HepfsDisk {
  import opened HepfsLayout
  import opened HepfsStore

  // ---- numbers ------------------------------------------------------------------------------------

  /** Four bytes, least significant first. */
  ghost function Four(b: seq<Byte>, o: nat): nat
    requires o + 4 <= |b|
  {
    b[o] as int + 256 * (b[o + 1] as int + 256 * (b[o + 2] as int + 256 * b[o + 3] as int))
  }

  ghost function Eight(b: seq<Byte>, o: nat): nat
    requires o + 8 <= |b|
  {
    Four(b, o) + 0x1_0000_0000 * Four(b, o + 4)
  }

  lemma FourIs(b: seq<Byte>, o: nat)
    requires o + 4 <= |b|
    ensures U32At(b, o) == Four(b, o)
  {
  }

  lemma EightIs(b: seq<Byte>, o: nat)
    requires o + 8 <= |b|
    ensures U64At(b, o) == Eight(b, o)
  {
    hide U32At, Four;
    FourIs(b, o);
    FourIs(b, o + 4);
  }

  /** Bit `k` of `x` is what is left of `x` after `k` halvings, modulo two. */
  lemma {:induction false} BitIs(x: nat, k: nat)
    ensures BitOf(x, k) <==> x / Pow2(k) % 2 == 1
  {
    if k > 0 {
      BitIs(x / 2, k - 1);
      HalfFirst(x, Pow2(k - 1));
    }
  }

  lemma HalfFirst(x: nat, p: nat)
    requires p > 0
    ensures x / 2 / p == x / (2 * p)
  {
    var q, r := x / (2 * p), x % (2 * p);
    assert x == 2 * p * q + r && 0 <= r < 2 * p;
    var h := r / 2;
    assert 0 <= h < p && x / 2 == p * q + h;
    Quotient(p, q, h);
  }

  lemma Quotient(p: nat, q: nat, h: nat)
    requires h < p
    ensures (p * q + h) / p == q
  {
    var x := p * q + h;
    var d := x / p - q;
    assert x == p * (x / p) + x % p;
    assert p * d == h - x % p;
    assert d >= 1 ==> p * d >= p * 1;
    assert d <= -1 ==> p * d <= p * -1;
  }

  // ---- bitmaps, inodes and data ---------------------------------------------------------------------

  /** Inode bit `i` is bit `i % 8` of byte `i / 8` of block 1; block bit `b` likewise in blocks 2 to 5. */
  lemma BitFormat(disk: seq<Block>, v: View, i: nat)
    requires Tied(disk, v)
    ensures i < 32768 ==>
      i < |v.ibits| && |disk| > 38 && (v.ibits[i] <==> disk[1][i / 8] / Pow2(i % 8) % 2 == 1)
    ensures i < 131072 ==>
      && i < |v.bbits| && |disk| > 38
      && (v.bbits[i] <==> disk[2 + i / 32768][i % 32768 / 8] / Pow2(i % 8) % 2 == 1)
  {
    hide BitOf, Pow2, InodesTied, DataTied;
    if i < 32768 {
      BitIs(disk[1][i / 8], i % 8);
      assert v.Bits(InodeMap)[i] == BitOnDisk(disk, InodeMap, i);
    }
    if i < 131072 {
      assert i % 32768 % 8 == i % 8;
      BitIs(disk[2 + i / 32768][i % 32768 / 8], i % 8);
      assert v.Bits(BlockMap)[i] == BitOnDisk(disk, BlockMap, i);
    }
  }

  /** Inode `i` is the 128 bytes from `128 * (i % 32)` on of block `6 + i / 32`: flags, size, blocks and times, twelve
      direct pointers, and the two indirect ones. */
  lemma InodeFormat(disk: seq<Block>, v: View, i: nat)
    requires Tied(disk, v) && i < 1024
    ensures |disk| > 38 && i < |v.inodes| && |v.inodes[i].direct| == 12
    ensures var b, o, n := disk[6 + i / 32], 128 * (i % 32), v.inodes[i];
      && n.flags == Four(b, o) && n.size == Eight(b, o + 8) && n.nblocks == Four(b, o + 16)
      && n.ctime == Eight(b, o + 24) && n.mtime == Eight(b, o + 32)
      && (forall j :: 0 <= j < 12 ==> n.direct[j] == Four(b, o + 40 + 4 * j))
      && n.indirect == Four(b, o + 88) && n.dindirect == Four(b, o + 92)
  {
    hide U32At, U64At, Four, Eight, BitsTied, DataTied;
    var b, o := disk[6 + i / 32], 128 * (i % 32);
    assert v.inodes[i] == InodeOnDisk(disk, i);
    FourIs(b, o);
    EightIs(b, o + 8);
    FourIs(b, o + 16);
    EightIs(b, o + 24);
    EightIs(b, o + 32);
    FourIs(b, o + 88);
    FourIs(b, o + 92);
    forall j | 0 <= j < 12 ensures v.inodes[i].direct[j] == Four(b, o + 40 + 4 * j) { FourIs(b, o + 40 + 4 * j); }
  }

  /** A pointer table is 1024 numbers of four bytes. */
  lemma PointerFormat(b: Block, i: nat)
    requires i < 1024
    ensures PtrAt(b, i) == Four(b, 4 * i)
  {
    FourIs(b, 4 * i);
  }

  /** Slot `i` of a directory block is the 32 bytes from `32 * i` on: inode number, length of the name, name; a name
      that is not UTF-8 is read as the empty one. */
  lemma SlotFormat(b: Block, i: nat)
    requires i < 128
    ensures var o := 32 * i;
      && SlotAt(b, i).ino == Four(b, o)
      && var raw := b[o + 5..o + 5 + Min(b[o + 4], 27)]; SlotAt(b, i).name == if Utf8(raw) then raw else []
  {
    hide Utf8;
    FourIs(b, 32 * i);
  }

  // ---- names ----------------------------------------------------------------------------------------

  /** A Unicode scalar value: any code point but the surrogates. */
  predicate Scalar(c: nat) { c < 0xD800 || 0xE000 <= c < 0x11_0000 }

  /** The UTF-8 form of a scalar value (table 3-6 of the Unicode Standard). */
  function Encoded(c: nat): (b: seq<Byte>)
    requires Scalar(c)
    ensures 1 <= |b| <= 4
  {
    if c < 0x80 then [c]
    else if c < 0x800 then [0xC0 + c / 64, 0x80 + c % 64]
    else if c < 0x1_0000 then [0xE0 + c / 4096, 0x80 + c / 64 % 64, 0x80 + c % 64]
    else [0xF0 + c / 0x4_0000, 0x80 + c / 4096 % 64, 0x80 + c / 64 % 64, 0x80 + c % 64]
  }

  /** The number behind the first character. */
  ghost function Decoded(b: seq<Byte>): int
    requires CharLen(b) > 0
  {
    match CharLen(b)
    case 1 => b[0] as int
    case 2 => 64 * (b[0] as int - 0xC0) + (b[1] as int - 0x80)
    case 3 => 64 * (64 * (b[0] as int - 0xE0) + (b[1] as int - 0x80)) + (b[2] as int - 0x80)
    case _ =>
      64 * (64 * (64 * (b[0] as int - 0xF0) + (b[1] as int - 0x80)) + (b[2] as int - 0x80)) + (b[3] as int - 0x80)
  }

  lemma Split(h: nat, l: nat)
    requires l < 64
    ensures (64 * h + l) / 64 == h && (64 * h + l) % 64 == l
  {
  }

  lemma Split2(h: nat, m: nat, l: nat)
    requires m < 64 && l < 64
    ensures var c := 64 * (64 * h + m) + l; c / 4096 == h && c / 64 % 64 == m && c % 64 == l
  {
    Split(64 * h + m, l);
    Split(h, m);
  }

  lemma Split3(g: nat, h: nat, m: nat, l: nat)
    requires h < 64 && m < 64 && l < 64
    ensures var c := 64 * (64 * (64 * g + h) + m) + l;
      c / 0x4_0000 == g && c / 4096 % 64 == h && c / 64 % 64 == m && c % 64 == l
  {
    Split2(64 * g + h, m, l);
    Split(g, h);
    var c := 64 * (64 * (64 * g + h) + m) + l;
    assert c == 0x4_0000 * g + (4096 * h + 64 * m + l) && 4096 * h + 64 * m + l < 0x4_0000;
  }

  /** The form of a scalar value is recognised, whatever follows. */
  lemma EncodedIsChar(c: nat, rest: seq<Byte>)
    requires Scalar(c)
    ensures CharLen(Encoded(c) + rest) == |Encoded(c)|
  {
    var b := Encoded(c) + rest;
    assert b[0] == Encoded(c)[0] && (|Encoded(c)| > 1 ==> b[1] == Encoded(c)[1]);
    assert (|Encoded(c)| > 2 ==> b[2] == Encoded(c)[2]) && (|Encoded(c)| > 3 ==> b[3] == Encoded(c)[3]);
  }

  /** And nothing else is. */
  lemma CharIsEncoded(b: seq<Byte>)
    requires CharLen(b) > 0
    ensures Decoded(b) >= 0 && Scalar(Decoded(b)) && Encoded(Decoded(b)) == b[..CharLen(b)]
  {
    if CharLen(b) == 2 {
      Split(b[0] - 0xC0, b[1] - 0x80);
      assert b[..2] == [b[0], b[1]];
    } else if CharLen(b) == 3 {
      Split2(b[0] - 0xE0, b[1] - 0x80, b[2] - 0x80);
      assert b[..3] == [b[0], b[1], b[2]];
    } else if CharLen(b) == 4 {
      Split3(b[0] - 0xF0, b[1] - 0x80, b[2] - 0x80, b[3] - 0x80);
      assert b[..4] == [b[0], b[1], b[2], b[3]];
    } else {
      assert b[..1] == [b[0]];
    }
  }

  ghost function Text(cs: seq<nat>): seq<Byte>
    requires forall i :: 0 <= i < |cs| ==> Scalar(cs[i])
  {
    if cs == [] then [] else Encoded(cs[0]) + Text(cs[1..])
  }

  /** Bytes are UTF-8 if and only if they are the forms of some scalar values, one after another. */
  lemma {:induction false} Utf8Iff(b: seq<Byte>)
    ensures Utf8(b) <==> exists cs: seq<nat> :: (forall i :: 0 <= i < |cs| ==> Scalar(cs[i])) && Text(cs) == b
    decreases |b|
  {
    hide Encoded, CharLen, Scalar;
    if Utf8(b) { var cs := Characters(b); }
    if cs: seq<nat> :| (forall i :: 0 <= i < |cs| ==> Scalar(cs[i])) && Text(cs) == b { TextIsUtf8(cs); }
  }

  lemma {:induction false} Characters(b: seq<Byte>) returns (cs: seq<nat>)
    requires Utf8(b)
    ensures (forall i :: 0 <= i < |cs| ==> Scalar(cs[i])) && Text(cs) == b
    decreases |b|
  {
    hide Encoded, CharLen, Scalar, Decoded;
    if b == [] {
      cs := [];
    } else {
      CharIsEncoded(b);
      var n := CharLen(b);
      var rest := Characters(b[n..]);
      cs := [Decoded(b)] + rest;
      assert cs[1..] == rest && b[..n] + b[n..] == b;
    }
  }

  lemma {:induction false} TextIsUtf8(cs: seq<nat>)
    requires forall i :: 0 <= i < |cs| ==> Scalar(cs[i])
    ensures Utf8(Text(cs))
  {
    hide Encoded, CharLen, Scalar;
    if cs != [] {
      EncodedIsChar(cs[0], Text(cs[1..]));
      TextIsUtf8(cs[1..]);
      var b := Text(cs);
      assert b[|Encoded(cs[0])|..] == Text(cs[1..]);
    }
  }
}
