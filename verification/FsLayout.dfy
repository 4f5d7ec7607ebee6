/** Bytes, bits and little-endian words of disk blocks (kernel/fs.h). */
module FsLayout {

  const BSIZE := 1024
  const NDIRECT := 12
  const NINDIRECT := 256        // BSIZE / sizeof(uint)
  const MAXFILE := 268          // NDIRECT + NINDIRECT
  const BPB := 8192             // bitmap bits per block
  const IPB := 16               // inodes per block

  type Byte = x: nat | x < 256
  type Block = b: seq<Byte> | |b| == BSIZE witness seq(BSIZE, _ => 0)

  function Zero(): Block { seq(BSIZE, _ => 0) }

  // ---------------------------------------------------------------- words

  function Word(b: Block, j: nat): nat
    requires j < NINDIRECT
  {
    var b0: nat, b1: nat, b2: nat, b3: nat := b[4 * j], b[4 * j + 1], b[4 * j + 2], b[4 * j + 3];
    b0 + 0x100 * b1 + 0x1_0000 * b2 + 0x100_0000 * b3
  }

  function SetWord(b: Block, j: nat, v: nat): Block
    requires j < NINDIRECT && v < 0x1_0000_0000
  {
    b[4 * j := v % 0x100][4 * j + 1 := v / 0x100 % 0x100][4 * j + 2 := v / 0x1_0000 % 0x100][4 * j + 3 := v / 0x100_0000]
  }

  lemma Digits(v: nat)
    requires v < 0x1_0000_0000
    ensures v % 0x100 + 0x100 * (v / 0x100 % 0x100) + 0x1_0000 * (v / 0x1_0000 % 0x100) + 0x100_0000 * (v / 0x100_0000) == v
  {}

  /** A stored word reads back, and the other words are unchanged. */
  lemma WordSet(b: Block, j: nat, v: nat, k: nat)
    requires j < NINDIRECT && k < NINDIRECT && v < 0x1_0000_0000
    ensures Word(SetWord(b, j, v), k) == if k == j then v else Word(b, k)
  {
    Digits(v);
  }

  // ---------------------------------------------------------------- bits

  /** x & (1 << n). */
  predicate NatBit(x: nat, n: nat) {
    if n == 0 then x % 2 == 1 else NatBit(x / 2, n - 1)
  }

  /** x with bit n on or off. */
  function SetNatBit(x: nat, n: nat, on: bool): nat {
    if n == 0 then x / 2 * 2 + (if on then 1 else 0) else SetNatBit(x / 2, n - 1, on) * 2 + x % 2
  }

  function Pow2(w: nat): nat { if w == 0 then 1 else 2 * Pow2(w - 1) }

  lemma {:induction false} NatBitSet(x: nat, n: nat, on: bool, m: nat)
    ensures NatBit(SetNatBit(x, n, on), m) == if m == n then on else NatBit(x, m)
  {
    var y := SetNatBit(x, n, on);
    if n == 0 {
      assert y / 2 == x / 2;
    } else {
      assert y / 2 == SetNatBit(x / 2, n - 1, on) && y % 2 == x % 2;
      if m > 0 {
        NatBitSet(x / 2, n - 1, on, m - 1);
      }
    }
  }

  lemma {:induction false} SetNatBitBound(x: nat, n: nat, on: bool, w: nat)
    requires x < Pow2(w) && n < w
    ensures SetNatBit(x, n, on) < Pow2(w)
  {
    if n > 0 {
      SetNatBitBound(x / 2, n - 1, on, w - 1);
    }
  }

  function SetByteBit(x: Byte, n: nat, on: bool): Byte
    requires n < 8
  {
    assert Pow2(8) == 256 by { assert Pow2(2) == 4; assert Pow2(4) == 16; assert Pow2(6) == 64; }
    SetNatBitBound(x, n, on, 8);
    SetNatBit(x, n, on)
  }

  /** bp->data[k/8] & (1 << (k % 8)). */
  predicate Bit(b: Block, k: nat)
    requires k < BPB
  {
    NatBit(b[k / 8], k % 8)
  }

  function SetBit(b: Block, k: nat, on: bool): Block
    requires k < BPB
  {
    b[k / 8 := SetByteBit(b[k / 8], k % 8, on)]
  }

  /** A bit that is set or cleared reads back, and the other bits are unchanged. */
  lemma BitSet(b: Block, k: nat, on: bool, j: nat)
    requires k < BPB && j < BPB
    ensures Bit(SetBit(b, k, on), j) == if j == k then on else Bit(b, j)
  {
    NatBitSet(b[k / 8], k % 8, on, j % 8);
  }

  // ---------------------------------------------------------------- inodes

  /** The fields of an inode; the first four are 16 bits wide. */
  datatype Inode = Inode(kind: nat, major: nat, minor: nat, nlink: nat, size: nat, addrs: seq<nat>)

  predicate Fits(n: Inode) {
    && n.kind < 0x1_0000 && n.major < 0x1_0000 && n.minor < 0x1_0000 && n.nlink < 0x1_0000 && n.size < 0x1_0000_0000
    && |n.addrs| == NDIRECT + 1 && forall j :: 0 <= j < |n.addrs| ==> n.addrs[j] < 0x1_0000_0000
  }

  const IWORDS := 16            // sizeof(struct dinode) / 4

  function InodeWords(n: Inode): (ws: seq<nat>)
    requires Fits(n)
    ensures |ws| == IWORDS && forall j :: 0 <= j < |ws| ==> ws[j] < 0x1_0000_0000
  {
    [n.kind + 0x1_0000 * n.major, n.minor + 0x1_0000 * n.nlink, n.size] + n.addrs
  }

  function SetWords(b: Block, j: nat, ws: seq<nat>): Block
    requires j + |ws| <= NINDIRECT && forall k :: 0 <= k < |ws| ==> ws[k] < 0x1_0000_0000
    decreases |ws|
  {
    if ws == [] then b else SetWords(SetWord(b, j, ws[0]), j + 1, ws[1..])
  }

  lemma {:induction false} WordsSet(b: Block, j: nat, ws: seq<nat>, k: nat)
    requires j + |ws| <= NINDIRECT && (forall k :: 0 <= k < |ws| ==> ws[k] < 0x1_0000_0000) && k < NINDIRECT
    ensures Word(SetWords(b, j, ws), k) == if j <= k < j + |ws| then ws[k - j] else Word(b, k)
    decreases |ws|
  {
    if ws != [] {
      WordsSet(SetWord(b, j, ws[0]), j + 1, ws[1..], k);
      WordSet(b, j, ws[0], k);
    }
  }

  /** The inode in one of the 16 slots of an inode block. */
  function GetInode(b: Block, slot: nat): Inode
    requires slot < IPB
  {
    var w := IWORDS * slot;
    Inode(Word(b, w) % 0x1_0000, Word(b, w) / 0x1_0000, Word(b, w + 1) % 0x1_0000, Word(b, w + 1) / 0x1_0000, Word(b, w + 2),
          seq<nat>(NDIRECT + 1, j requires 0 <= j < NDIRECT + 1 => Word(b, w + 3 + j)))
  }

  function PutInode(b: Block, slot: nat, n: Inode): Block
    requires slot < IPB && Fits(n)
  {
    SetWords(b, IWORDS * slot, InodeWords(n))
  }

  /** A stored inode reads back, and the other 15 of its block are unchanged. */
  lemma InodePut(b: Block, slot: nat, n: Inode, j: nat)
    requires slot < IPB && j < IPB && Fits(n)
    ensures GetInode(PutInode(b, slot, n), j) == if j == slot then n else GetInode(b, j)
  {
    hide Word, SetWords;
    var c, w := PutInode(b, slot, n), IWORDS * j;
    forall k | w <= k < w + IWORDS ensures Word(c, k) == if j == slot then InodeWords(n)[k - w] else Word(b, k) {
      WordsSet(b, IWORDS * slot, InodeWords(n), k);
    }
    var m := GetInode(c, j);
    if j == slot {
      assert m.addrs == n.addrs;
    } else {
      assert m.addrs == GetInode(b, j).addrs;
    }
  }
}
