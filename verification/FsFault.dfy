/** A write that returns less than it stores: the source of 3000 bytes is readable for 2000 of them only. */
module FsFault {
  import opened FsLayout
  import opened FsState
  import opened FsCode

  /** The bitmap block of a disk whose blocks 0, 1 and 2 are in use. */
  function Map(): Block { SetBit(SetBit(SetBit(Zero(), 0, true), 1, true), 2, true) }

  lemma {:induction false} NoBit(n: nat)
    ensures !NatBit(0, n)
  {
    if n > 0 {
      NoBit(n - 1);
    }
  }

  lemma MapBits(b: nat)
    requires b < BPB
    ensures Bit(Map(), b) <==> b < 3
  {
    var m0 := SetBit(Zero(), 0, true);
    var m1 := SetBit(m0, 1, true);
    NoBit(b % 8);
    BitSet(Zero(), 0, true, b);
    BitSet(m0, 1, true, b);
    BitSet(m1, 2, true, b);
  }

  /** A boot block, an inode block, a bitmap block and seven free blocks, with one empty file. */
  function Disk(): seq<Block> { [Zero(), Zero(), Map(), Zero(), Zero(), Zero(), Zero(), Zero(), Zero(), Zero()] }

  function Inodes(): seq<Inode> { [Inode(2, 0, 0, 1, 0, NoBlocks())] }

  function Roles(): seq<Role> { [Fixed, Fixed, Fixed, Free, Free, Free, Free, Free, Free, Free] }

  function Start(): Fs { Fs(Disk(), Inodes(), Roles(), 2, 1) }

  lemma StartOk()
    ensures Ok(Start()) && NoneHeld(Roles())
  {
    hide Map;
    var s := Start();
    forall b | 0 <= b < |s.disk| ensures MapFixed(s, b) {}
    forall b: nat ensures BitOk(s, b) && RoleOk(s, b) {
      if b < |s.disk| {
        MapBits(b);
      }
    }
    forall i: nat, bn: nat ensures AddrOk(s, i, bn) {}
  }

  /** A write of up to 2000 bytes to it uses two data blocks and no more than one other. */
  lemma InUseBy(t: Fs, d: seq<Byte>, b: nat)
    requires Ok(t) && NoneHeld(t.role) && |d| <= 2000 && Stored(Start(), t, 0, 0, d) && NoneFree(t.role) && 3 <= b < 10
    ensures b == Addr(t.disk, t.inodes[0], 0) || b == Addr(t.disk, t.inodes[0], 1) || b == t.inodes[0].addrs[NDIRECT]
  {
    assert RoleOk(t, b) && Roles()[b] == Free && t.role[b] != Held && t.role[b] != Free && t.role[b] != Fixed;
    if t.role[b].Data? {
      assert Has(t, 0, t.role[b].bn) && !Has(Start(), 0, t.role[b].bn);
    }
  }

  lemma BlocksLeft(t: Fs, d: seq<Byte>)
    requires Ok(t) && NoneHeld(t.role) && |d| <= 2000 && Stored(Start(), t, 0, 0, d)
    ensures !NoneFree(t.role)
  {
    hide OkBut, Stored, NoneHeld, NoneFree, Start;
    if NoneFree(t.role) {
      InUseBy(t, d, 3);
      InUseBy(t, d, 4);
      InUseBy(t, d, 5);
      InUseBy(t, d, 6);
    }
  }

  /** writei stores 2000 bytes and returns 1024. */
  method FaultedWrite() returns (r: int, ghost done: nat)
    ensures r == 1024 && done == 2000
  {
    hide OkBut, Stored, NoneHeld, NoneFree, Disk;
    StartOk();
    var fs := new FileSystem(Disk(), Inodes(), Roles(), 2, 1);
    var src := seq<Byte>(2000, _ => 7);
    r, done := fs.Writei(0, src, 3000, 0);
    BlocksLeft(fs.Model(), src[..done]);
  }

  /** filewrite stores 2000 bytes, moves the offset by 1024 and returns -1. */
  method FaultedFilewrite() returns (ret: int, off: nat, ghost done: nat)
    ensures ret == -1 && off == 1024 && done == 2000
  {
    hide OkBut, Stored, NoneHeld, NoneFree, Disk;
    StartOk();
    var fs := new FileSystem(Disk(), Inodes(), Roles(), 2, 1);
    var src := seq<Byte>(2000, _ => 7);
    ghost var k, most, trace;
    ret, off, k, done, most, trace := fs.Filewrite(0, src, 3000, 0);
    BlocksLeft(fs.Model(), src[..done]);
  }
}
