/**
  Blocks and files of kernel/fs.c: the free bitmap, the block lists of inodes, and who owns each block.
  `disk` is the contents file system code sees through the log and the buffer cache, `inodes` the copies of
  the inodes in memory.
 */
module FsState {
  import opened FsLayout

  /** What a block is used for: Held is allocated but not yet in any inode. */
  datatype Role = Fixed | Free | Held | Data(inum: nat, bn: nat) | Ind(inum: nat)

  datatype Fs = Fs(disk: seq<Block>, inodes: seq<Inode>, role: seq<Role>, bmapstart: nat, inodestart: nat)

  function BBlock(bmapstart: nat, b: nat): nat { b / BPB + bmapstart }

  function IBlock(inodestart: nat, i: nat): nat { i / IPB + inodestart }

  ghost predicate MapFixed(s: Fs, b: nat) {
    BBlock(s.bmapstart, b) < |s.role| && s.role[BBlock(s.bmapstart, b)] == Fixed
  }

  /** The block of an inode lies before the bitmap, and its short fields are short. */
  ghost predicate InoFixed(s: Fs, i: nat) {
    && IBlock(s.inodestart, i) < s.bmapstart && IBlock(s.inodestart, i) < |s.role| && s.role[IBlock(s.inodestart, i)] == Fixed
    && i < |s.inodes| && s.inodes[i].kind < 0x1_0000 && s.inodes[i].major < 0x1_0000 && s.inodes[i].minor < 0x1_0000 && s.inodes[i].nlink < 0x1_0000
  }

  predicate SameHead(n: Inode, m: Inode) {
    n.kind == m.kind && n.major == m.major && n.minor == m.minor && n.nlink == m.nlink
  }

  ghost predicate Shape(s: Fs) {
    && 0 < |s.disk| == |s.role| <= 0x1_0000_0000 && s.role[0] == Fixed
    && (forall b :: 0 <= b < |s.disk| ==> MapFixed(s, b))
    && (forall i :: 0 <= i < |s.inodes| ==> |s.inodes[i].addrs| == NDIRECT + 1)
    && (forall i :: 0 <= i < |s.inodes| ==> InoFixed(s, i))
  }

  ghost predicate InUse(s: Fs, b: nat)
    requires Shape(s) && b < |s.disk|
  {
    assert MapFixed(s, b);
    Bit(s.disk[BBlock(s.bmapstart, b)], b % BPB)
  }

  /** The block number of block bn of inode i, 0 if there is none. */
  function Addr(disk: seq<Block>, inode: Inode, bn: nat): nat
    requires |inode.addrs| == NDIRECT + 1 && bn < MAXFILE
  {
    if bn < NDIRECT then inode.addrs[bn]
    else
      var a := inode.addrs[NDIRECT];
      if a == 0 || a >= |disk| then 0 else Word(disk[a], bn - NDIRECT)
  }

  // ---------------------------------------------------------------- the invariant

  /** The bitmap says which blocks are free. */
  ghost predicate BitOk(s: Fs, b: nat)
    requires Shape(s)
  {
    b < |s.disk| ==> (InUse(s, b) <==> s.role[b] != Free)
  }

  /** A block in an inode's list has that place as its only use, */
  ghost predicate AddrOk(s: Fs, i: nat, bn: nat)
    requires Shape(s)
  {
    i < |s.inodes| && bn < MAXFILE ==>
      var a := Addr(s.disk, s.inodes[i], bn);
      a != 0 ==> a < |s.disk| && s.role[a] == Data(i, bn)
  }

  ghost predicate IndOk(s: Fs, i: nat)
    requires Shape(s)
  {
    i < |s.inodes| ==>
      var a := s.inodes[i].addrs[NDIRECT];
      a != 0 ==> a < |s.disk| && s.role[a] == Ind(i)
  }

  /** and a block with such a use is in that place: no block is lost. */
  ghost predicate RoleOk(s: Fs, b: nat)
    requires Shape(s)
  {
    b < |s.disk| ==>
      match s.role[b]
      case Data(i, bn) => i < |s.inodes| && bn < MAXFILE && Addr(s.disk, s.inodes[i], bn) == b
      case Ind(i) => i < |s.inodes| && s.inodes[i].addrs[NDIRECT] == b
      case _ => true
  }

  /** Every block below the size is there. */
  ghost predicate FileOk(s: Fs, i: nat)
    requires Shape(s)
  {
    i < |s.inodes| ==>
      && s.inodes[i].size <= MAXFILE * BSIZE
      && forall bn :: 0 <= bn < MAXFILE && bn * BSIZE < s.inodes[i].size ==> Addr(s.disk, s.inodes[i], bn) != 0
  }

  /**
    The invariant, but for inode x (-1 for none) while it is being truncated: its size, and n entries of its
    indirect block whose blocks have been freed.
   */
  ghost predicate OkBut(s: Fs, x: int, n: nat) {
    && Shape(s)
    && (forall b: nat :: BitOk(s, b))
    && (forall b: nat :: RoleOk(s, b))
    && (forall i: nat, bn: nat :: i != x || bn < NDIRECT || bn >= NDIRECT + n ==> AddrOk(s, i, bn))
    && (forall i: nat :: IndOk(s, i))
    && (forall i: nat :: i != x ==> FileOk(s, i))
  }

  ghost predicate Ok(s: Fs) { OkBut(s, -1, 0) }

  // ---------------------------------------------------------------- contents

  /** Byte k of a file, 0 where it has no block. */
  function ByteAt(disk: seq<Block>, inode: Inode, k: nat): Byte
    requires |inode.addrs| == NDIRECT + 1 && k < MAXFILE * BSIZE
  {
    var a := Addr(disk, inode, k / BSIZE);
    if a == 0 || a >= |disk| then 0 else disk[a][k % BSIZE]
  }

  function Contents(s: Fs, i: nat): seq<Byte>
    requires i < |s.inodes| && |s.inodes[i].addrs| == NDIRECT + 1 && s.inodes[i].size <= MAXFILE * BSIZE
  {
    seq(s.inodes[i].size, k requires 0 <= k < s.inodes[i].size => ByteAt(s.disk, s.inodes[i], k))
  }

  /** Inode j has the same block list in s and in t. */
  ghost predicate SameList(s: Fs, t: Fs, j: nat)
    requires Shape(s) && Shape(t)
  {
    j < |s.inodes| && j < |t.inodes| ==>
      forall bn :: 0 <= bn < MAXFILE ==> Addr(t.disk, t.inodes[j], bn) == Addr(s.disk, s.inodes[j], bn)
  }

  /** An inode is untouched if its record is and its indirect block is. */
  lemma ListFrame(s: Fs, t: Fs, j: nat)
    requires Shape(s) && Shape(t) && |t.disk| == |s.disk| && j < |s.inodes| && j < |t.inodes| && s.inodes[j].addrs == t.inodes[j].addrs
    requires var a := s.inodes[j].addrs[NDIRECT]; a != 0 && a < |s.disk| ==> t.disk[a] == s.disk[a]
    ensures SameList(s, t, j)
  {}

  // ---------------------------------------------------------------- taking a block from the bitmap

  function TakeBlock(s: Fs, b: nat): Fs
    requires b < |s.disk| && b < |s.role| && BBlock(s.bmapstart, b) < |s.disk|
  {
    var m := BBlock(s.bmapstart, b);
    s.(disk := s.disk[m := SetBit(s.disk[m], b % BPB, true)][b := Zero()], role := s.role[b := Held])
  }

  function FreeBlock(s: Fs, b: nat): Fs
    requires b < |s.disk| && b < |s.role| && BBlock(s.bmapstart, b) < |s.disk|
  {
    var m := BBlock(s.bmapstart, b);
    s.(disk := s.disk[m := SetBit(s.disk[m], b % BPB, false)], role := s.role[b := Free])
  }

  lemma MapBlock(s: Fs, b: nat)
    requires Shape(s) && b < |s.disk|
    ensures BBlock(s.bmapstart, b) < |s.disk| && s.role[BBlock(s.bmapstart, b)] == Fixed
  {
    assert MapFixed(s, b);
  }

  /** Changing the role of a block that is not fixed keeps the shape. */
  lemma ShapeKept(s: Fs, t: Fs, b: nat, r: Role)
    requires Shape(s) && b < |s.disk| && s.role[b] != Fixed && t.role == s.role[b := r]
    requires |t.disk| == |s.disk| && t.bmapstart == s.bmapstart && t.inodestart == s.inodestart && |t.inodes| == |s.inodes|
    requires forall i :: 0 <= i < |t.inodes| ==> |t.inodes[i].addrs| == NDIRECT + 1 && SameHead(t.inodes[i], s.inodes[i])
    ensures Shape(t)
  {
    forall c | 0 <= c < |t.disk| ensures MapFixed(t, c) {
      assert MapFixed(s, c);
    }
    forall i | 0 <= i < |t.inodes| ensures InoFixed(t, i) {
      assert InoFixed(s, i);
    }
  }

  lemma ShapeSame(s: Fs, t: Fs)
    requires Shape(s) && t.role == s.role && |t.disk| == |s.disk| && t.bmapstart == s.bmapstart && t.inodestart == s.inodestart && |t.inodes| == |s.inodes|
    requires forall i :: 0 <= i < |t.inodes| ==> |t.inodes[i].addrs| == NDIRECT + 1 && SameHead(t.inodes[i], s.inodes[i])
    ensures Shape(t)
  {
    forall c | 0 <= c < |t.disk| ensures MapFixed(t, c) {
      assert MapFixed(s, c);
    }
    forall i | 0 <= i < |t.inodes| ensures InoFixed(t, i) {
      assert InoFixed(s, i);
    }
  }

  lemma BitAfter(s: Fs, t: Fs, b: nat, on: bool, c: nat)
    requires Shape(s) && Shape(t) && b < |s.disk| && c < |s.disk| && |t.disk| == |s.disk| && t.bmapstart == s.bmapstart
    requires BBlock(s.bmapstart, b) < |s.disk| && t.disk[BBlock(s.bmapstart, b)] == SetBit(s.disk[BBlock(s.bmapstart, b)], b % BPB, on)
    requires BBlock(s.bmapstart, c) < |s.disk| && (BBlock(s.bmapstart, c) != BBlock(s.bmapstart, b) ==> t.disk[BBlock(s.bmapstart, c)] == s.disk[BBlock(s.bmapstart, c)])
    ensures InUse(t, c) == if c == b then on else InUse(s, c)
  {
    BitSet(s.disk[BBlock(s.bmapstart, b)], b % BPB, on, c % BPB);
  }

  lemma TakeOk(s: Fs, b: nat, x: int, n: nat)
    requires OkBut(s, x, n) && b < |s.disk| && s.role[b] == Free && BBlock(s.bmapstart, b) < |s.disk|
    ensures OkBut(TakeBlock(s, b), x, n) && forall j: nat :: SameList(s, TakeBlock(s, b), j)
  {
    var t := TakeBlock(s, b);
    MapBlock(s, b);
    ShapeKept(s, t, b, Held);
    forall j: nat ensures SameList(s, t, j) {
      if j < |s.inodes| {
        assert IndOk(s, j);
        ListFrame(s, t, j);
      }
    }
    forall c: nat ensures BitOk(t, c) {
      if c < |s.disk| {
        MapBlock(s, c);
        assert BitOk(s, c);
        BitAfter(s, t, b, true, c);
      }
    }
    RestKept(s, t, b, x, n);
  }

  /** The other clauses hold again when only a block in no list changed its role, to one that is in none. */
  lemma RestKept(s: Fs, t: Fs, b: nat, x: int, n: nat)
    requires OkBut(s, x, n) && Shape(t) && |t.disk| == |s.disk| && t.inodes == s.inodes && b < |s.disk|
    requires t.role == s.role[b := t.role[b]] && !s.role[b].Data? && !s.role[b].Ind? && !t.role[b].Data? && !t.role[b].Ind?
    requires forall j: nat :: SameList(s, t, j)
    requires forall c: nat :: BitOk(t, c)
    ensures OkBut(t, x, n)
  {
    forall c: nat ensures RoleOk(t, c) {
      assert RoleOk(s, c);
      if c < |s.disk| && s.role[c].Data? {
        assert SameList(s, t, s.role[c].inum);
      }
    }
    forall i: nat, bn: nat | i != x || bn < NDIRECT || bn >= NDIRECT + n ensures AddrOk(t, i, bn) {
      assert AddrOk(s, i, bn) && SameList(s, t, i);
    }
    forall i: nat ensures IndOk(t, i) {
      assert IndOk(s, i);
    }
    forall i: nat | i != x ensures FileOk(t, i) {
      assert FileOk(s, i) && SameList(s, t, i);
    }
  }

  /** File j reads the same in s and in t. */
  ghost predicate SameBytes(s: Fs, t: Fs, j: nat)
    requires Shape(s) && Shape(t)
  {
    j < |s.inodes| && j < |t.inodes| ==>
      && t.inodes[j].size == s.inodes[j].size
      && forall k :: 0 <= k < MAXFILE * BSIZE ==> ByteAt(t.disk, t.inodes[j], k) == ByteAt(s.disk, s.inodes[j], k)
  }

  lemma BytesKept(s: Fs, t: Fs, j: nat)
    requires Shape(s) && Shape(t) && |t.disk| == |s.disk| && j < |s.inodes| && j < |t.inodes| && t.inodes[j].size == s.inodes[j].size
    requires SameList(s, t, j)
    requires forall bn :: 0 <= bn < MAXFILE && 0 < Addr(s.disk, s.inodes[j], bn) < |s.disk| ==>
               t.disk[Addr(s.disk, s.inodes[j], bn)] == s.disk[Addr(s.disk, s.inodes[j], bn)]
    ensures SameBytes(s, t, j)
  {}

  lemma TakeBytes(s: Fs, b: nat, j: nat)
    requires Ok(s) && b < |s.disk| && s.role[b] == Free && BBlock(s.bmapstart, b) < |s.disk| && Shape(TakeBlock(s, b))
    ensures SameBytes(s, TakeBlock(s, b), j)
  {
    var t := TakeBlock(s, b);
    TakeOk(s, b, -1, 0);
    MapBlock(s, b);
    if j < |s.inodes| {
      assert SameList(s, t, j);
      forall bn | 0 <= bn < MAXFILE && 0 < Addr(s.disk, s.inodes[j], bn) < |s.disk|
        ensures t.disk[Addr(s.disk, s.inodes[j], bn)] == s.disk[Addr(s.disk, s.inodes[j], bn)]
      {
        assert AddrOk(s, j, bn);
      }
      BytesKept(s, t, j);
    }
  }

  // ---------------------------------------------------------------- putting a block into an inode

  function LinkDirect(s: Fs, i: nat, bn: nat, b: nat): Fs
    requires i < |s.inodes| && |s.inodes[i].addrs| == NDIRECT + 1 && bn < NDIRECT && b < |s.role|
  {
    s.(inodes := s.inodes[i := s.inodes[i].(addrs := s.inodes[i].addrs[bn := b])], role := s.role[b := Data(i, bn)])
  }

  function LinkInd(s: Fs, i: nat, b: nat): Fs
    requires i < |s.inodes| && |s.inodes[i].addrs| == NDIRECT + 1 && b < |s.role|
  {
    s.(inodes := s.inodes[i := s.inodes[i].(addrs := s.inodes[i].addrs[NDIRECT := b])], role := s.role[b := Ind(i)])
  }

  function LinkFar(s: Fs, i: nat, bn: nat, b: nat): Fs
    requires i < |s.inodes| && |s.inodes[i].addrs| == NDIRECT + 1 && NDIRECT <= bn < MAXFILE && b < |s.role| <= 0x1_0000_0000
    requires s.inodes[i].addrs[NDIRECT] < |s.disk|
  {
    var a := s.inodes[i].addrs[NDIRECT];
    s.(disk := s.disk[a := SetWord(s.disk[a], bn - NDIRECT, b)], role := s.role[b := Data(i, bn)])
  }

  /** t has block b, which was held, as block bn of inode i, and is otherwise s. */
  ghost predicate Linked(s: Fs, t: Fs, i: nat, bn: nat, b: nat) {
    && Shape(s) && Shape(t) && |t.disk| == |s.disk| && t.bmapstart == s.bmapstart && |t.inodes| == |s.inodes|
    && i < |s.inodes| && bn < MAXFILE && 0 < b < |s.disk| && s.role[b] == Held && t.role == s.role[b := Data(i, bn)]
    && (forall c: nat :: c < |s.disk| ==> InUse(t, c) == InUse(s, c))
    && (forall j: nat :: j < |s.inodes| ==> t.inodes[j].size == s.inodes[j].size && t.inodes[j].addrs[NDIRECT] == s.inodes[j].addrs[NDIRECT])
    && Addr(s.disk, s.inodes[i], bn) == 0
    && forall j: nat, m: nat :: j < |s.inodes| && m < MAXFILE ==> EntryAfter(s, t, i, bn, b, j, m)
  }

  ghost predicate EntryAfter(s: Fs, t: Fs, i: nat, bn: nat, b: nat, j: nat, m: nat)
    requires Shape(s) && Shape(t) && j < |s.inodes| && j < |t.inodes| && m < MAXFILE
  {
    Addr(t.disk, t.inodes[j], m) == if j == i && m == bn then b else Addr(s.disk, s.inodes[j], m)
  }

  lemma LinkOk(s: Fs, t: Fs, i: nat, bn: nat, b: nat)
    requires Ok(s) && Linked(s, t, i, bn, b)
    ensures Ok(t)
  {
    forall c: nat ensures BitOk(t, c) {
      assert BitOk(s, c);
    }
    forall c: nat ensures RoleOk(t, c) {
      assert RoleOk(s, c);
      if c < |s.disk| && s.role[c].Data? {
        assert EntryAfter(s, t, i, bn, b, s.role[c].inum, s.role[c].bn);
      }
      assert EntryAfter(s, t, i, bn, b, i, bn);
    }
    forall j: nat, m: nat ensures AddrOk(t, j, m) {
      assert AddrOk(s, j, m);
      if j < |s.inodes| && m < MAXFILE {
        assert EntryAfter(s, t, i, bn, b, j, m);
      }
    }
    forall j: nat ensures IndOk(t, j) {
      assert IndOk(s, j);
    }
    forall j: nat ensures FileOk(t, j) {
      assert FileOk(s, j);
      if j < |s.inodes| {
        forall m | 0 <= m < MAXFILE && m * BSIZE < t.inodes[j].size ensures Addr(t.disk, t.inodes[j], m) != 0 {
          assert EntryAfter(s, t, i, bn, b, j, m);
        }
      }
    }
  }

  /** A zeroed block in place of none changes no byte of any file. */
  lemma LinkBytes(s: Fs, t: Fs, i: nat, bn: nat, b: nat, j: nat)
    requires Ok(s) && Linked(s, t, i, bn, b) && t.disk[b] == Zero()
    requires forall c :: 0 <= c < |s.disk| && s.role[c].Data? ==> t.disk[c] == s.disk[c]
    ensures SameBytes(s, t, j)
  {
    if j < |s.inodes| {
      forall k | 0 <= k < MAXFILE * BSIZE ensures ByteAt(t.disk, t.inodes[j], k) == ByteAt(s.disk, s.inodes[j], k) {
        assert k / BSIZE < MAXFILE;
        assert EntryAfter(s, t, i, bn, b, j, k / BSIZE) && AddrOk(s, j, k / BSIZE);
      }
    }
  }

  lemma LinkDirectIs(s: Fs, i: nat, bn: nat, b: nat)
    requires Ok(s) && i < |s.inodes| && bn < NDIRECT && 0 < b < |s.disk| && s.role[b] == Held && s.inodes[i].addrs[bn] == 0
    ensures Linked(s, LinkDirect(s, i, bn, b), i, bn, b)
  {
    var t := LinkDirect(s, i, bn, b);
    ShapeKept(s, t, b, Data(i, bn));
    forall j: nat, m: nat | j < |s.inodes| && m < MAXFILE ensures EntryAfter(s, t, i, bn, b, j, m) {}
  }

  lemma LinkFarIs(s: Fs, i: nat, bn: nat, b: nat)
    requires Ok(s) && i < |s.inodes| && NDIRECT <= bn < MAXFILE && 0 < b < |s.disk| && s.role[b] == Held
    requires 0 < s.inodes[i].addrs[NDIRECT] < |s.disk| && Addr(s.disk, s.inodes[i], bn) == 0
    ensures Linked(s, LinkFar(s, i, bn, b), i, bn, b)
    ensures forall c :: 0 <= c < |s.disk| && s.role[c].Data? ==> LinkFar(s, i, bn, b).disk[c] == s.disk[c]
    ensures LinkFar(s, i, bn, b).disk[b] == s.disk[b]
  {
    var t, a := LinkFar(s, i, bn, b), s.inodes[i].addrs[NDIRECT];
    assert IndOk(s, i);
    ShapeKept(s, t, b, Data(i, bn));
    forall j: nat, m: nat | j < |s.inodes| && m < MAXFILE ensures EntryAfter(s, t, i, bn, b, j, m) {
      assert IndOk(s, j);
      if j == i && m >= NDIRECT {
        WordSet(s.disk[a], bn - NDIRECT, b, m - NDIRECT);
      }
    }
    forall c: nat | c < |s.disk| ensures InUse(t, c) == InUse(s, c) {
      MapBlock(s, c);
    }
  }

  /** A new indirect block lists no blocks. */
  lemma LinkIndOk(s: Fs, i: nat, b: nat)
    requires Ok(s) && i < |s.inodes| && 0 < b < |s.disk| && s.role[b] == Held && s.inodes[i].addrs[NDIRECT] == 0 && s.disk[b] == Zero()
    ensures Ok(LinkInd(s, i, b)) && forall j: nat :: SameList(s, LinkInd(s, i, b), j) && SameBytes(s, LinkInd(s, i, b), j)
  {
    var t := LinkInd(s, i, b);
    ShapeKept(s, t, b, Ind(i));
    forall j: nat ensures SameList(s, t, j) && SameBytes(s, t, j) {
      if j < |s.inodes| {
        assert forall m :: 0 <= m < NINDIRECT ==> Word(Zero(), m) == 0;
        BytesKept(s, t, j);
      }
    }
    forall c: nat ensures BitOk(t, c) && RoleOk(t, c) {
      assert BitOk(s, c) && RoleOk(s, c);
      if c < |s.disk| && s.role[c].Data? {
        assert SameList(s, t, s.role[c].inum);
      }
    }
    forall j: nat, m: nat ensures AddrOk(t, j, m) {
      assert AddrOk(s, j, m) && SameList(s, t, j);
    }
    forall j: nat ensures IndOk(t, j) && FileOk(t, j) {
      assert IndOk(s, j) && FileOk(s, j) && SameList(s, t, j);
    }
  }

  // ---------------------------------------------------------------- writing into a block

  function Splice(b: Block, lo: nat, src: seq<Byte>): Block
    requires lo + |src| <= BSIZE
  {
    b[..lo] + src + b[lo + |src|..]
  }

  function Poke(s: Fs, a: nat, lo: nat, src: seq<Byte>): Fs
    requires a < |s.disk| && lo + |src| <= BSIZE
  {
    s.(disk := s.disk[a := Splice(s.disk[a], lo, src)])
  }

  /** Changing a data block changes the bytes of its place in its file and nothing else. */
  lemma PokeOk(s: Fs, i: nat, bn: nat, a: nat, lo: nat, src: seq<Byte>)
    requires Ok(s) && 0 < a < |s.disk| && s.role[a] == Data(i, bn) && lo + |src| <= BSIZE
    ensures Ok(Poke(s, a, lo, src)) && i < |s.inodes| && bn < MAXFILE
    ensures forall j: nat :: SameList(s, Poke(s, a, lo, src), j)
    ensures forall j: nat :: j != i ==> SameBytes(s, Poke(s, a, lo, src), j)
    ensures forall k :: 0 <= k < MAXFILE * BSIZE ==>
              ByteAt(Poke(s, a, lo, src).disk, s.inodes[i], k) ==
              if k / BSIZE == bn && lo <= k % BSIZE < lo + |src| then src[k % BSIZE - lo] else ByteAt(s.disk, s.inodes[i], k)
  {
    var t := Poke(s, a, lo, src);
    assert RoleOk(s, a);
    ShapeSame(s, t);
    forall j: nat ensures SameList(s, t, j) {
      assert IndOk(s, j);
      if j < |s.inodes| {
        ListFrame(s, t, j);
      }
    }
    forall c: nat ensures BitOk(t, c) && RoleOk(t, c) {
      assert BitOk(s, c) && RoleOk(s, c);
      if c < |s.disk| {
        MapBlock(s, c);
        if s.role[c].Data? {
          assert SameList(s, t, s.role[c].inum);
        }
      }
    }
    forall j: nat, m: nat ensures AddrOk(t, j, m) {
      assert AddrOk(s, j, m) && SameList(s, t, j);
    }
    forall j: nat ensures IndOk(t, j) && FileOk(t, j) {
      assert IndOk(s, j) && FileOk(s, j) && SameList(s, t, j);
    }
    PokeBytes(s, i, bn, a, lo, src);
  }

  lemma PokeBytes(s: Fs, i: nat, bn: nat, a: nat, lo: nat, src: seq<Byte>)
    requires Ok(s) && 0 < a < |s.disk| && s.role[a] == Data(i, bn) && lo + |src| <= BSIZE && i < |s.inodes| && bn < MAXFILE
    requires Shape(Poke(s, a, lo, src)) && forall j: nat :: SameList(s, Poke(s, a, lo, src), j)
    ensures forall j: nat :: j != i ==> SameBytes(s, Poke(s, a, lo, src), j)
    ensures forall k :: 0 <= k < MAXFILE * BSIZE ==>
              ByteAt(Poke(s, a, lo, src).disk, s.inodes[i], k) ==
              if k / BSIZE == bn && lo <= k % BSIZE < lo + |src| then src[k % BSIZE - lo] else ByteAt(s.disk, s.inodes[i], k)
  {
    var t := Poke(s, a, lo, src);
    assert RoleOk(s, a);
    forall j: nat | j != i ensures SameBytes(s, t, j) {
      if j < |s.inodes| {
        assert SameList(s, t, j);
        forall m | 0 <= m < MAXFILE && 0 < Addr(s.disk, s.inodes[j], m) < |s.disk|
          ensures t.disk[Addr(s.disk, s.inodes[j], m)] == s.disk[Addr(s.disk, s.inodes[j], m)]
        {
          assert AddrOk(s, j, m);
        }
        BytesKept(s, t, j);
      }
    }
    forall k | 0 <= k < MAXFILE * BSIZE
      ensures ByteAt(t.disk, s.inodes[i], k) ==
              if k / BSIZE == bn && lo <= k % BSIZE < lo + |src| then src[k % BSIZE - lo] else ByteAt(s.disk, s.inodes[i], k)
    {
      assert k / BSIZE < MAXFILE;
      assert AddrOk(s, i, k / BSIZE) && SameList(s, t, i);
    }
  }

  /** A larger size, when the blocks up to it are there. */
  function Resize(s: Fs, i: nat, size: nat): Fs
    requires i < |s.inodes|
  {
    s.(inodes := s.inodes[i := s.inodes[i].(size := size)])
  }

  lemma ResizeOk(s: Fs, i: nat, size: nat)
    requires OkBut(s, i, 0) && i < |s.inodes| && size <= MAXFILE * BSIZE
    requires forall bn :: 0 <= bn < MAXFILE && bn * BSIZE < size ==> Addr(s.disk, s.inodes[i], bn) != 0
    ensures Ok(Resize(s, i, size))
  {
    var t := Resize(s, i, size);
    ShapeSame(s, t);
    forall c: nat ensures BitOk(t, c) && RoleOk(t, c) {
      assert BitOk(s, c) && RoleOk(s, c);
    }
    forall j: nat, m: nat ensures AddrOk(t, j, m) {
      assert AddrOk(s, j, m);
    }
    forall j: nat ensures IndOk(t, j) {
      assert IndOk(s, j);
    }
    assert forall bn :: 0 <= bn < MAXFILE ==> Addr(t.disk, t.inodes[i], bn) == Addr(s.disk, s.inodes[i], bn);
    forall j: nat ensures FileOk(t, j) {
      if j != i {
        assert FileOk(s, j);
      }
    }
  }

  // ---------------------------------------------------------------- inodes on disk

  /** The inode that its block on disk holds. */
  function OnDisk(s: Fs, i: nat): Inode
    requires IBlock(s.inodestart, i) < |s.disk|
  {
    GetInode(s.disk[IBlock(s.inodestart, i)], i % IPB)
  }

  ghost predicate Saved(s: Fs, i: nat)
    requires Shape(s) && i < |s.inodes|
  {
    assert InoFixed(s, i);
    OnDisk(s, i) == s.inodes[i]
  }

  ghost predicate AllSaved(s: Fs)
    requires Shape(s)
  {
    forall i: nat :: i < |s.inodes| ==> Saved(s, i)
  }

  lemma InodeFits(s: Fs, i: nat)
    requires Ok(s) && i < |s.inodes|
    ensures IBlock(s.inodestart, i) < |s.disk| && Fits(s.inodes[i])
  {
    assert InoFixed(s, i) && IndOk(s, i) && FileOk(s, i);
    forall bn | 0 <= bn < NDIRECT ensures s.inodes[i].addrs[bn] < 0x1_0000_0000 {
      assert AddrOk(s, i, bn) && Addr(s.disk, s.inodes[i], bn) == s.inodes[i].addrs[bn];
    }
  }

  function SaveInode(s: Fs, i: nat): Fs
    requires i < |s.inodes| && IBlock(s.inodestart, i) < |s.disk| && Fits(s.inodes[i])
  {
    var b := IBlock(s.inodestart, i);
    s.(disk := s.disk[b := PutInode(s.disk[b], i % IPB, s.inodes[i])])
  }

  /** Saving an inode changes no block list and no byte of any file. */
  lemma SaveOk(s: Fs, i: nat)
    requires Ok(s) && i < |s.inodes| && IBlock(s.inodestart, i) < |s.disk| && Fits(s.inodes[i])
    ensures Ok(SaveInode(s, i)) && forall j: nat :: SameList(s, SaveInode(s, i), j) && SameBytes(s, SaveInode(s, i), j)
  {
    var t := SaveInode(s, i);
    ShapeSame(s, t);
    assert InoFixed(s, i);
    forall j: nat ensures SameList(s, t, j) && SameBytes(s, t, j) {
      assert IndOk(s, j);
      if j < |s.inodes| {
        ListFrame(s, t, j);
        forall m | 0 <= m < MAXFILE && 0 < Addr(s.disk, s.inodes[j], m) < |s.disk|
          ensures t.disk[Addr(s.disk, s.inodes[j], m)] == s.disk[Addr(s.disk, s.inodes[j], m)]
        {
          assert AddrOk(s, j, m);
        }
        BytesKept(s, t, j);
      }
    }
    forall c: nat ensures BitOk(t, c) {
      assert BitOk(s, c);
      if c < |s.disk| {
        MapBlock(s, c);
      }
    }
    RestKept(s, t, 0, -1, 0);
  }

  /** A saved inode reads back from its block, and what the disk holds of the other inodes is unchanged. */
  lemma SaveReadsBack(s: Fs, i: nat, j: nat)
    requires i < |s.inodes| && IBlock(s.inodestart, i) < |s.disk| && Fits(s.inodes[i]) && IBlock(s.inodestart, j) < |s.disk|
    ensures OnDisk(SaveInode(s, i), j) == if j == i then s.inodes[i] else OnDisk(s, j)
  {
    InodePut(s.disk[IBlock(s.inodestart, i)], i % IPB, s.inodes[i], j % IPB);
  }

  /** From s to t the inodes other than i, and all inodes' copies on disk, are unchanged. */
  ghost predicate Kept(s: Fs, t: Fs, i: nat) {
    && Shape(s) && Shape(t) && i < |s.inodes| == |t.inodes| && |t.disk| == |s.disk| && t.bmapstart == s.bmapstart && t.inodestart == s.inodestart
    && (forall j: nat :: j < |s.inodes| && j != i ==> t.inodes[j] == s.inodes[j]) && SameHead(t.inodes[i], s.inodes[i])
    && forall b :: 0 <= b < |s.disk| && b < s.bmapstart && s.role[b] == Fixed ==> t.disk[b] == s.disk[b] && t.role[b] == Fixed
  }

  lemma KeptOn(s: Fs, t: Fs, u: Fs, i: nat)
    requires Kept(s, t, i) && Kept(t, u, i)
    ensures Kept(s, u, i)
  {}

  lemma KeptSame(s: Fs, i: nat)
    requires Shape(s) && i < |s.inodes|
    ensures Kept(s, s, i)
  {}

  // ---------------------------------------------------------------- truncation

  /** t is s with block a, block bn of inode x, freed and no longer to be relied on in x. */
  ghost predicate Dropped(s: Fs, t: Fs, x: nat, bn: nat, a: nat) {
    && Shape(s) && Shape(t) && |t.disk| == |s.disk| && t.bmapstart == s.bmapstart && |t.inodes| == |s.inodes|
    && x < |s.inodes| && bn < MAXFILE && 0 < a < |s.disk| && s.role[a] == Data(x, bn) && BBlock(s.bmapstart, a) < |s.disk|
    && t.disk == FreeBlock(s, a).disk && t.role == s.role[a := Free]
    && (forall j: nat :: j < |s.inodes| ==> t.inodes[j].size == s.inodes[j].size && t.inodes[j].addrs[NDIRECT] == s.inodes[j].addrs[NDIRECT])
    && (forall j: nat :: j != x && j < |s.inodes| ==> t.inodes[j] == s.inodes[j])
    && t.inodestart == s.inodestart && SameHead(t.inodes[x], s.inodes[x])
    && forall m: nat :: m < NDIRECT && m != bn ==> t.inodes[x].addrs[m] == s.inodes[x].addrs[m]
  }

  lemma DropLists(s: Fs, t: Fs, x: nat, bn: nat, a: nat, n: nat, j: nat, m: nat)
    requires OkBut(s, x, n) && Dropped(s, t, x, bn, a) && j < |s.inodes| && m < MAXFILE && (j != x || m != bn || m >= NDIRECT)
    ensures Addr(t.disk, t.inodes[j], m) == Addr(s.disk, s.inodes[j], m)
  {
    MapBlock(s, a);
    assert IndOk(s, j);
  }

  lemma DropOk(s: Fs, t: Fs, x: nat, bn: nat, a: nat, n: nat, n': nat)
    requires OkBut(s, x, n) && Dropped(s, t, x, bn, a) && n <= n'
    requires if bn < NDIRECT then n' == n && t.inodes[x].addrs[bn] == 0 else NDIRECT <= bn < NDIRECT + n'
    ensures OkBut(t, x, n')
  {
    MapBlock(s, a);
    forall c: nat ensures BitOk(t, c) {
      assert BitOk(s, c);
      if c < |s.disk| {
        MapBlock(s, c);
        BitAfter(s, t, a, false, c);
      }
    }
    assert RoleOk(s, a);
    forall c: nat ensures RoleOk(t, c) {
      assert RoleOk(s, c);
      if c < |s.disk| && c != a && s.role[c].Data? {
        DropLists(s, t, x, bn, a, n, s.role[c].inum, s.role[c].bn);
      }
    }
    forall j: nat, m: nat | j != x || m < NDIRECT || m >= NDIRECT + n' ensures AddrOk(t, j, m) {
      assert AddrOk(s, j, m);
      if j < |s.inodes| && m < MAXFILE && (j != x || m != bn || m >= NDIRECT) {
        DropLists(s, t, x, bn, a, n, j, m);
      }
    }
    forall j: nat ensures IndOk(t, j) {
      assert IndOk(s, j);
    }
    forall j: nat | j != x ensures FileOk(t, j) {
      assert FileOk(s, j);
      if j < |s.inodes| {
        forall m | 0 <= m < MAXFILE ensures Addr(t.disk, t.inodes[j], m) == Addr(s.disk, s.inodes[j], m) {
          DropLists(s, t, x, bn, a, n, j, m);
        }
      }
    }
  }

  /** Freeing a block of x leaves the bytes of other files alone. */
  lemma DropBytes(s: Fs, t: Fs, x: nat, bn: nat, a: nat, n: nat, j: nat)
    requires OkBut(s, x, n) && Dropped(s, t, x, bn, a) && j != x
    ensures SameBytes(s, t, j)
  {
    if j < |s.inodes| {
      MapBlock(s, a);
      forall m | 0 <= m < MAXFILE ensures Addr(t.disk, t.inodes[j], m) == Addr(s.disk, s.inodes[j], m) {
        DropLists(s, t, x, bn, a, n, j, m);
      }
      forall m | 0 <= m < MAXFILE && 0 < Addr(s.disk, s.inodes[j], m) < |s.disk|
        ensures t.disk[Addr(s.disk, s.inodes[j], m)] == s.disk[Addr(s.disk, s.inodes[j], m)]
      {
        assert AddrOk(s, j, m);
      }
      BytesKept(s, t, j);
    }
  }

  /** The indirect block goes, once the blocks it lists are gone. */
  function DropInd(s: Fs, x: nat): Fs
    requires x < |s.inodes| && |s.inodes[x].addrs| == NDIRECT + 1 && |s.role| == |s.disk|
    requires s.inodes[x].addrs[NDIRECT] < |s.disk| && BBlock(s.bmapstart, s.inodes[x].addrs[NDIRECT]) < |s.disk|
  {
    FreeBlock(s, s.inodes[x].addrs[NDIRECT]).(inodes := s.inodes[x := s.inodes[x].(addrs := s.inodes[x].addrs[NDIRECT := 0])])
  }

  lemma DropIndOk(s: Fs, x: nat)
    requires OkBut(s, x, NINDIRECT) && x < |s.inodes| && 0 < s.inodes[x].addrs[NDIRECT] < |s.disk|
    requires BBlock(s.bmapstart, s.inodes[x].addrs[NDIRECT]) < |s.disk|
    requires forall c, m :: 0 <= c < |s.disk| && NDIRECT <= m < MAXFILE ==> s.role[c] != Data(x, m)
    ensures OkBut(DropInd(s, x), x, 0) && forall j: nat :: j != x ==> SameBytes(s, DropInd(s, x), j)
  {
    var t, a := DropInd(s, x), s.inodes[x].addrs[NDIRECT];
    MapBlock(s, a);
    assert IndOk(s, x);
    ShapeKept(s, t, a, Free);
    forall j: nat | j < |s.inodes| && j != x ensures SameList(s, t, j) {
      assert IndOk(s, j);
      ListFrame(s, t, j);
    }
    forall c: nat ensures BitOk(t, c) {
      assert BitOk(s, c);
      if c < |s.disk| {
        MapBlock(s, c);
        BitAfter(s, t, a, false, c);
      }
    }
    forall c: nat ensures RoleOk(t, c) {
      assert RoleOk(s, c);
      if c < |s.disk| && s.role[c].Data? && s.role[c].inum != x {
        assert SameList(s, t, s.role[c].inum);
      }
    }
    forall j: nat, m: nat ensures AddrOk(t, j, m) {
      if j != x || m < NDIRECT {
        assert AddrOk(s, j, m);
        assert j != x && j < |s.inodes| ==> SameList(s, t, j);
      }
    }
    forall j: nat ensures IndOk(t, j) {
      assert IndOk(s, j);
    }
    forall j: nat | j != x ensures FileOk(t, j) && SameBytes(s, t, j) {
      assert FileOk(s, j);
      if j < |s.inodes| {
        assert SameList(s, t, j);
        forall m | 0 <= m < MAXFILE && 0 < Addr(s.disk, s.inodes[j], m) < |s.disk|
          ensures t.disk[Addr(s.disk, s.inodes[j], m)] == s.disk[Addr(s.disk, s.inodes[j], m)]
        {
          assert AddrOk(s, j, m);
        }
        BytesKept(s, t, j);
      }
    }
  }
}
