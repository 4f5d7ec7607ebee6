/** The block allocator, block maps and file reading and writing of kernel/fs.c and kernel/file.c. */
module FsCode {
  import opened FsLayout
  import opened FsState

  const MAXOPBLOCKS := 10

  ghost predicate NoneFree(role: seq<Role>) { forall b :: 0 <= b < |role| ==> role[b] != Free }

  ghost predicate NoneHeld(role: seq<Role>) { forall b :: 0 <= b < |role| ==> role[b] != Held }

  /** Blocks in use keep their use, and no other block becomes fixed. */
  ghost predicate Stable(was: seq<Role>, now: seq<Role>) {
    |now| == |was| && forall b :: 0 <= b < |was| ==> (was[b] != Free ==> now[b] == was[b]) && (now[b] == Fixed ==> was[b] == Fixed)
  }

  // ---------------------------------------------------------------- what is logged

  /** A block given to log_write, with its contents at that time. */
  datatype Write = Write(blk: nat, data: Block)

  function Put(d: seq<Block>, w: Write): (e: seq<Block>)
    ensures |e| == |d|
  {
    if w.blk < |d| then d[w.blk := w.data] else d
  }

  function Replay(d: seq<Block>, ws: seq<Write>): (e: seq<Block>)
    ensures |e| == |d|
  {
    if ws == [] then d else Put(Replay(d, ws[..|ws| - 1]), ws[|ws| - 1])
  }

  lemma {:induction false} ReplayOn(d: seq<Block>, a: seq<Write>, b: seq<Write>)
    ensures Replay(d, a + b) == Replay(Replay(d, a), b)
  {
    if b == [] {
      assert a + b == a;
    } else {
      ReplayOn(d, a, b[..|b| - 1]);
      assert (a + b)[..|a + b| - 1] == a + b[..|b| - 1];
    }
  }

  function Blocks(ws: seq<Write>): set<nat> { set w | w in ws :: w.blk }

  predicate Within(ws: seq<Write>, n: nat) { forall q :: 0 <= q < |ws| ==> ws[q].blk < n }

  /** The disk, and the blocks given to log_write in this operation: as a set, and one by one. */
  datatype Journal = Journal(disk: seq<Block>, logged: set<nat>, writes: seq<Write>)

  /** From a to b every change of the disk has been given to log_write. */
  ghost predicate Logs(a: Journal, b: Journal) {
    && a.writes <= b.writes && Within(b.writes[|a.writes|..], |a.disk|)
    && Replay(a.disk, b.writes[|a.writes|..]) == b.disk && b.logged == a.logged + Blocks(b.writes[|a.writes|..])
  }

  lemma LogsOn(a: Journal, b: Journal, c: Journal)
    requires Logs(a, b) && Logs(b, c)
    ensures Logs(a, c)
  {
    var u, v := b.writes[|a.writes|..], c.writes[|b.writes|..];
    assert c.writes[|a.writes|..] == u + v;
    ReplayOn(a.disk, u, v);
  }

  lemma LogsSame(a: Journal)
    ensures Logs(a, a)
  {
    assert a.writes[|a.writes|..] == [];
  }

  lemma LogsOne(a: Journal, b: nat, x: Block)
    requires b < |a.disk|
    ensures Logs(a, Journal(a.disk[b := x], a.logged + {b}, a.writes + [Write(b, x)]))
  {
    var c, w := a.writes + [Write(b, x)], [Write(b, x)];
    assert c[|a.writes|..] == w && w[..0] == [];
    assert Replay(a.disk, w) == Put(Replay(a.disk, []), w[0]);
  }

  /** Contents with d written at off, which is not beyond the end. */
  function WriteAt(c: seq<Byte>, off: nat, d: seq<Byte>): seq<Byte>
    requires off <= |c|
  {
    c[..off] + d + if off + |d| < |c| then c[off + |d|..] else []
  }

  class FileSystem {
    const bmapstart: nat
    const inodestart: nat
    var disk: seq<Block>
    var inodes: seq<Inode>
    ghost var role: seq<Role>
    ghost var logged: set<nat>      // blocks log_write has been called on in this operation
    ghost var writes: seq<Write>    // the same in order, with their contents

    ghost function Model(): Fs
      reads this
    {
      Fs(disk, inodes, role, bmapstart, inodestart)
    }

    ghost function Now(): Journal
      reads this
    {
      Journal(disk, logged, writes)
    }

    ghost predicate Valid()
      reads this
    {
      Ok(Model()) && NoneHeld(role)
    }

    /** A file system whose blocks are owned as they should be. */
    constructor (disk: seq<Block>, inodes: seq<Inode>, ghost role: seq<Role>, bmapstart: nat, inodestart: nat)
      requires Ok(Fs(disk, inodes, role, bmapstart, inodestart)) && NoneHeld(role)
      ensures Valid() && Model() == Fs(disk, inodes, role, bmapstart, inodestart) && logged == {} && writes == []
    {
      this.disk, this.inodes, this.role, this.bmapstart, this.inodestart := disk, inodes, role, bmapstart, inodestart;
      logged, writes := {}, [];
    }

    /** log_write, on the block b just changed. */
    ghost method LogWrite(b: nat, was: Journal)
      requires b < |was.disk| && |disk| == |was.disk| && disk == was.disk[b := disk[b]] && logged == was.logged && writes == was.writes
      modifies `logged, `writes
      ensures Logs(was, Now()) && logged == old(logged) + {b}
    {
      LogsOne(was, b, disk[b]);
      logged, writes := logged + {b}, writes + [Write(b, disk[b])];
    }

    /** The search of balloc: the first free block as the start of its bitmap block's range and a bit in it. */
    method FindFree() returns (found: bool, b: nat, bi: nat)
      requires Ok(Model())
      ensures !found ==> NoneFree(role)
      ensures found ==>
                && b % BPB == 0 && bi < BPB && b + bi < |role| && role[b + bi] == Free
                && forall c :: 0 <= c < b + bi ==> role[c] != Free
    {
      hide OkBut;
      OkShape(Model());
      b, bi := 0, 0;
      while b < |disk|
        invariant b % BPB == 0 && forall c :: 0 <= c < b && c < |disk| ==> role[c] != Free
      {
        bi := 0;
        while bi < BPB && b + bi < |disk|
          invariant 0 <= bi <= BPB && forall c :: 0 <= c < b + bi && c < |disk| ==> role[c] != Free
        {
          InUseIs(Model(), b, bi);
          if !Bit(disk[b / BPB + bmapstart], bi) {
            return true, b, bi;
          }
          bi := bi + 1;
        }
        b := b + BPB;
      }
      return false, 0, 0;
    }

    /** Mark the first free block in use and zero it; 0 if there is none. */
    method Balloc() returns (r: nat)
      requires Ok(Model())
      modifies `disk, `role, `logged, `writes
      ensures Ok(Model()) && Logs(old(Now()), Now())
      ensures r == 0 ==> Model() == old(Model()) && logged == old(logged) && NoneFree(role)
      ensures r != 0 ==>
                && r < |old(disk)| == |old(role)| && BBlock(bmapstart, r) < |old(disk)| && old(role)[r] == Free
                && (forall c :: 0 <= c < r ==> old(role)[c] != Free)
                && Model() == TakeBlock(old(Model()), r) && logged == old(logged) + {BBlock(bmapstart, r), r}
    {
      hide OkBut, Logs;
      OkShape(Model());
      ghost var j0 := Now();
      LogsSame(j0);
      var found, b, bi := FindFree();
      if !found {
        return 0;
      }
      InUseIs(Model(), b, bi);
      TakeOk(Model(), b + bi, -1, 0);
      var m := b / BPB + bmapstart;
      disk := disk[m := SetBit(disk[m], bi, true)];
      LogWrite(m, j0);
      ghost var j1 := Now();
      disk := disk[b + bi := Zero()];
      LogWrite(b + bi, j1);
      LogsOn(j0, j1, Now());
      role := role[b + bi := Held];
      return b + bi;
    }

    /** Mark a block free.  It is in use: the source panics otherwise. */
    method Bfree(b: nat, ghost x: int, ghost n: nat)
      requires OkBut(Model(), x, n) && b < |disk| && role[b] != Free
      modifies `disk, `role, `logged, `writes
      ensures BBlock(bmapstart, b) < |old(disk)| && Model() == FreeBlock(old(Model()), b) && logged == old(logged) + {BBlock(bmapstart, b)}
      ensures Logs(old(Now()), Now())
    {
      hide OkBut, Logs;
      ghost var j0 := Now();
      UsedIs(Model(), b, x, n);
      var m, bi := b / BPB + bmapstart, b % BPB;
      if !Bit(disk[m], bi) {
        assert false;
      }
      disk := disk[m := SetBit(disk[m], bi, false)];
      LogWrite(m, j0);
      role := role[b := Free];
    }

    /**
      The block number of block bn of inode i, allocated if there is none; 0 if no block is free.
      No byte of any file changes.  `maps` are the bitmap blocks changed.
     */
    method Bmap(i: nat, bn: nat) returns (addr: nat, ghost maps: set<nat>)
      requires Valid() && i < |inodes| && bn < MAXFILE
      modifies `disk, `inodes, `role, `logged, `writes
      ensures Valid() && |inodes| == |old(inodes)| && |disk| == |old(disk)|
      ensures Mapped(old(Model()), Model(), i, bn, addr)
      ensures MapLog(old(Model()), Model(), i, bn, addr, maps, old(logged), logged) && Logs(old(Now()), Now())
      ensures Has(old(Model()), i, bn) ==> writes == old(writes)
    {
      hide OkBut, SameBytes, SameList, Linked, NoneHeld, NoneFree, Stable, Kept, Logs;
      ghost var s := Model();
      LogsSame(Now());
      MapStart(s, i, bn);
      if bn < NDIRECT {
        addr, maps := inodes[i].addrs[bn], {};
        if addr == 0 {
          addr := Balloc();
          if addr == 0 {
            MapFull(s, i, bn);
            return;
          }
          maps := {BBlock(bmapstart, addr)};
          MapDirect(s, i, bn, addr);
          inodes := inodes[i := inodes[i].(addrs := inodes[i].addrs[bn := addr])];
          role := role[addr := Data(i, bn)];
        }
        return;
      }
      addr, maps := MapIndirect(i, bn);
    }

    /** bmap beyond the direct blocks: the indirect block is allocated first if need be. */
    method MapIndirect(i: nat, bn: nat) returns (addr: nat, ghost maps: set<nat>)
      requires Valid() && i < |inodes| && NDIRECT <= bn < MAXFILE
      modifies `disk, `inodes, `role, `logged, `writes
      ensures Valid() && |inodes| == |old(inodes)| && |disk| == |old(disk)|
      ensures Mapped(old(Model()), Model(), i, bn, addr)
      ensures MapLog(old(Model()), Model(), i, bn, addr, maps, old(logged), logged) && Logs(old(Now()), Now())
      ensures Has(old(Model()), i, bn) ==> writes == old(writes)
    {
      hide OkBut, SameBytes, SameList, Linked, NoneHeld, NoneFree, Stable, Addr, Kept, Logs;
      ghost var s, l0, j0 := Model(), logged, Now();
      LogsSame(j0);
      MapStart(s, i, bn);
      maps := {};
      var ind := inodes[i].addrs[NDIRECT];
      if ind == 0 {
        ind := Balloc();
        if ind == 0 {
          NoEntry(s, i, bn);
          MapFull(s, i, bn);
          return 0, maps;
        }
        maps := {BBlock(bmapstart, ind)};
        MapInd(s, i, bn, ind);
        inodes := inodes[i := inodes[i].(addrs := inodes[i].addrs[NDIRECT := ind])];
        role := role[ind := Ind(i)];
      } else {
        SameAll(s);
        StableSame(s.role);
        KeptSame(s, i);
      }
      ghost var s1, l1, j1 := Model(), logged, Now();
      ghost var more;
      addr, more := MapEntry(i, bn);
      LogsOn(j0, j1, Now());
      MapTwice(s, s1, Model(), i, bn, addr);
      LogTwice(s, s1, Model(), i, bn, addr, maps, more, l0, l1, logged);
      maps := maps + more;
    }

    /** The entry of the indirect block, its block allocated if need be. */
    method MapEntry(i: nat, bn: nat) returns (addr: nat, ghost maps: set<nat>)
      requires Valid() && i < |inodes| && NDIRECT <= bn < MAXFILE && |inodes[i].addrs| == NDIRECT + 1 && inodes[i].addrs[NDIRECT] != 0
      modifies `disk, `role, `logged, `writes
      ensures Valid() && |disk| == |old(disk)|
      ensures Mapped(old(Model()), Model(), i, bn, addr)
      ensures MapLog(old(Model()), Model(), i, bn, addr, maps, old(logged), logged) && Logs(old(Now()), Now())
      ensures Has(old(Model()), i, bn) ==> writes == old(writes)
    {
      hide OkBut, SameBytes, SameList, Linked, NoneHeld, NoneFree, Stable, Addr, Kept, Logs;
      ghost var s, j0 := Model(), Now();
      LogsSame(j0);
      MapStart(s, i, bn);
      maps := {};
      var ind := inodes[i].addrs[NDIRECT];
      addr := Word(disk[ind], bn - NDIRECT);
      if addr == 0 {
        addr := Balloc();
        if addr != 0 {
          maps := {BBlock(bmapstart, addr)};
          MapFar(s, i, bn, addr);
          ghost var j1 := Now();
          disk := disk[ind := SetWord(disk[ind], bn - NDIRECT, addr)];
          LogWrite(ind, j1);
          LogsOn(j0, j1, Now());
          role := role[addr := Data(i, bn)];
        } else {
          MapFull(s, i, bn);
        }
      }
    }

    /** One turn of writei's loop: m bytes at pos, within one block, of which src can be read.  0 if no block is free. */
    method WriteBlock(i: nat, pos: nat, m: nat, src: seq<Byte>) returns (addr: nat, ghost maps: set<nat>)
      requires Valid() && i < |inodes| && pos < MAXFILE * BSIZE && pos % BSIZE + m <= BSIZE && |src| <= m
      modifies `disk, `inodes, `role, `logged, `writes
      ensures Valid() && |inodes| == |old(inodes)| && |disk| == |old(disk)|
      ensures Turned(old(Model()), Model(), i, pos, src, old(logged), logged, addr, maps)
      ensures inodes[i].size == old(inodes)[i].size && (|src| == m ==> Logs(old(Now()), Now()))
    {
      hide OkBut, Mapped, MapLog, Stored, NoneFree, NoneHeld, Kept, Logs;
      ghost var s, l, j0 := Model(), logged, Now();
      var bn := pos / BSIZE;
      addr, maps := Bmap(i, bn);
      ghost var s1, l1, j1 := Model(), logged, Now();
      BmapStored(s, s1, i, bn, addr, pos);
      BmapLogBy(s, s1, i, bn, addr, maps, l, l1);
      assert src[..0] == [];
      if addr != 0 {
        PokeStored(s1, i, pos, addr, src);
        StoredOn(s, s1, Poke(s1, addr, pos % BSIZE, src), i, pos, [], src);
        assert [] + src == src == src[..|src|];
        disk := disk[addr := Splice(disk[addr], pos % BSIZE, src)];
        PokeKept(s1, i, bn, addr, pos % BSIZE, src);
        KeptOn(s, s1, Model(), i);
        if |src| == m {
          LogWrite(addr, j1);
          LogsOn(j0, j1, Now());
        }
      }
    }

    /** The loop of writei: tot bytes are counted and done stored. */
    method WriteLoop(i: nat, src: seq<Byte>, n: nat, off: nat) returns (tot: nat, ghost done: nat, ghost log: Tally)
      requires Valid() && i < |inodes| && |src| <= n && off <= inodes[i].size && off + n <= MAXFILE * BSIZE
      modifies `disk, `inodes, `role, `logged, `writes
      ensures Valid() && |inodes| == |old(inodes)| && |disk| == |old(disk)| && inodes[i].size == old(inodes)[i].size
      ensures tot <= n && tot <= done <= |src| && done < tot + BSIZE
      ensures Looped(old(Model()), Model(), i, off, n, src[..done], tot, old(logged), logged, log)
      ensures Ended(role, off, n, |src|, tot, done) && (|src| == n ==> Logs(old(Now()), Now()))
    {
      hide OkBut, NoneHeld, Looped, Turned, Progress, ChunkSize, Ended, Logs;
      ghost var s0, l0, j0 := Model(), logged, Now();
      LoopStart(s0, i, off, n, l0);
      LogsSame(j0);
      var pos, stop := off, false;
      tot, done, log := 0, 0, Tally({}, {}, 0, 0);
      while !stop && tot < n
        invariant 0 <= tot <= n && pos == off + tot && tot <= done <= |src| && done < tot + BSIZE && Valid()
        invariant |inodes| == |s0.inodes| && |disk| == |s0.disk| && inodes[i].size == s0.inodes[i].size
        invariant Looped(s0, Model(), i, off, n, src[..done], tot, l0, logged, log) && (|src| == n ==> Logs(j0, Now()))
        invariant if stop then Ended(role, off, n, |src|, tot, done) else done == tot && Progress(off, pos, n, log.turns)
        decreases !stop, n - tot
      {
        ghost var s1, l1, j1 := Model(), logged, Now();
        var m := ChunkSize(n - tot, pos);
        var k := if tot + m <= |src| then m else |src| - tot;
        NextChunk(off, pos, n, m, log.turns);
        var chunk := src[tot..tot + k];
        var addr, maps := WriteBlock(i, pos, m, chunk);
        Turn(s0, s1, Model(), i, off, n, src, tot, m, chunk, l0, l1, logged, log, addr, maps);
        if |src| == n {
          LogsOn(j0, j1, Now());
        }
        log, done := Add(log, addr, maps, Fresh(s1, i, pos / BSIZE)), tot + if addr == 0 then 0 else k;
        if addr == 0 {
          stop := true;
        } else if k < m {
          stop := true;
        } else {
          tot, pos := tot + m, pos + m;
        }
      }
      LoopDone(role, off, n, |src|, tot, done);
    }

    /**
      Write n bytes at off, of which `src` can be read from user memory.  The bytes stored are src[..done];
      any beyond the count returned were stored by a copy that then failed.
     */
    method Writei(i: nat, src: seq<Byte>, n: nat, off: nat) returns (r: int, ghost done: nat)
      requires Valid() && i < |inodes| && |src| <= n < 0x1_0000_0000 && off < 0x1_0000_0000
      modifies `disk, `inodes, `role, `logged, `writes
      ensures Valid() && |inodes| == |old(inodes)| && |disk| == |old(disk)|
      ensures WriteOutcome(old(Model()), Model(), i, off, n, src, r, done)
      ensures r == -1 ==> Now() == old(Now())
      ensures old(logged) == {} && n <= 3 * BSIZE ==> |logged| <= MAXOPBLOCKS
      ensures Saves(old(Model()), Model(), i) && (|src| == n ==> Logs(old(Now()), Now()))
    {
      hide OkBut, Stored, NoneHeld, Looped, Updated, Ended, Kept, Saves, Logs;
      ghost var s0, l0, j0 := Model(), logged, Now();
      WriteStart(s0, i, off, l0);
      LogsSame(j0);
      if off > inodes[i].size || (off + n) % 0x1_0000_0000 < off {
        return -1, 0;
      }
      if off + n > MAXFILE * BSIZE {
        return -1, 0;
      }
      var tot;
      ghost var log;
      tot, done, log := WriteLoop(i, src, n, off);
      Closing(s0, Model(), i, off, n, tot, src[..done], l0, logged, log);
      ghost var j1 := Now();
      if off + tot > inodes[i].size {
        inodes := inodes[i := inodes[i].(size := off + tot)];
      }
      ghost var s2 := Model();
      Iupdate(i);
      SaveStored(s0, s2, Model(), i, off, src[..done]);
      SavesAfter(s0, s2, Model(), i);
      if |src| == n {
        LogsOn(j0, j1, Now());
      }
      return tot, done;
    }

    /**
      Copy the inode to its slot in its block.  It reads back from there; what the disk holds of the other inodes, and
      every file, is as before.
     */
    method Iupdate(i: nat)
      requires Valid() && i < |inodes|
      modifies `disk, `logged, `writes
      ensures Valid() && Updated(old(Model()), Model(), i) && Logs(old(Now()), Now())
      ensures logged == old(logged) + {IBlock(inodestart, i)}
    {
      hide OkBut, NoneHeld, Logs, Updated, Fits;
      ghost var s, j0 := Model(), Now();
      SaveUpdates(s, i);
      var b := i / IPB + inodestart;
      disk := disk[b := PutInode(disk[b], i % IPB, inodes[i])];
      LogWrite(b, j0);
    }

    /** One turn of readi's loop: m bytes at pos, within one block, of which the first k are copied. */
    method ReadBlock(i: nat, pos: nat, m: nat, k: nat) returns (out: seq<Byte>)
      requires Valid() && i < |inodes| && k <= m && 0 < m && pos % BSIZE + m <= BSIZE && pos + m <= inodes[i].size
      modifies `disk, `inodes, `role, `logged, `writes
      ensures Model() == old(Model()) && Now() == old(Now()) && inodes[i].size <= MAXFILE * BSIZE && |inodes[i].addrs| == NDIRECT + 1
      ensures out == Contents(Model(), i)[pos..pos + k]
    {
      hide OkBut, Mapped, MapLog, NoneHeld, Contents, Addr, Has;
      ghost var s, l, j := Model(), logged, Now();
      ReadStart(s, i);
      BlockThere(s, i, pos);
      var addr, maps := Bmap(i, pos / BSIZE);
      SameMap(s, Model(), i, pos / BSIZE, addr, maps, l, logged);
      ChunkBytes(s, i, pos, k);
      out := disk[addr][pos % BSIZE..pos % BSIZE + k];
    }

    /** Read up to n bytes at off, into a buffer of which `room` bytes can be written.  Nothing is allocated or changed. */
    method Readi(i: nat, off: nat, n: nat, room: nat) returns (r: int, out: seq<Byte>)
      requires Valid() && i < |inodes| && n < 0x1_0000_0000 && off < 0x1_0000_0000
      modifies `disk, `inodes, `role, `logged, `writes
      ensures Model() == old(Model()) && Now() == old(Now()) && inodes[i].size <= MAXFILE * BSIZE && |inodes[i].addrs| == NDIRECT + 1
      ensures off > inodes[i].size || off + n >= 0x1_0000_0000 ==> r == 0 && out == []
      ensures off <= inodes[i].size && off + n < 0x1_0000_0000 ==>
                var want := Contents(Model(), i)[off..if off + n > inodes[i].size then inodes[i].size else off + n];
                if |want| <= room then r == |want| && out == want else r == -1 && out == want[..room]
    {
      hide OkBut, NoneHeld, Contents, ChunkSize;
      ghost var s, j := Model(), Now();
      ReadStart(s, i);
      out := [];
      if off > inodes[i].size || (off + n) % 0x1_0000_0000 < off {
        return 0, out;
      }
      var len := if off + n > inodes[i].size then inodes[i].size - off else n;
      ghost var file := Contents(s, i);
      var tot := 0;
      while tot < len
        invariant 0 <= tot <= len && Model() == s && Now() == j && out == file[off..off + len][..tot] && tot <= room
      {
        var m := ChunkSize(len - tot, off + tot);
        ChunkFits(len - tot, off + tot);
        var k := if tot + m > room then room - tot else m;
        var more := ReadBlock(i, off + tot, m, k);
        ReadMore(file, off, tot, k, len);
        out := out + more;
        if k < m {
          return -1, out;
        }
        tot := tot + m;
      }
      return tot, out;
    }

    /** Free every block of an inode. */
    method Itrunc(x: nat)
      requires Valid() && x < |inodes|
      modifies `disk, `inodes, `role, `logged, `writes
      ensures Valid() && |inodes| == |old(inodes)| && |disk| == |old(disk)|
      ensures inodes == old(inodes)[x := old(inodes)[x].(size := 0, addrs := NoBlocks())]
      ensures forall bn :: 0 <= bn < MAXFILE ==> !Has(Model(), x, bn)
      ensures Freed(old(role), role, x, MAXFILE, true)
      ensures Others(old(Model()), Model(), x) && Saves(old(Model()), Model(), x)
    {
      hide OkBut, NoneHeld, Freed, Others, Word, Kept, Saves;
      ghost var s0 := Model();
      TruncStart(s0, x);
      var k := 0;
      while k < NDIRECT
        invariant 0 <= k <= NDIRECT && Trunc(s0, Model(), x, k, 0)
      {
        ghost var s := Model();
        TruncAddr(s0, s, x, k);
        if inodes[x].addrs[k] != 0 {
          var a := inodes[x].addrs[k];
          Bfree(a, x, 0);
          inodes := inodes[x := inodes[x].(addrs := inodes[x].addrs[k := 0])];
          TruncDirect(s0, s, Model(), x, k, a);
        } else {
          TruncNone(s0, s, x, k, 0);
        }
        k := k + 1;
      }
      TruncAddr(s0, Model(), x, NDIRECT);
      if inodes[x].addrs[NDIRECT] != 0 {
        TruncEntries(x, s0);
        ghost var s := Model();
        TruncAddr(s0, s, x, MAXFILE);
        Bfree(inodes[x].addrs[NDIRECT], x, NINDIRECT);
        inodes := inodes[x := inodes[x].(addrs := inodes[x].addrs[NDIRECT := 0])];
        TruncInd(s0, s, Model(), x);
      } else {
        TruncNoInd(s0, Model(), x);
      }
      TruncEnd(s0, Model(), x);
      ResizeKept(s0, Model(), x, 0);
      inodes := inodes[x := inodes[x].(size := 0)];
      ghost var s2 := Model();
      Iupdate(x);
      SaveOthers(s0, s2, Model(), x);
      SavesAfter(s0, s2, Model(), x);
    }

    /** Drop a reference; the last one of an inode without links frees its blocks and its place on disk. */
    method Iput(x: nat, ref: nat, valid: bool) returns (ref': nat, freed: bool)
      requires Valid() && x < |inodes| && ref >= 1
      modifies `disk, `inodes, `role, `logged, `writes
      ensures Valid() && ref' == ref - 1 && (freed <==> ref' == 0 && valid && old(inodes)[x].nlink == 0)
      ensures !freed ==> Model() == old(Model())
      ensures freed ==> Freed(old(role), role, x, MAXFILE, true) && Others(old(Model()), Model(), x) && |inodes| == |old(inodes)|
      ensures freed ==> inodes == old(inodes)[x := old(inodes)[x].(kind := 0, size := 0, addrs := NoBlocks())]
      ensures freed ==> AllSaved(old(Model())) ==> AllSaved(Model())
    {
      hide OkBut, NoneHeld, Freed, Others, Kept;
      ghost var s0 := Model();
      freed := ref == 1 && valid && inodes[x].nlink == 0;
      if freed {
        Itrunc(x);
        ghost var s1 := Model();
        RetypeOk(s0, s1, x);
        inodes := inodes[x := inodes[x].(kind := 0)];
        ghost var s2 := Model();
        Iupdate(x);
        SaveOthers(s0, s2, Model(), x);
        SavesRetyped(s0, s1, s2, Model(), x);
      }
      ref' := ref - 1;
    }

    /** The second loop of itrunc: free the blocks the indirect block lists. */
    method TruncEntries(x: nat, ghost s0: Fs)
      requires Trunc(s0, Model(), x, NDIRECT, 0) && x < |inodes| && |inodes[x].addrs| == NDIRECT + 1 && 0 < inodes[x].addrs[NDIRECT] < |disk|
      modifies `disk, `role, `logged, `writes
      ensures Trunc(s0, Model(), x, MAXFILE, NINDIRECT)
    {
      hide OkBut, NoneHeld, Freed, Others, Word;
      var ind := inodes[x].addrs[NDIRECT];
      var j := 0;
      while j < NINDIRECT
        invariant 0 <= j <= NINDIRECT && Trunc(s0, Model(), x, NDIRECT + j, j) && |disk| == |s0.disk|
      {
        ghost var s := Model();
        TruncAddr(s0, s, x, NDIRECT + j);
        var a := Word(disk[ind], j);
        if a != 0 {
          Bfree(a, x, j);
          TruncFar(s0, s, Model(), x, j, a);
        } else {
          TruncNone(s0, s, x, NDIRECT + j, j);
        }
        j := j + 1;
      }
    }

    /** One operation of filewrite: `image` is the state it leaves and what it gave to log_write. */
    method WriteOp(i: nat, src: seq<Byte>, n: nat, off: nat) returns (r: int, ghost done: nat, ghost image: Image)
      requires Valid() && i < |inodes| && |src| <= n <= CHUNK && off < 0x1_0000_0000
      modifies `disk, `inodes, `role, `logged, `writes
      ensures Valid() && |inodes| == |old(inodes)| && |disk| == |old(disk)|
      ensures WriteOutcome(old(Model()), Model(), i, off, n, src, r, done) && Saves(old(Model()), Model(), i)
      ensures image == Image(Model(), writes) && |logged| <= MAXOPBLOCKS && (|src| == n ==> OpLogged(old(disk), image))
    {
      hide OkBut, NoneHeld, WriteOutcome, Saves;
      logged, writes := {}, [];
      r, done := Writei(i, src, n, off);
      assert writes[0..] == writes;
      image := Image(Model(), writes);
    }

    /**
      filewrite on an inode: n bytes at off, in operations of at most 3 blocks.  `most` is the largest number of
      blocks one of them logged, k the bytes counted, done the bytes stored and `trace` the state after each operation.
     */
    method Filewrite(i: nat, src: seq<Byte>, n: nat, off: nat)
      returns (ret: int, off': nat, ghost k: nat, ghost done: nat, ghost most: nat, ghost trace: seq<Image>)
      requires Valid() && i < |inodes| && |src| <= n < 0x8000_0000 && off < 0x8000_0000
      modifies `disk, `inodes, `role, `logged, `writes
      ensures Valid() && |inodes| == |old(inodes)| && |disk| == |old(disk)| && most <= MAXOPBLOCKS
      ensures off' == off + k && k <= n && k <= done <= |src| && done < k + BSIZE && ret == (if k == n then n else -1)
      ensures FileOutcome(old(Model()), Model(), i, off, src[..done], k)
      ensures FileEnded(old(inodes)[i].size, role, off, n, |src|, k, done) && Saves(old(Model()), Model(), i)
      ensures |trace| > 0 && trace[0].fs == old(Model()) && trace[|trace| - 1].fs == Model() && (|src| == n ==> Chunks(trace, i, off, src, k))
    {
      hide OkBut, NoneHeld, FileOutcome, WriteOutcome, FileEnded, Chunks, Saves, OpLogged;
      ghost var s0 := Model();
      assert src[..0] == [];
      var max := (MAXOPBLOCKS - 1 - 1 - 2) / 2 * BSIZE;
      var c, stop := 0, false;
      off', k, done, most, trace := off, 0, 0, 0, [Image(s0, [])];
      FileStart(s0, i, off, src, trace);
      while !stop && c < n
        invariant 0 <= c <= n && k == c && off' == off + k && k <= done <= |src| && done < k + BSIZE
        invariant Valid() && |inodes| == |s0.inodes| && |disk| == |s0.disk| && most <= MAXOPBLOCKS && i < |s0.inodes|
        invariant FileOutcome(s0, Model(), i, off, src[..done], k) && Saves(s0, Model(), i)
        invariant if stop then FileEnded(s0.inodes[i].size, role, off, n, |src|, k, done) else done == k && (k == (|trace| - 1) * CHUNK || k == n)
        invariant |trace| > 0 && trace[0].fs == s0 && trace[|trace| - 1].fs == Model() && (|src| == n ==> Chunks(trace, i, off, src, k))
        decreases !stop, n - c
      {
        var n1 := if n - c > max then max else n - c;
        ghost var s1 := Model();
        var got := if c + n1 <= |src| then n1 else |src| - c;
        var chunk := src[c..c + got];
        var r, d, image := WriteOp(i, chunk, n1, off');
        FileTurn(s0, s1, Model(), i, off, src, n, c, chunk, n1, r, d, |trace| - 1);
        SavesOn(s0, s1, Model(), i);
        if |src| == n {
          ChunksOn(trace, i, off, src, c, image, c + if r < 0 then 0 else r);
        }
        most := if |logged| > most then |logged| else most;
        done, trace := c + (if r < 0 then 0 else d), trace + [image];
        if r > 0 {
          off' := off' + r;
        }
        if r != n1 {
          stop := true;
        }
        c := c + if r > 0 then r else 0;
        k := c;
      }
      FileDone(s0.inodes[i].size, role, off, n, |src|, k, done);
      ret := if c == n then n else -1;
    }

    /** What a write counted is read back by a read of the same place, which changes nothing. */
    method WriteThenRead(i: nat, src: seq<Byte>, n: nat, off: nat) returns (r: int, ghost done: nat, got: int, out: seq<Byte>)
      requires Valid() && i < |inodes| && |src| <= n < 0x1_0000_0000 && off < 0x1_0000_0000
      modifies `disk, `inodes, `role, `logged, `writes
      ensures Valid() && WriteOutcome(old(Model()), Model(), i, off, n, src, r, done) && Saves(old(Model()), Model(), i)
      ensures r >= 0 ==> got == r <= |src| && out == src[..r]
    {
      hide OkBut, NoneHeld, Contents, Stored, Ended;
      ghost var s := Model();
      r, done := Writei(i, src, n, off);
      got, out := 0, [];
      if r >= 0 {
        WrittenBack(s, Model(), i, off, src, r, done);
        got, out := Readi(i, off, r, r);
      }
    }
  }

  lemma OkShape(s: Fs)
    requires Ok(s)
    ensures Shape(s) && |s.role| == |s.disk|
  {}

  lemma InUseIs(s: Fs, b: nat, bi: nat)
    requires Ok(s) && b % BPB == 0 && bi < BPB && b + bi < |s.disk|
    ensures |s.role| == |s.disk| && b / BPB + s.bmapstart == BBlock(s.bmapstart, b + bi) < |s.disk| && (b + bi) % BPB == bi
    ensures Bit(s.disk[b / BPB + s.bmapstart], bi) <==> s.role[b + bi] != Free
    ensures s.role[0] == Fixed
  {
    MapBlock(s, b + bi);
    assert BitOk(s, b + bi);
    assert (b + bi) / BPB == b / BPB && (b + bi) % BPB == bi;
  }

  lemma UsedIs(s: Fs, b: nat, x: int, n: nat)
    requires OkBut(s, x, n) && b < |s.disk|
    ensures |s.role| == |s.disk| && BBlock(s.bmapstart, b) < |s.disk|
    ensures Bit(s.disk[BBlock(s.bmapstart, b)], b % BPB) <==> s.role[b] != Free
  {
    MapBlock(s, b);
    assert BitOk(s, b);
  }

  // ---------------------------------------------------------------- what bmap does

  /** bmap(i, bn) returned a and went from s to t. */
  ghost predicate Mapped(s: Fs, t: Fs, i: nat, bn: nat, a: nat) {
    && Shape(s) && Shape(t) && i < |s.inodes| == |t.inodes| && |t.disk| == |s.disk| && bn < MAXFILE
    && (forall j: nat :: SameBytes(s, t, j))
    && Stable(s.role, t.role) && Kept(s, t, i) && OthersList(s, t, i)
    && (bn < NDIRECT ==> t.inodes[i].addrs[NDIRECT] == s.inodes[i].addrs[NDIRECT])
    && (Addr(s.disk, s.inodes[i], bn) != 0 ==> t == s)
    && (forall m :: 0 <= m < MAXFILE && m != bn ==> Addr(t.disk, t.inodes[i], m) == Addr(s.disk, s.inodes[i], m))
    && Addr(t.disk, t.inodes[i], bn) == a
    && (if a == 0 then NoneFree(t.role) else a < |t.disk| && t.role[a] == Data(i, bn))
  }

  /** Other inodes have the blocks they had. */
  ghost predicate OthersList(s: Fs, t: Fs, i: nat)
    requires Shape(s) && Shape(t)
  {
    forall j: nat :: j != i ==> SameList(s, t, j)
  }

  /** The blocks it logged. */
  ghost predicate MapLog(s: Fs, t: Fs, i: nat, bn: nat, a: nat, maps: set<nat>, was: set<nat>, now: set<nat>) {
    && i < |s.inodes| && i < |t.inodes| && |s.inodes[i].addrs| == |t.inodes[i].addrs| == NDIRECT + 1 && bn < MAXFILE
    && (Addr(s.disk, s.inodes[i], bn) != 0 ==> now == was && maps == {})
    && now <= was + maps + (if a == 0 then {} else {a}) + (if t.inodes[i].addrs[NDIRECT] == 0 then {} else {t.inodes[i].addrs[NDIRECT]})
    && (s.inodes[i].addrs[NDIRECT] != 0 ==> t.inodes[i].addrs[NDIRECT] == s.inodes[i].addrs[NDIRECT])
    && |maps| <= (if a == 0 then 0 else 1) + (if s.inodes[i].addrs[NDIRECT] == 0 && t.inodes[i].addrs[NDIRECT] != 0 then 1 else 0)
  }

  lemma SameAll(s: Fs)
    requires Shape(s)
    ensures forall j: nat :: SameBytes(s, s, j) && SameList(s, s, j)
  {}

  lemma MapStart(s: Fs, i: nat, bn: nat)
    requires Ok(s) && i < |s.inodes| && bn < MAXFILE
    ensures Shape(s) && |s.inodes[i].addrs| == NDIRECT + 1 && s.inodes[i].addrs[NDIRECT] < |s.disk|
    ensures s.inodes[i].addrs[NDIRECT] != 0 ==> bn < NDIRECT || Addr(s.disk, s.inodes[i], bn) == Word(s.disk[s.inodes[i].addrs[NDIRECT]], bn - NDIRECT)
    ensures Addr(s.disk, s.inodes[i], bn) != 0 ==> Mapped(s, s, i, bn, Addr(s.disk, s.inodes[i], bn))
  {
    assert AddrOk(s, i, bn) && IndOk(s, i);
    SameAll(s);
  }

  lemma MapFull(s: Fs, i: nat, bn: nat)
    requires Ok(s) && i < |s.inodes| && bn < MAXFILE && NoneFree(s.role) && Addr(s.disk, s.inodes[i], bn) == 0
    ensures Mapped(s, s, i, bn, 0)
  {}

  lemma MapDirect(s: Fs, i: nat, bn: nat, a: nat)
    requires Ok(s) && NoneHeld(s.role) && i < |s.inodes| && bn < NDIRECT && 0 < a < |s.disk| && s.role[a] == Free
    requires BBlock(s.bmapstart, a) < |s.disk| && s.inodes[i].addrs[bn] == 0 && Ok(TakeBlock(s, a))
    ensures Ok(LinkDirect(TakeBlock(s, a), i, bn, a)) && Mapped(s, LinkDirect(TakeBlock(s, a), i, bn, a), i, bn, a)
    ensures NoneHeld(LinkDirect(TakeBlock(s, a), i, bn, a).role)
  {
    var s1 := TakeBlock(s, a);
    var t := LinkDirect(s1, i, bn, a);
    LinkDirectIs(s1, i, bn, a);
    LinkOk(s1, t, i, bn, a);
    MapBlock(s, a);
    MapNew(s, s1, t, i, bn, a);
  }

  /** A block taken and linked. */
  lemma MapNew(s: Fs, s1: Fs, t: Fs, i: nat, bn: nat, a: nat)
    requires Ok(s) && NoneHeld(s.role) && Ok(s1) && Ok(t) && 0 < a < |s.disk| && s.role[a] == Free && BBlock(s.bmapstart, a) < |s.disk| && s1 == TakeBlock(s, a)
    requires Linked(s1, t, i, bn, a) && t.disk[a] == Zero() && Kept(s, t, i)
    requires bn < NDIRECT ==> t.inodes[i].addrs[NDIRECT] == s.inodes[i].addrs[NDIRECT]
    requires forall c :: 0 <= c < |s1.disk| && s1.role[c].Data? ==> t.disk[c] == s1.disk[c]
    ensures Mapped(s, t, i, bn, a) && NoneHeld(t.role)
  {
    TakeOk(s, a, -1, 0);
    assert SameList(s, s1, i) && Addr(s.disk, s.inodes[i], bn) == 0;
    forall j: nat ensures SameBytes(s, t, j) {
      TakeBytes(s, a, j);
      LinkBytes(s1, t, i, bn, a, j);
    }
    forall m | 0 <= m < MAXFILE ensures Addr(t.disk, t.inodes[i], m) == if m == bn then a else Addr(s.disk, s.inodes[i], m) {
      assert EntryAfter(s1, t, i, bn, a, i, m) && SameList(s, s1, i);
    }
    forall j: nat | j != i ensures SameList(s, t, j) {
      assert SameList(s, s1, j);
      if j < |s.inodes| {
        forall m | 0 <= m < MAXFILE ensures Addr(t.disk, t.inodes[j], m) == Addr(s1.disk, s1.inodes[j], m) {
          assert EntryAfter(s1, t, i, bn, a, j, m);
        }
      }
    }
  }

  /** Same block lists and bytes, and blocks in use stay so. */
  ghost predicate Unmoved(s: Fs, t: Fs, i: nat) {
    && Shape(s) && Shape(t) && |s.inodes| == |t.inodes| && |t.disk| == |s.disk|
    && (forall j: nat :: SameBytes(s, t, j)) && (forall j: nat :: SameList(s, t, j))
    && Stable(s.role, t.role) && Kept(s, t, i)
  }

  lemma StableSame(role: seq<Role>)
    ensures Stable(role, role)
  {}

  lemma MapInd(s: Fs, i: nat, bn: nat, a: nat)
    requires Ok(s) && NoneHeld(s.role) && i < |s.inodes| && NDIRECT <= bn < MAXFILE && 0 < a < |s.disk| && s.role[a] == Free
    requires BBlock(s.bmapstart, a) < |s.disk| && s.inodes[i].addrs[NDIRECT] == 0 && Ok(TakeBlock(s, a))
    ensures Ok(LinkInd(TakeBlock(s, a), i, a)) && Unmoved(s, LinkInd(TakeBlock(s, a), i, a), i) && NoneHeld(LinkInd(TakeBlock(s, a), i, a).role)
    ensures Addr(s.disk, s.inodes[i], bn) == 0
  {
    var s1 := TakeBlock(s, a);
    var t := LinkInd(s1, i, a);
    TakeOk(s, a, -1, 0);
    LinkIndOk(s1, i, a);
    MapBlock(s, a);
    forall j: nat ensures SameBytes(s, t, j) && SameList(s, t, j) {
      TakeBytes(s, a, j);
      assert SameBytes(s1, t, j) && SameList(s1, t, j) && SameList(s, s1, j);
    }
  }

  lemma MapFar(s: Fs, i: nat, bn: nat, a: nat)
    requires Ok(s) && NoneHeld(s.role) && i < |s.inodes| && NDIRECT <= bn < MAXFILE && 0 < a < |s.disk| && s.role[a] == Free
    requires BBlock(s.bmapstart, a) < |s.disk| && 0 < s.inodes[i].addrs[NDIRECT] < |s.disk| && Addr(s.disk, s.inodes[i], bn) == 0 && Ok(TakeBlock(s, a))
    ensures Ok(LinkFar(TakeBlock(s, a), i, bn, a)) && Mapped(s, LinkFar(TakeBlock(s, a), i, bn, a), i, bn, a)
    ensures NoneHeld(LinkFar(TakeBlock(s, a), i, bn, a).role)
  {
    var s1 := TakeBlock(s, a);
    var t := LinkFar(s1, i, bn, a);
    TakeOk(s, a, -1, 0);
    assert SameList(s, s1, i) && IndOk(s1, i);
    LinkFarIs(s1, i, bn, a);
    LinkOk(s1, t, i, bn, a);
    MapBlock(s, a);
    MapNew(s, s1, t, i, bn, a);
  }

  lemma NoEntry(s: Fs, i: nat, bn: nat)
    requires Shape(s) && i < |s.inodes| && NDIRECT <= bn < MAXFILE && s.inodes[i].addrs[NDIRECT] == 0
    ensures Addr(s.disk, s.inodes[i], bn) == 0
  {}

  lemma LogTwice(s: Fs, s1: Fs, t: Fs, i: nat, bn: nat, a: nat, maps: set<nat>, more: set<nat>, l0: set<nat>, l1: set<nat>, l2: set<nat>)
    requires MapLog(s1, t, i, bn, a, more, l1, l2) && i < |s.inodes| && |s.inodes[i].addrs| == NDIRECT + 1
    requires s1.inodes[i].addrs[NDIRECT] != 0
    requires if s.inodes[i].addrs[NDIRECT] == 0
             then Addr(s.disk, s.inodes[i], bn) == 0 && |maps| <= 1 && l1 <= l0 + maps + {s1.inodes[i].addrs[NDIRECT]}
             else s1 == s && maps == {} && l1 == l0
    ensures MapLog(s, t, i, bn, a, maps + more, l0, l2)
  {}

  lemma Union(a: set<nat>, b: set<nat>)
    ensures |a + b| <= |a| + |b|
  {}

  lemma MapTwice(s: Fs, s1: Fs, t: Fs, i: nat, bn: nat, a: nat)
    requires bn >= NDIRECT && Unmoved(s, s1, i) && Mapped(s1, t, i, bn, a) && (Addr(s.disk, s.inodes[i], bn) != 0 ==> s1 == s)
    ensures Mapped(s, t, i, bn, a)
  {
    assert SameList(s, s1, i);
    forall j: nat | j != i ensures SameList(s, t, j) {
      assert SameList(s, s1, j) && SameList(s1, t, j);
    }
    KeptOn(s, s1, t, i);
    forall j: nat ensures SameBytes(s, t, j) {
      assert SameBytes(s, s1, j) && SameBytes(s1, t, j);
    }
  }

  // ---------------------------------------------------------------- what writei does

  ghost predicate Has(s: Fs, i: nat, bn: nat) {
    i < |s.inodes| && |s.inodes[i].addrs| == NDIRECT + 1 && bn < MAXFILE && Addr(s.disk, s.inodes[i], bn) != 0
  }

  /** From s to t the bytes d have been stored in file i at pos; nothing else a file shows has changed. */
  ghost predicate Stored(s: Fs, t: Fs, i: nat, pos: nat, d: seq<Byte>) {
    && Shape(s) && Shape(t) && i < |s.inodes| == |t.inodes| && |t.disk| == |s.disk|
    && Stable(s.role, t.role)
    && (forall j: nat :: j != i ==> SameBytes(s, t, j))
    && (forall k :: 0 <= k < MAXFILE * BSIZE ==>
          ByteAt(t.disk, t.inodes[i], k) == if pos <= k < pos + |d| then d[k - pos] else ByteAt(s.disk, s.inodes[i], k))
    && (forall bn :: 0 <= bn < MAXFILE && Has(s, i, bn) ==> Has(t, i, bn))
    && (forall bn :: 0 <= bn < MAXFILE && Has(t, i, bn) ==> Has(s, i, bn) || pos / BSIZE <= bn <= (pos + |d|) / BSIZE)
    && (t.inodes[i].addrs[NDIRECT] == s.inodes[i].addrs[NDIRECT] || (pos + |d|) / BSIZE >= NDIRECT) && OthersList(s, t, i)
  }

  lemma StoredOn(s: Fs, t: Fs, u: Fs, i: nat, pos: nat, d: seq<Byte>, e: seq<Byte>)
    requires Stored(s, t, i, pos, d) && Stored(t, u, i, pos + |d|, e)
    ensures Stored(s, u, i, pos, d + e)
  {
    forall j: nat | j != i ensures SameList(s, u, j) {
      assert SameList(s, t, j) && SameList(t, u, j);
    }
    forall j: nat | j != i ensures SameBytes(s, u, j) {
      assert SameBytes(s, t, j) && SameBytes(t, u, j);
    }
    forall k | 0 <= k < MAXFILE * BSIZE
      ensures ByteAt(u.disk, u.inodes[i], k) == if pos <= k < pos + |d + e| then (d + e)[k - pos] else ByteAt(s.disk, s.inodes[i], k)
    {
      assert ByteAt(t.disk, t.inodes[i], k) == if pos <= k < pos + |d| then d[k - pos] else ByteAt(s.disk, s.inodes[i], k);
    }
  }

  lemma BmapStored(s: Fs, t: Fs, i: nat, bn: nat, a: nat, pos: nat)
    requires Mapped(s, t, i, bn, a) && bn == pos / BSIZE
    ensures Stored(s, t, i, pos, []) && t.inodes[i].size == s.inodes[i].size && (a != 0 ==> a < |t.disk| && Has(t, i, bn) && |t.role| == |t.disk| && t.role[a] == Data(i, bn))
    ensures a == 0 ==> NoneFree(t.role)
    ensures Kept(s, t, i)
  {
    assert SameBytes(s, t, i);
  }

  /** Which k lie in a chunk that does not cross a block boundary. */
  lemma Chunk(pos: nat, m: nat, k: nat)
    requires pos % BSIZE + m <= BSIZE
    ensures pos <= k < pos + m <==> k / BSIZE == pos / BSIZE && pos % BSIZE <= k % BSIZE < pos % BSIZE + m
    ensures pos <= k < pos + m ==> k % BSIZE - pos % BSIZE == k - pos
  {}

  lemma PokeStored(s: Fs, i: nat, pos: nat, a: nat, src: seq<Byte>)
    requires Ok(s) && 0 < a < |s.disk| && |s.role| == |s.disk| && s.role[a] == Data(i, pos / BSIZE) && pos % BSIZE + |src| <= BSIZE
    ensures Ok(Poke(s, a, pos % BSIZE, src)) && Stored(s, Poke(s, a, pos % BSIZE, src), i, pos, src) && Has(Poke(s, a, pos % BSIZE, src), i, pos / BSIZE)
  {
    var t := Poke(s, a, pos % BSIZE, src);
    PokeOk(s, i, pos / BSIZE, a, pos % BSIZE, src);
    assert SameList(s, t, i) && RoleOk(s, a);
    forall k | 0 <= k < MAXFILE * BSIZE
      ensures ByteAt(t.disk, t.inodes[i], k) == if pos <= k < pos + |src| then src[k - pos] else ByteAt(s.disk, s.inodes[i], k)
    {
      Chunk(pos, |src|, k);
    }
  }

  lemma PokeKept(s: Fs, i: nat, bn: nat, a: nat, lo: nat, src: seq<Byte>)
    requires Ok(s) && 0 < a < |s.disk| == |s.role| && s.role[a] == Data(i, bn) && lo + |src| <= BSIZE
    ensures Kept(s, Poke(s, a, lo, src), i)
  {
    PokeOk(s, i, bn, a, lo, src);
  }

  lemma ResizeKept(s0: Fs, s: Fs, i: nat, size: nat)
    requires Kept(s0, s, i) && i < |s.inodes|
    ensures Kept(s0, Resize(s, i, size), i)
  {
    ShapeSame(s, Resize(s, i, size));
  }

  // ---------------------------------------------------------------- what iupdate does

  /** From s to t inode i has been saved; the disk holds the other inodes, and all files, as before. */
  ghost predicate Updated(s: Fs, t: Fs, i: nat) {
    && Shape(s) && Shape(t) && i < |s.inodes| && t.inodes == s.inodes && t.role == s.role
    && |t.disk| == |s.disk| && t.bmapstart == s.bmapstart && t.inodestart == s.inodestart
    && (forall j: nat :: SameBytes(s, t, j)) && (forall j: nat :: SameList(s, t, j))
    && forall j: nat :: IBlock(s.inodestart, j) < |s.disk| ==> OnDisk(t, j) == if j == i then s.inodes[i] else OnDisk(s, j)
  }

  lemma SaveUpdates(s: Fs, i: nat)
    requires Ok(s) && i < |s.inodes|
    ensures IBlock(s.inodestart, i) < |s.disk| && Fits(s.inodes[i]) && Ok(SaveInode(s, i)) && Updated(s, SaveInode(s, i), i)
  {
    InodeFits(s, i);
    SaveOk(s, i);
    forall j: nat | IBlock(s.inodestart, j) < |s.disk| ensures OnDisk(SaveInode(s, i), j) == if j == i then s.inodes[i] else OnDisk(s, j) {
      SaveReadsBack(s, i, j);
    }
  }

  lemma SaveStored(s: Fs, t: Fs, u: Fs, i: nat, pos: nat, d: seq<Byte>)
    requires Stored(s, t, i, pos, d) && Updated(t, u, i)
    ensures Stored(s, u, i, pos, d)
  {
    assert SameBytes(t, u, i) && SameList(t, u, i);
    StoredOn(s, t, u, i, pos, d, []);
    assert d + [] == d;
  }

  lemma SaveOthers(s: Fs, t: Fs, u: Fs, x: nat)
    requires Others(s, t, x) && Updated(t, u, x)
    ensures Others(s, u, x) && forall bn :: 0 <= bn < MAXFILE ==> Has(u, x, bn) == Has(t, x, bn)
  {
    assert SameList(t, u, x);
    forall j: nat | j != x ensures SameBytes(s, u, j) {
      assert SameBytes(s, t, j) && SameBytes(t, u, j);
    }
  }

  /** From s to t only size and block list of inode i changed, and if every inode was saved every inode is. */
  ghost predicate Saves(s: Fs, t: Fs, i: nat) {
    && Shape(s) && Shape(t) && i < |s.inodes| == |t.inodes| && t.bmapstart == s.bmapstart && t.inodestart == s.inodestart
    && (forall j: nat :: j < |s.inodes| && j != i ==> t.inodes[j] == s.inodes[j]) && SameHead(t.inodes[i], s.inodes[i])
    && (AllSaved(s) ==> AllSaved(t))
  }

  lemma SavesAfter(s: Fs, t: Fs, u: Fs, i: nat)
    requires Kept(s, t, i) && Updated(t, u, i)
    ensures Saves(s, u, i)
  {
    if AllSaved(s) {
      forall j: nat | j < |u.inodes| ensures Saved(u, j) {
        assert InoFixed(s, j) && InoFixed(t, j) && Saved(s, j);
      }
    }
  }

  function Retype(s: Fs, x: nat): Fs
    requires x < |s.inodes|
  {
    s.(inodes := s.inodes[x := s.inodes[x].(kind := 0)])
  }

  lemma RetypeOk(s0: Fs, s: Fs, x: nat)
    requires Ok(s) && x < |s.inodes| && Others(s0, s, x)
    ensures Ok(Retype(s, x)) && Others(s0, Retype(s, x), x)
  {
    var t := Retype(s, x);
    forall c | 0 <= c < |t.disk| ensures MapFixed(t, c) {
      assert MapFixed(s, c);
    }
    forall i | 0 <= i < |t.inodes| ensures InoFixed(t, i) {
      assert InoFixed(s, i);
    }
    forall j: nat ensures SameList(s, t, j) && SameBytes(s, t, j) {
      if j < |s.inodes| {
        ListFrame(s, t, j);
        BytesKept(s, t, j);
      }
    }
    RetypeRest(s, t, x);
    forall j: nat | j != x ensures SameBytes(s0, t, j) {
      assert SameBytes(s0, s, j) && SameBytes(s, t, j);
    }
  }

  lemma RetypeRest(s: Fs, t: Fs, x: nat)
    requires Ok(s) && x < |s.inodes| && t == Retype(s, x) && Shape(t) && forall j: nat :: SameList(s, t, j) && SameBytes(s, t, j)
    ensures Ok(t)
  {
    forall c: nat ensures BitOk(t, c) && RoleOk(t, c) {
      assert BitOk(s, c) && RoleOk(s, c);
      if c < |s.disk| && s.role[c].Data? {
        assert SameList(s, t, s.role[c].inum);
      }
    }
    forall j: nat, m: nat ensures AddrOk(t, j, m) {
      assert AddrOk(s, j, m) && SameList(s, t, j);
    }
    forall j: nat ensures IndOk(t, j) && FileOk(t, j) {
      assert IndOk(s, j) && FileOk(s, j) && SameList(s, t, j);
    }
  }

  lemma SavesRetyped(s: Fs, s1: Fs, s2: Fs, t: Fs, x: nat)
    requires Saves(s, s1, x) && x < |s1.inodes| && s2 == Retype(s1, x) && Updated(s2, t, x)
    ensures AllSaved(s) ==> AllSaved(t)
  {
    if AllSaved(s) {
      forall j: nat | j < |t.inodes| ensures Saved(t, j) {
        assert InoFixed(s1, j) && InoFixed(t, j) && Saved(s1, j);
      }
    }
  }

  // ---------------------------------------------------------------- what writei logs

  ghost function IndSet(s: Fs, i: nat): set<nat> {
    if i < |s.inodes| && |s.inodes[i].addrs| == NDIRECT + 1 && s.inodes[i].addrs[NDIRECT] != 0 then {s.inodes[i].addrs[NDIRECT]} else {}
  }

  /** Block bn has to be allocated. */
  ghost function Fresh(s: Fs, i: nat, bn: nat): nat { if Has(s, i, bn) then 0 else 1 }

  /**
    The blocks logged from s to t are among data blocks D, bitmap blocks M and the indirect block, and M has at
    most one element for each of f allocated blocks and one for a new indirect block.
   */
  ghost predicate LogBy(s: Fs, t: Fs, i: nat, was: set<nat>, now: set<nat>, D: set<nat>, M: set<nat>, f: nat) {
    && now <= was + D + M + IndSet(t, i)
    && (IndSet(s, i) != {} ==> IndSet(t, i) == IndSet(s, i))
    && |M| <= f + |IndSet(t, i)| - |IndSet(s, i)|
  }

  lemma LogOn(s: Fs, t: Fs, u: Fs, i: nat, l0: set<nat>, l1: set<nat>, l2: set<nat>, D: set<nat>, D': set<nat>, M: set<nat>, M': set<nat>, f: nat, f': nat)
    requires LogBy(s, t, i, l0, l1, D, M, f) && LogBy(t, u, i, l1, l2, D', M', f')
    ensures LogBy(s, u, i, l0, l2, D + D', M + M', f + f')
  {}

  lemma BmapLogBy(s: Fs, t: Fs, i: nat, bn: nat, a: nat, maps: set<nat>, was: set<nat>, now: set<nat>)
    requires MapLog(s, t, i, bn, a, maps, was, now)
    ensures LogBy(s, t, i, was, now, if a == 0 then {} else {a}, maps, Fresh(s, i, bn))
  {}

  function Max(a: nat, b: nat): nat { if a > b then a else b }

  /** The blocks of the bytes written so far are there. */
  ghost predicate Covered(s: Fs, i: nat, off: nat, tot: nat) {
    forall bn :: off / BSIZE <= bn && bn * BSIZE < off + tot ==> Has(s, i, bn)
  }

  lemma WriteStart(s: Fs, i: nat, off: nat, l: set<nat>)
    requires Ok(s) && i < |s.inodes|
    ensures Shape(s) && s.inodes[i].size <= MAXFILE * BSIZE && Stored(s, s, i, off, []) && LogBy(s, s, i, l, l, {}, {}, 0)
    ensures off <= s.inodes[i].size ==> Covered(s, i, off, 0)
    ensures Kept(s, s, i) && Saves(s, s, i)
  {
    assert FileOk(s, i);
    SameAll(s);
  }

  /** How far c turns of the loop have come in n bytes at off, unless they have come to the end. */
  ghost predicate Progress(off: nat, pos: nat, n: nat, c: nat) {
    && (pos < off + n ==> if c == 0 then pos == off else pos == (off / BSIZE + c) * BSIZE)
    && Turns(off, n, c)
  }

  /** A write of up to 3 blocks takes at most 4 turns, and 3 if it starts at the beginning of a block. */
  ghost predicate Turns(off: nat, n: nat, c: nat) {
    n <= 3 * BSIZE ==> c <= if off % BSIZE == 0 then 3 else 4
  }

  /** How many of c turns may have met an unmapped block: a write that starts inside a block finds it mapped. */
  function Unmapped(off: nat, c: nat): nat { if off % BSIZE == 0 || c == 0 then c else c - 1 }

  /** min(n - tot, BSIZE - off % BSIZE). */
  function ChunkSize(left: nat, pos: nat): nat { if left < BSIZE - pos % BSIZE then left else BSIZE - pos % BSIZE }

  lemma ProgressStart(off: nat, n: nat)
    ensures Progress(off, off, n, 0) && Unmapped(off, 0) == 0 && Turns(off, n, 0)
  {}

  lemma NextChunk(off: nat, pos: nat, n: nat, m: nat, c: nat)
    requires Progress(off, pos, n, c) && off <= pos < off + n
    requires m == ChunkSize(off + n - pos, pos)
    ensures 0 < m <= off + n - pos && pos % BSIZE + m <= BSIZE && m <= BSIZE && Progress(off, pos + m, n, c + 1) && Turns(off, n, c + 1) && (c == 0 ==> pos == off)
  {}

  /** Data and bitmap blocks logged, turns of the loop, and turns that allocated the block. */
  datatype Tally = Tally(data: set<nat>, maps: set<nat>, turns: nat, news: nat)

  function Add(log: Tally, addr: nat, maps: set<nat>, f: nat): Tally {
    Tally(log.data + if addr == 0 then {} else {addr}, log.maps + maps, log.turns + 1, log.news + f)
  }

  ghost predicate Tallied(s: Fs, t: Fs, i: nat, off: nat, n: nat, was: set<nat>, now: set<nat>, log: Tally) {
    && LogBy(s, t, i, was, now, log.data, log.maps, log.news)
    && |log.data| <= log.turns && log.news <= Unmapped(off, log.turns) && Turns(off, n, log.turns)
  }

  ghost predicate Written(s: Fs, t: Fs, i: nat, off: nat, n: nat, d: seq<Byte>, tot: nat) {
    Stored(s, t, i, off, d) && Covered(t, i, off, tot) && tot <= n
  }

  lemma LoopStart(s: Fs, i: nat, off: nat, n: nat, l: set<nat>)
    requires Ok(s) && i < |s.inodes| && off <= s.inodes[i].size
    ensures Written(s, s, i, off, n, [], 0) && Tallied(s, s, i, off, n, l, l, Tally({}, {}, 0, 0)) && Progress(off, off, n, 0)
    ensures Looped(s, s, i, off, n, [], 0, l, l, Tally({}, {}, 0, 0))
  {
    WriteStart(s, i, off, l);
    ProgressStart(off, n);
  }

  /** From s to t, one turn of the loop: the bytes of src, unless there is no block, are stored at pos. */
  ghost predicate Turned(s: Fs, t: Fs, i: nat, pos: nat, src: seq<Byte>, was: set<nat>, now: set<nat>, addr: nat, maps: set<nat>) {
    && Stored(s, t, i, pos, src[..if addr == 0 then 0 else |src|]) && Kept(s, t, i)
    && (if addr == 0 then NoneFree(t.role) else Has(t, i, pos / BSIZE))
    && LogBy(s, t, i, was, now, if addr == 0 then {} else {addr}, maps, Fresh(s, i, pos / BSIZE))
  }

  ghost predicate Looped(s: Fs, t: Fs, i: nat, off: nat, n: nat, d: seq<Byte>, tot: nat, was: set<nat>, now: set<nat>, log: Tally) {
    Written(s, t, i, off, n, d, tot) && Tallied(s, t, i, off, n, was, now, log) && Kept(s, t, i)
  }

  lemma Turn(s0: Fs, s1: Fs, t: Fs, i: nat, off: nat, n: nat, src: seq<Byte>, tot: nat, m: nat, e: seq<Byte>,
             l0: set<nat>, l1: set<nat>, l2: set<nat>, log: Tally, addr: nat, maps: set<nat>)
    requires Ok(s0) && i < |s0.inodes| && off <= s0.inodes[i].size && tot < n && tot <= |src| <= n && m == ChunkSize(n - tot, off + tot)
    requires |e| == Min(m, |src| - tot) && e == src[tot..tot + |e|] && Progress(off, off + tot, n, log.turns)
    requires Looped(s0, s1, i, off, n, src[..tot], tot, l0, l1, log) && Turned(s1, t, i, off + tot, e, l1, l2, addr, maps)
    ensures var d, more := if addr == 0 then 0 else |e|, if addr == 0 || |e| < m then 0 else m;
            && tot + d <= |src|
            && Looped(s0, t, i, off, n, src[..tot + d], tot + more, l0, l2, Add(log, addr, maps, Fresh(s1, i, (off + tot) / BSIZE)))
    ensures addr == 0 ==> Ended(t.role, off, n, |src|, tot, tot)
    ensures |e| < m ==> Ended(t.role, off, n, |src|, tot, tot + |e|)
  {
    hide OkBut, Written, Tallied, Stored, LogBy, Kept, NoneFree, Has, Fresh, Ended, Progress, ChunkSize;
    var d, more := if addr == 0 then 0 else |e|, if addr == 0 || |e| < m then 0 else m;
    NextChunk(off, off + tot, n, m, log.turns);
    TurnTallied(s0, s1, t, i, off, off + tot, n, l0, l1, l2, log, addr, maps, src[..tot], tot);
    TurnWritten(s0, s1, t, i, off, off + tot, n, src, tot, e, d, more);
    KeptOn(s0, s1, t, i);
    LoopEnd(t.role, off, n, |src|, tot, m, log.turns);
  }

  lemma TurnTallied(s0: Fs, s1: Fs, t: Fs, i: nat, off: nat, pos: nat, n: nat, l0: set<nat>, l1: set<nat>, l2: set<nat>,
                    log: Tally, addr: nat, maps: set<nat>, d: seq<Byte>, tot: nat)
    requires Ok(s0) && i < |s0.inodes| && off <= s0.inodes[i].size && Written(s0, s1, i, off, n, d, tot) && Tallied(s0, s1, i, off, n, l0, l1, log)
    requires (log.turns == 0 ==> pos == off) && Turns(off, n, log.turns + 1)
    requires LogBy(s1, t, i, l1, l2, if addr == 0 then {} else {addr}, maps, Fresh(s1, i, pos / BSIZE))
    ensures Tallied(s0, t, i, off, n, l0, l2, Add(log, addr, maps, Fresh(s1, i, pos / BSIZE)))
  {
    var D', f := if addr == 0 then {} else {addr}, Fresh(s1, i, pos / BSIZE);
    LogOn(s0, s1, t, i, l0, l1, l2, log.data, D', log.maps, maps, log.news, f);
    Union(log.data, D');
    if off % BSIZE != 0 && log.turns == 0 {
      assert FileOk(s0, i);
      assert off / BSIZE * BSIZE < off;
      assert Has(s0, i, off / BSIZE);
    }
  }

  lemma CoveredOn(s: Fs, t: Fs, i: nat, off: nat, tot: nat, m: nat, d: seq<Byte>)
    requires Covered(s, i, off, tot) && Stored(s, t, i, off + tot, d) && (off + tot) % BSIZE + m <= BSIZE && (m > 0 ==> Has(t, i, (off + tot) / BSIZE))
    ensures Covered(t, i, off, tot + m)
  {
    forall bn | off / BSIZE <= bn && bn * BSIZE < off + (tot + m) ensures Has(t, i, bn) {
      if bn * BSIZE < off + tot {
        assert Has(s, i, bn);
      } else {
        assert bn == (off + tot) / BSIZE;
      }
    }
  }

  /** How many bytes count when the source of a write at off ends after len: whole blocks only. */
  function Counted(off: nat, len: nat): nat {
    if (off + len) / BSIZE * BSIZE <= off then 0 else (off + len) / BSIZE * BSIZE - off
  }

  /** A count of r bytes at off is none or ends with a block. */
  predicate AtEdge(off: nat, r: nat) { r == 0 || (off + r) % BSIZE == 0 }

  /**
    How a write of n bytes at off, of which len can be read, ends.  Either all that can be read is stored; it counts
    if it is all that was asked for, and else up to the last block boundary.  Or the disk is full.
   */
  ghost predicate Ended(role: seq<Role>, off: nat, n: nat, len: nat, r: nat, done: nat) {
    || (done == len && r == if len == n then n else Counted(off, len))
    || (NoneFree(role) && done == r < n && AtEdge(off, r))
  }

  lemma LoopEnd(role: seq<Role>, off: nat, n: nat, len: nat, tot: nat, m: nat, c: nat)
    requires Progress(off, off + tot, n, c) && tot < n && tot <= len <= n && m == ChunkSize(n - tot, off + tot)
    ensures NoneFree(role) ==> Ended(role, off, n, len, tot, tot)
    ensures len < tot + m ==> Ended(role, off, n, len, tot, len)
  {
    assert AtEdge(off, tot);
    if len < tot + m {
      assert (off + len) / BSIZE == (off + tot) / BSIZE;
    }
  }

  lemma LoopDone(role: seq<Role>, off: nat, n: nat, len: nat, tot: nat, done: nat)
    requires Ended(role, off, n, len, tot, done) || (tot == n == done && done <= len <= n)
    ensures Ended(role, off, n, len, tot, done)
  {}

  /** The size is raised to the end of the bytes counted. */
  lemma Finish(s0: Fs, s: Fs, i: nat, off: nat, n: nat, tot: nat, d: seq<Byte>)
    requires Ok(s0) && Ok(s) && i < |s0.inodes| == |s.inodes| && off <= s0.inodes[i].size == s.inodes[i].size && off + tot <= MAXFILE * BSIZE
    requires Written(s0, s, i, off, n, d, tot)
    ensures Ok(Resize(s, i, Max(s.inodes[i].size, off + tot))) && Stored(s0, Resize(s, i, Max(s.inodes[i].size, off + tot)), i, off, d)
    ensures Resize(s, i, s.inodes[i].size) == s
  {
    var size := Max(s.inodes[i].size, off + tot);
    var t := Resize(s, i, size);
    forall bn | 0 <= bn < MAXFILE && bn * BSIZE < size ensures Addr(s.disk, s.inodes[i], bn) != 0 {
      assert FileOk(s, i);
      if bn * BSIZE >= s.inodes[i].size {
        assert off / BSIZE * BSIZE <= off <= bn * BSIZE;
        assert Has(s, i, bn);
      }
    }
    ResizeOk(s, i, size);
    forall j: nat | j != i ensures SameBytes(s0, t, j) {
      assert SameBytes(s0, s, j);
    }
    forall j: nat | j != i ensures SameList(s0, t, j) {
      assert SameList(s0, s, j);
    }
    assert forall bn :: 0 <= bn < MAXFILE ==> Addr(t.disk, t.inodes[i], bn) == Addr(s.disk, s.inodes[i], bn);
    assert forall k :: 0 <= k < MAXFILE * BSIZE ==> ByteAt(t.disk, t.inodes[i], k) == ByteAt(s.disk, s.inodes[i], k);
    assert forall bn :: 0 <= bn < MAXFILE && Has(s, i, bn) ==> Has(t, i, bn);
  }

  /** At most 4 data blocks, a bitmap block for each of 3 of them and for the indirect block, that block and the inode's. */
  lemma Budget(s: Fs, t: Fs, i: nat, off: nat, n: nat, l0: set<nat>, l: set<nat>, iblock: nat, log: Tally)
    requires Tallied(s, t, i, off, n, l0, l, log)
    ensures l0 == {} && n <= 3 * BSIZE ==> |l + {iblock}| <= MAXOPBLOCKS
  {
    if l0 == {} && n <= 3 * BSIZE {
      var D, M, I := log.data, log.maps, IndSet(t, i);
      Subset(l + {iblock}, D + M + I + {iblock});
      Union(D, M);
      Union(D + M, I);
      Union(D + M + I, {iblock});
    }
  }

  lemma Closing(s0: Fs, s: Fs, i: nat, off: nat, n: nat, tot: nat, d: seq<Byte>, l0: set<nat>, l: set<nat>, log: Tally)
    requires Ok(s0) && Ok(s) && i < |s0.inodes| == |s.inodes| && off <= s0.inodes[i].size == s.inodes[i].size && off + tot <= MAXFILE * BSIZE
    requires Looped(s0, s, i, off, n, d, tot, l0, l, log)
    ensures var t := Resize(s, i, Max(s.inodes[i].size, off + tot)); Ok(t) && Stored(s0, t, i, off, d) && Kept(s0, t, i)
    ensures Resize(s, i, s.inodes[i].size) == s
    ensures l0 == {} && n <= 3 * BSIZE ==> |l + {IBlock(s.inodestart, i)}| <= MAXOPBLOCKS
  {
    hide OkBut, Written, Tallied, Stored, Kept;
    Finish(s0, s, i, off, n, tot, d);
    Budget(s0, s, i, off, n, l0, l, IBlock(s.inodestart, i), log);
    ResizeKept(s0, s, i, Max(s.inodes[i].size, off + tot));
  }

  lemma Subset(a: set<nat>, b: set<nat>)
    requires a <= b
    ensures |a| <= |b|
  {
    assert b == a + (b - a) && a !! (b - a);
  }

  /** A turn of writei's loop stores d more bytes of src, m of which count. */
  lemma TurnWritten(s0: Fs, s1: Fs, t: Fs, i: nat, off: nat, pos: nat, n: nat, src: seq<Byte>, tot: nat, e: seq<Byte>, d: nat, m: nat)
    requires pos == off + tot && tot + m <= n && tot + |e| <= |src| && Written(s0, s1, i, off, n, src[..tot], tot)
    requires e == src[tot..tot + |e|] && d <= |e| && Stored(s1, t, i, pos, e[..d])
    requires pos % BSIZE + m <= BSIZE && (m > 0 ==> Has(t, i, pos / BSIZE))
    ensures Written(s0, t, i, off, n, src[..tot + d], tot + m)
  {
    StoredOn(s0, s1, t, i, off, src[..tot], e[..d]);
    assert src[..tot] + e[..d] == src[..tot + d];
    CoveredOn(s1, t, i, off, tot, m, e[..d]);
  }

  // ---------------------------------------------------------------- reading

  lemma ReadMore(file: seq<Byte>, off: nat, tot: nat, k: nat, len: nat)
    requires tot + k <= len && off + len <= |file|
    ensures file[off..off + len][..tot] + file[off + tot..off + tot + k] == file[off..off + len][..tot + k]
  {}

  lemma ReadStart(s: Fs, i: nat)
    requires Ok(s) && i < |s.inodes|
    ensures Shape(s) && s.inodes[i].size <= MAXFILE * BSIZE && |Contents(s, i)| == s.inodes[i].size
  {
    assert FileOk(s, i);
  }

  lemma BlockThere(s: Fs, i: nat, pos: nat)
    requires Ok(s) && i < |s.inodes| && pos < s.inodes[i].size
    ensures pos / BSIZE < MAXFILE && Has(s, i, pos / BSIZE)
  {
    assert FileOk(s, i);
    assert pos / BSIZE * BSIZE <= pos;
  }

  lemma SameMap(s: Fs, t: Fs, i: nat, bn: nat, a: nat, maps: set<nat>, was: set<nat>, now: set<nat>)
    requires Mapped(s, t, i, bn, a) && MapLog(s, t, i, bn, a, maps, was, now) && Has(s, i, bn)
    ensures t == s && now == was && a == Addr(s.disk, s.inodes[i], bn) && 0 < a < |s.disk|
  {}

  lemma ChunkFits(left: nat, pos: nat)
    requires left > 0
    ensures 0 < ChunkSize(left, pos) <= left && pos % BSIZE + ChunkSize(left, pos) <= BSIZE
  {}

  lemma ChunkBytes(s: Fs, i: nat, pos: nat, m: nat)
    requires Ok(s) && i < |s.inodes| && |s.inodes[i].addrs| == NDIRECT + 1 && s.inodes[i].size <= MAXFILE * BSIZE
    requires pos < s.inodes[i].size && pos % BSIZE + m <= BSIZE && pos + m <= s.inodes[i].size && Has(s, i, pos / BSIZE)
    ensures var a := Addr(s.disk, s.inodes[i], pos / BSIZE);
            && 0 < a < |s.disk|
            && s.disk[a][pos % BSIZE..pos % BSIZE + m] == Contents(s, i)[pos..pos + m]
  {
    var a := Addr(s.disk, s.inodes[i], pos / BSIZE);
    assert AddrOk(s, i, pos / BSIZE);
    forall k | pos <= k < pos + m ensures Contents(s, i)[k] == s.disk[a][k - pos + pos % BSIZE] {
      Chunk(pos, m, k);
    }
  }

  // ---------------------------------------------------------------- truncation

  /** The blocks of x below n, and its indirect block if ind, are free; other blocks keep their use. */
  ghost predicate Freed(was: seq<Role>, now: seq<Role>, x: nat, n: nat, ind: bool) {
    |now| == |was| && forall b :: 0 <= b < |was| ==>
      now[b] == if (was[b].Data? && was[b].inum == x && was[b].bn < n) || (ind && was[b] == Ind(x)) then Free else was[b]
  }

  /** Other files read the same. */
  ghost predicate Others(s: Fs, t: Fs, x: nat) {
    Shape(s) && Shape(t) && |t.inodes| == |s.inodes| && forall j: nat :: j != x ==> SameBytes(s, t, j)
  }

  /** Truncation of x has freed its blocks below k, of which n are still named by its indirect block. */
  ghost predicate Trunc(s0: Fs, s: Fs, x: nat, k: nat, n: nat) {
    && Ok(s0) && NoneHeld(s0.role) && OkBut(s, x, n) && k <= MAXFILE
    && x < |s.inodes| && |s.disk| == |s0.disk| && s.bmapstart == s0.bmapstart
    && Freed(s0.role, s.role, x, k, false) && Others(s0, s, x) && Kept(s0, s, x)
    && s.inodes[x].addrs[NDIRECT] == s0.inodes[x].addrs[NDIRECT]
    && forall m :: 0 <= m < NDIRECT ==> s.inodes[x].addrs[m] == if m < k then 0 else s0.inodes[x].addrs[m]
  }

  lemma TruncStart(s: Fs, x: nat)
    requires Ok(s) && NoneHeld(s.role) && x < |s.inodes|
    ensures Trunc(s, s, x, 0, 0)
  {}

  lemma TruncAddr(s0: Fs, s: Fs, x: nat, k: nat)
    requires (k < NDIRECT && Trunc(s0, s, x, k, 0)) || (k >= NDIRECT && Trunc(s0, s, x, k, k - NDIRECT))
    ensures x < |s.inodes| && |s.inodes[x].addrs| == NDIRECT + 1 && s.inodes[x].addrs[NDIRECT] < |s.disk| == |s.role|
    ensures s.inodes[x].addrs[NDIRECT] != 0 ==> s.role[s.inodes[x].addrs[NDIRECT]] == Ind(x)
    ensures k < MAXFILE && Addr(s.disk, s.inodes[x], k) != 0 ==>
              Addr(s.disk, s.inodes[x], k) < |s.disk| && s.role[Addr(s.disk, s.inodes[x], k)] == Data(x, k)
    ensures k < MAXFILE && k >= NDIRECT && s.inodes[x].addrs[NDIRECT] != 0 ==>
              Addr(s.disk, s.inodes[x], k) == Word(s.disk[s.inodes[x].addrs[NDIRECT]], k - NDIRECT)
  {
    assert IndOk(s, x) && (k < MAXFILE ==> AddrOk(s, x, k));
  }

  /** Where there is no block there is nothing to free. */
  lemma TruncNone(s0: Fs, s: Fs, x: nat, k: nat, n: nat)
    requires Trunc(s0, s, x, k, n) && k < MAXFILE && (if k < NDIRECT then n == 0 else n == k - NDIRECT) && Addr(s.disk, s.inodes[x], k) == 0
    ensures Trunc(s0, s, x, k + 1, if k < NDIRECT then 0 else n + 1)
  {
    forall b | 0 <= b < |s.disk| ensures s.role[b] != Data(x, k) {
      assert RoleOk(s, b);
    }
  }

  lemma TruncDrop(s0: Fs, s: Fs, t: Fs, x: nat, k: nat, n: nat, n': nat, a: nat)
    requires Trunc(s0, s, x, k, n) && Dropped(s, t, x, k, a) && OkBut(t, x, n') && k < MAXFILE
    requires forall m :: 0 <= m < NDIRECT ==> t.inodes[x].addrs[m] == if m == k then 0 else s.inodes[x].addrs[m]
    ensures Trunc(s0, t, x, k + 1, n')
  {
    forall j: nat | j != x ensures SameBytes(s0, t, j) {
      DropBytes(s, t, x, k, a, n, j);
      assert SameBytes(s0, s, j);
    }
    KeptOn(s0, s, t, x);
    forall b | 0 <= b < |s0.disk|
      ensures t.role[b] == if s0.role[b].Data? && s0.role[b].inum == x && s0.role[b].bn < k + 1 then Free else s0.role[b]
    {
      if s.role[b] == Data(x, k) {
        assert RoleOk(s, b) && RoleOk(s, a);
      }
    }
  }

  lemma TruncDirect(s0: Fs, s: Fs, t: Fs, x: nat, k: nat, a: nat)
    requires Trunc(s0, s, x, k, 0) && k < NDIRECT && 0 < a < |s.disk| == |s.role| && s.inodes[x].addrs[k] == a && s.role[a] == Data(x, k)
    requires BBlock(s.bmapstart, a) < |s.disk| && t == FreeBlock(s, a).(inodes := s.inodes[x := s.inodes[x].(addrs := s.inodes[x].addrs[k := 0])])
    ensures Trunc(s0, t, x, k + 1, 0)
  {
    ShapeKept(s, t, a, Free);
    DropOk(s, t, x, k, a, 0, 0);
    TruncDrop(s0, s, t, x, k, 0, 0, a);
  }

  lemma TruncFar(s0: Fs, s: Fs, t: Fs, x: nat, j: nat, a: nat)
    requires Trunc(s0, s, x, NDIRECT + j, j) && j < NINDIRECT && 0 < a < |s.disk| == |s.role| && s.role[a] == Data(x, NDIRECT + j)
    requires BBlock(s.bmapstart, a) < |s.disk| && t == FreeBlock(s, a)
    ensures Trunc(s0, t, x, NDIRECT + j + 1, j + 1)
  {
    ShapeKept(s, t, a, Free);
    DropOk(s, t, x, NDIRECT + j, a, j, j + 1);
    TruncDrop(s0, s, t, x, NDIRECT + j, j, j + 1, a);
  }

  /** All blocks are gone; only the size is left. */
  ghost predicate Emptied(s0: Fs, s: Fs, x: nat) {
    && Ok(s0) && NoneHeld(s0.role) && OkBut(s, x, 0) && x < |s.inodes| && |s.disk| == |s0.disk| && s.bmapstart == s0.bmapstart
    && Freed(s0.role, s.role, x, MAXFILE, true) && Others(s0, s, x) && Kept(s0, s, x)
    && forall m :: 0 <= m <= NDIRECT ==> s.inodes[x].addrs[m] == 0
  }

  function NoBlocks(): (a: seq<nat>)
    ensures |a| == NDIRECT + 1 && forall m :: 0 <= m <= NDIRECT ==> a[m] == 0
  {
    [0, 0, 0, 0, 0, 0, 0, 0, 0, 0, 0, 0, 0]
  }

  lemma TruncInd(s0: Fs, s: Fs, t: Fs, x: nat)
    requires Trunc(s0, s, x, MAXFILE, NINDIRECT) && 0 < s.inodes[x].addrs[NDIRECT] < |s.disk| && |s.role| == |s.disk|
    requires BBlock(s.bmapstart, s.inodes[x].addrs[NDIRECT]) < |s.disk| && t == DropInd(s, x)
    ensures Emptied(s0, t, x)
  {
    var a := s.inodes[x].addrs[NDIRECT];
    assert IndOk(s, x);
    forall c, m | 0 <= c < |s.disk| && NDIRECT <= m < MAXFILE ensures s.role[c] != Data(x, m) {}
    DropIndOk(s, x);
    forall j: nat | j != x ensures SameBytes(s0, t, j) {
      assert SameBytes(s0, s, j) && SameBytes(s, t, j);
    }
    forall b | 0 <= b < |s0.disk| && s0.role[b] == Ind(x) ensures b == a {
      assert RoleOk(s0, b);
    }
  }

  lemma TruncNoInd(s0: Fs, s: Fs, x: nat)
    requires Trunc(s0, s, x, NDIRECT, 0) && s.inodes[x].addrs[NDIRECT] == 0
    ensures Emptied(s0, s, x)
  {
    forall b | 0 <= b < |s0.disk| ensures s0.role[b] != Ind(x) && (s0.role[b].Data? && s0.role[b].inum == x ==> s0.role[b].bn < NDIRECT) {
      assert RoleOk(s0, b);
    }
  }

  lemma TruncEnd(s0: Fs, s: Fs, x: nat)
    requires Emptied(s0, s, x)
    ensures Ok(Resize(s, x, 0)) && Others(s0, Resize(s, x, 0), x) && NoneHeld(s.role) && |s.inodes| == |s0.inodes| && Kept(s0, s, x)
    ensures forall bn :: 0 <= bn < MAXFILE ==> !Has(Resize(s, x, 0), x, bn)
    ensures Resize(s, x, 0).inodes == s0.inodes[x := s0.inodes[x].(size := 0, addrs := NoBlocks())]
  {
    var t := Resize(s, x, 0);
    assert s.inodes[x].addrs == NoBlocks();
    ResizeOk(s, x, 0);
    forall j: nat | j != x ensures SameBytes(s0, t, j) {
      assert SameBytes(s0, s, j);
    }
  }

  /** What writei of n bytes at off, of which src can be read, returns and does. */
  ghost predicate WriteOutcome(s: Fs, t: Fs, i: nat, off: nat, n: nat, src: seq<Byte>, r: int, done: nat) {
    && i < |s.inodes| && i < |t.inodes|
    && (off > s.inodes[i].size || off + n > MAXFILE * BSIZE <==> r == -1)
    && (r == -1 ==> t == s)
    && (r != -1 ==>
          && 0 <= r <= done <= |src| && done < r + BSIZE
          && Stored(s, t, i, off, src[..done])
          && t.inodes[i].size == Max(s.inodes[i].size, off + r)
          && Ended(t.role, off, n, |src|, r, done))
  }

  /**
    The count returned is the bytes stored exactly when all of them, or none, could be read or what could be read
    ends with a block.
   */
  lemma CountExact(s: Fs, t: Fs, i: nat, off: nat, n: nat, src: seq<Byte>, r: int, done: nat)
    requires |src| <= n && WriteOutcome(s, t, i, off, n, src, r, done) && r != -1 && !NoneFree(t.role)
    ensures done == r <==> |src| == n || |src| == 0 || (off + |src|) % BSIZE == 0
  {}

  // ---------------------------------------------------------------- what filewrite does

  const CHUNK := 3072           // bytes written by one operation of filewrite

  function FileCounted(off: nat, len: nat): nat { len / CHUNK * CHUNK + Counted(off + len / CHUNK * CHUNK, len % CHUNK) }

  /** How a file write of n bytes at off, of which len can be read, to a file of `size` bytes ends. */
  ghost predicate FileEnded(size: nat, role: seq<Role>, off: nat, n: nat, len: nat, k: nat, done: nat) {
    || (done == len && k == if len == n then n else FileCounted(off, len))
    || (done == k < n && (NoneFree(role) || off + n > MAXFILE * BSIZE || off > size))
  }

  lemma FileDone(size: nat, role: seq<Role>, off: nat, n: nat, len: nat, k: nat, done: nat)
    requires FileEnded(size, role, off, n, len, k, done) || (k == n == done && done <= len <= n)
    ensures FileEnded(size, role, off, n, len, k, done)
  {}

  /** The same for filewrite, whose operations each count whole blocks. */
  lemma FileCountExact(size: nat, role: seq<Role>, off: nat, n: nat, len: nat, k: nat, done: nat)
    requires len <= n && FileEnded(size, role, off, n, len, k, done) && off <= size && off + n <= MAXFILE * BSIZE && !NoneFree(role)
    ensures done == k <==> len == n || len % CHUNK == 0 || (off + len) % BSIZE == 0
  {
    var c := len / CHUNK * CHUNK;
    assert off + c + len % CHUNK == off + len;
  }

  /** The state after an operation, and what the operation gave to log_write. */
  datatype Image = Image(fs: Fs, writes: seq<Write>)

  /** The disk is the one before with the logged blocks put in place. */
  ghost predicate OpLogged(was: seq<Block>, image: Image) {
    Within(image.writes, |was|) && Replay(was, image.writes) == image.fs.disk && |Blocks(image.writes)| <= MAXOPBLOCKS
  }

  /** u is s with the first c bytes of src written. */
  ghost predicate ChunkAt(s: Fs, u: Fs, i: nat, off: nat, src: seq<Byte>, c: nat) {
    c <= |src| && Ok(u) && FileOutcome(s, u, i, off, src[..c], c) && Saves(s, u, i)
  }

  function Min(a: nat, b: nat): nat { if a < b then a else b }

  /** Each state of a file write is the one before with one operation's writes, and holds a whole number of chunks of src. */
  ghost predicate Chunks(trace: seq<Image>, i: nat, off: nat, src: seq<Byte>, k: nat) {
    && |trace| > 0
    && (forall j :: 0 <= j < |trace| ==> ChunkAt(trace[0].fs, trace[j].fs, i, off, src, Min(j * CHUNK, k)))
    && forall j :: 0 < j < |trace| ==> OpLogged(trace[j - 1].fs.disk, trace[j])
  }

  lemma ChunksOn(trace: seq<Image>, i: nat, off: nat, src: seq<Byte>, c: nat, image: Image, c': nat)
    requires Chunks(trace, i, off, src, c) && c == (|trace| - 1) * CHUNK && c <= c' <= c + CHUNK
    requires c' <= |src| && Ok(image.fs) && FileOutcome(trace[0].fs, image.fs, i, off, src[..c'], c') && Saves(trace[|trace| - 1].fs, image.fs, i)
    requires OpLogged(trace[|trace| - 1].fs.disk, image)
    ensures Chunks(trace + [image], i, off, src, c')
  {
    hide FileOutcome, OpLogged, OkBut, Saves;
    var now, T := trace + [image], |trace|;
    assert ChunkAt(trace[0].fs, trace[T - 1].fs, i, off, src, Min((T - 1) * CHUNK, c));
    SavesOn(trace[0].fs, trace[T - 1].fs, image.fs, i);
    forall j | 0 <= j < |now| ensures ChunkAt(now[0].fs, now[j].fs, i, off, src, Min(j * CHUNK, c')) {
      if j < T {
        assert ChunkAt(trace[0].fs, trace[j].fs, i, off, src, Min(j * CHUNK, c));
        assert j * CHUNK <= c;
      } else {
        assert j * CHUNK == c + CHUNK;
      }
    }
    forall j | 0 < j < |now| ensures OpLogged(now[j - 1].fs.disk, now[j]) {
      if j < T {
        assert OpLogged(trace[j - 1].fs.disk, trace[j]);
      }
    }
  }

  lemma SavesOn(s: Fs, t: Fs, u: Fs, i: nat)
    requires Saves(s, t, i) && Saves(t, u, i)
    ensures Saves(s, u, i)
  {}

  /** After k bytes of a file write at off are counted and d stored. */
  ghost predicate FileOutcome(s: Fs, t: Fs, i: nat, off: nat, d: seq<Byte>, k: nat) {
    && i < |s.inodes| && i < |t.inodes|
    && (off > s.inodes[i].size ==> t == s && k == 0 && d == [])
    && (off <= s.inodes[i].size ==> Stored(s, t, i, off, d) && t.inodes[i].size == Max(s.inodes[i].size, off + k))
  }

  lemma FileStart(s: Fs, i: nat, off: nat, src: seq<Byte>, trace: seq<Image>)
    requires Ok(s) && i < |s.inodes| && trace == [Image(s, [])]
    ensures FileOutcome(s, s, i, off, [], 0) && Chunks(trace, i, off, src, 0) && Saves(s, s, i)
  {
    assert src[..0] == [];
    assert ChunkAt(s, s, i, off, src, Min(0 * CHUNK, 0));
  }

  /** A turn of filewrite's loop. */
  lemma FileTurn(s0: Fs, s1: Fs, t: Fs, i: nat, off: nat, src: seq<Byte>, n: nat, c: nat, e: seq<Byte>, n1: nat, r: int, d: nat, q: nat)
    requires c == q * CHUNK && c <= |src| <= n && n1 == Min(CHUNK, n - c) > 0 && |e| == Min(n1, |src| - c) && e == src[c..c + |e|]
    requires FileOutcome(s0, s1, i, off, src[..c], c) && WriteOutcome(s1, t, i, off + c, n1, e, r, d)
    ensures -1 <= r <= n1 && (r >= 0 ==> r <= d <= |e| && d < r + BSIZE) && (r == n1 ==> d == r)
    ensures FileOutcome(s0, t, i, off, src[..c + if r < 0 then 0 else d], c + if r < 0 then 0 else r)
    ensures |src| == n && r >= 0 ==> d == r
    ensures r != n1 ==> FileEnded(s0.inodes[i].size, t.role, off, n, |src|, c + (if r < 0 then 0 else r), c + if r < 0 then 0 else d)
  {
    hide Stored;
    if r >= 0 {
      if off <= s0.inodes[i].size {
        StoredOn(s0, s1, t, i, off, src[..c], e[..d]);
      }
      assert src[..c] + e[..d] == src[..c + d];
      if r != n1 {
        TurnEnds(s0.inodes[i].size, t.role, off, n, |src|, q, n1, r, d);
      }
    }
  }

  /** A write that does not count all of its chunk is the last. */
  lemma TurnEnds(size: nat, role: seq<Role>, off: nat, n: nat, len: nat, q: nat, n1: nat, r: nat, d: nat)
    requires q * CHUNK <= len <= n && n1 == Min(CHUNK, n - q * CHUNK) > 0 && r != n1
    requires Ended(role, off + q * CHUNK, n1, Min(n1, len - q * CHUNK), r, d)
    ensures FileEnded(size, role, off, n, len, q * CHUNK + r, q * CHUNK + d) && (len == n ==> d == r)
  {
    var e := Min(n1, len - q * CHUNK);
    if e < n1 && d == e {
      assert len / CHUNK == q && len % CHUNK == e;
    }
  }

  // ---------------------------------------------------------------- what it means

  /** The file reads as its old contents with d written at off; other files read as before. */
  lemma WriteContents(s: Fs, t: Fs, i: nat, off: nat, d: seq<Byte>, j: nat)
    requires Ok(s) && Ok(t) && Stored(s, t, i, off, d) && off <= s.inodes[i].size && t.inodes[i].size == Max(s.inodes[i].size, off + |d|)
    requires j < |s.inodes| && s.inodes[j].size <= MAXFILE * BSIZE && t.inodes[j].size <= MAXFILE * BSIZE
    ensures Contents(t, j) == if j == i then WriteAt(Contents(s, j), off, d) else Contents(s, j)
  {
    if j != i {
      assert SameBytes(s, t, j);
    } else {
      var a, b := Contents(t, i), WriteAt(Contents(s, i), off, d);
      assert |a| == |b|;
      forall k | 0 <= k < |a| ensures a[k] == b[k] {
        assert a[k] == ByteAt(t.disk, t.inodes[i], k);
      }
    }
  }

  /** The counted bytes are in the file where they were written. */
  lemma WrittenBack(s: Fs, t: Fs, i: nat, off: nat, src: seq<Byte>, r: nat, done: nat)
    requires Ok(t) && r <= done <= |src| && Stored(s, t, i, off, src[..done]) && i < |t.inodes| && off + r <= t.inodes[i].size
    ensures |t.inodes[i].addrs| == NDIRECT + 1 && t.inodes[i].size <= MAXFILE * BSIZE && Contents(t, i)[off..off + r] == src[..r]
  {
    assert FileOk(t, i);
    var a := Contents(t, i);
    forall k | off <= k < off + r ensures a[k] == src[k - off] {
      assert a[k] == ByteAt(t.disk, t.inodes[i], k);
    }
  }

  /**
    Exact ownership: a block's bit is set just when it is fixed or in an inode's list or an indirect block, and no
    block is in two places.
   */
  lemma Ownership(s: Fs, b: nat)
    requires Ok(s) && NoneHeld(s.role) && 0 < b < |s.disk|
    ensures InUse(s, b) <==>
              s.role[b] == Fixed || (exists i, bn :: Names(s, i, bn, b)) || (exists i :: NamesInd(s, i, b))
    ensures forall i, bn, j, m :: Names(s, i, bn, b) && Names(s, j, m, b) ==> i == j && bn == m
    ensures forall i, j :: NamesInd(s, i, b) && NamesInd(s, j, b) ==> i == j
    ensures !((exists i, bn :: Names(s, i, bn, b)) && (exists j :: NamesInd(s, j, b)))
    ensures (exists i, bn :: Names(s, i, bn, b)) || (exists j :: NamesInd(s, j, b)) ==> s.role[b] != Fixed
  {
    assert BitOk(s, b) && RoleOk(s, b);
    match s.role[b] {
      case Data(i, bn) => assert Names(s, i, bn, b);
      case Ind(i) => assert NamesInd(s, i, b);
      case _ =>
    }
    forall i, bn | Names(s, i, bn, b) ensures s.role[b] == Data(i, bn) {
      assert AddrOk(s, i, bn);
    }
    forall i | NamesInd(s, i, b) ensures s.role[b] == Ind(i) {
      assert IndOk(s, i);
    }
  }

  ghost predicate Names(s: Fs, i: int, bn: int, b: nat)
    requires Shape(s)
  {
    0 <= i < |s.inodes| && 0 <= bn < MAXFILE && Addr(s.disk, s.inodes[i], bn) == b
  }

  ghost predicate NamesInd(s: Fs, i: int, b: nat)
    requires Shape(s)
  {
    0 <= i < |s.inodes| && s.inodes[i].addrs[NDIRECT] == b
  }
}
