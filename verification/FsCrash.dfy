/**
  A file write over the log: whenever the machine stops, the file on the recovered disk holds a whole number of the
  write's chunks, and the other files are as they were.
 */
module FsCrash {
  import opened FsLayout
  import opened FsState
  import opened FsCode
  import L = LogProtocol
  import LogSafety
  import LogOrder

  // ---------------------------------------------------------------- blocks as words

  function Words(b: Block): L.Block { seq(L.BWORDS, j requires 0 <= j < L.BWORDS => Word(b, j)) }

  function WordDisk(d: seq<Block>): (r: L.Disk)
    ensures |r| == |d|
  {
    seq(|d|, b requires 0 <= b < |d| => Words(d[b]))
  }

  lemma FourBytes(a: Byte, b: Byte, c: Byte, d: Byte, a': Byte, b': Byte, c': Byte, d': Byte)
    requires a as nat + 0x100 * b + 0x1_0000 * c + 0x100_0000 * d == a' as nat + 0x100 * b' + 0x1_0000 * c' + 0x100_0000 * d'
    ensures a == a' && b == b' && c == c' && d == d'
  {}

  /** The words of a block determine it. */
  lemma WordsDetermine(b: Block, c: Block)
    requires Words(b) == Words(c)
    ensures b == c
  {
    forall k | 0 <= k < BSIZE ensures b[k] == c[k] {
      var j := k / 4;
      assert Words(b)[j] == Words(c)[j];
      FourBytes(b[4 * j], b[4 * j + 1], b[4 * j + 2], b[4 * j + 3], c[4 * j], c[4 * j + 1], c[4 * j + 2], c[4 * j + 3]);
    }
  }

  function Updates(op: nat, ws: seq<Write>): seq<L.Update> {
    seq(|ws|, q requires 0 <= q < |ws| => L.Update(op, ws[q].blk, Words(ws[q].data)))
  }

  lemma {:induction false} ReplayApplies(d: seq<Block>, op: nat, ws: seq<Write>)
    requires Within(ws, |d|)
    ensures L.Apply(WordDisk(d), Updates(op, ws)) == WordDisk(Replay(d, ws))
  {
    if ws != [] {
      var n := |ws| - 1;
      ReplayApplies(d, op, ws[..n]);
      assert Updates(op, ws)[..n] == Updates(op, ws[..n]);
    }
  }

  // ---------------------------------------------------------------- the states of a file write

  /** The writes of its operations, the j-th of which is operation ops[j] of the log. */
  function Ops(trace: seq<Image>, ops: seq<nat>): seq<seq<L.Update>>
    requires |trace| == |ops| + 1
  {
    seq(|ops|, j requires 0 <= j < |ops| => Updates(ops[j], trace[j + 1].writes))
  }

  predicate AllWithin(us: seq<L.Update>, n: nat) { forall q :: 0 <= q < |us| ==> us[q].blk < n }

  lemma {:induction false} TraceApplies(trace: seq<Image>, i: nat, off: nat, src: seq<Byte>, k: nat, ops: seq<nat>, m: nat)
    requires Chunks(trace, i, off, src, k) && |trace| == |ops| + 1 && m <= |ops|
    ensures var us := L.Flatten(Ops(trace, ops)[..m]);
            && |trace[m].fs.disk| == |trace[0].fs.disk| && AllWithin(us, |trace[0].fs.disk|)
            && L.Apply(WordDisk(trace[0].fs.disk), us) == WordDisk(trace[m].fs.disk)
  {
    hide Chunks, Words, Replay, L.Apply;
    var uss := Ops(trace, ops);
    if m == 0 {
      NoUpdates(WordDisk(trace[0].fs.disk));
    } else {
      TraceApplies(trace, i, off, src, k, ops, m - 1);
      OpOf(trace, i, off, src, k, m);
      assert uss[..m][..m - 1] == uss[..m - 1] && uss[..m][m - 1] == uss[m - 1];
      ReplayApplies(trace[m - 1].fs.disk, ops[m - 1], trace[m].writes);
      L.ApplyAppend(WordDisk(trace[0].fs.disk), L.Flatten(uss[..m - 1]), uss[m - 1]);
    }
  }

  lemma OpOf(trace: seq<Image>, i: nat, off: nat, src: seq<Byte>, k: nat, m: nat)
    requires Chunks(trace, i, off, src, k) && 0 < m < |trace|
    ensures OpLogged(trace[m - 1].fs.disk, trace[m])
  {}

  lemma NoUpdates(d: L.Disk)
    ensures L.Apply(d, []) == d
  {}

  lemma {:induction false} ApplyHome(start: nat, d: L.Disk, e: L.Disk, us: seq<L.Update>)
    requires L.EqHome(start, d, e) && AllWithin(us, |d|)
    ensures L.EqHome(start, L.Apply(d, us), L.Apply(e, us))
  {
    if us != [] {
      ApplyHome(start, d, e, us[..|us| - 1]);
    }
  }

  // ---------------------------------------------------------------- files on a disk

  /** The file a kernel that starts on this disk finds under inode number i. */
  function FileOn(e: seq<Block>, inodestart: nat, i: nat): seq<Byte>
    requires IBlock(inodestart, i) < |e|
  {
    var n := GetInode(e[IBlock(inodestart, i)], i % IPB);
    if n.size > MAXFILE * BSIZE then [] else seq(n.size, k requires 0 <= k < n.size => ByteAt(e, n, k))
  }

  /** The blocks of the log lie before the inodes and are used for nothing else. */
  ghost predicate LogArea(s: Fs, start: nat) {
    start + L.LOGBLOCKS < s.inodestart && start + L.LOGBLOCKS < |s.role| && forall b :: start <= b <= start + L.LOGBLOCKS ==> s.role[b] == Fixed
  }

  lemma FileRead(s: Fs, e: seq<Block>, start: nat, i: nat)
    requires Ok(s) && AllSaved(s) && LogArea(s, start) && i < |s.inodes| && |e| == |s.disk|
    requires forall b :: L.IsHome(start, |e|, b) ==> e[b] == s.disk[b]
    ensures IBlock(s.inodestart, i) < |e| && s.inodes[i].size <= MAXFILE * BSIZE && FileOn(e, s.inodestart, i) == Contents(s, i)
  {
    assert InoFixed(s, i) && Saved(s, i) && FileOk(s, i) && IndOk(s, i);
    assert L.IsHome(start, |e|, IBlock(s.inodestart, i));
    var n := s.inodes[i];
    forall k | 0 <= k < n.size ensures ByteAt(e, n, k) == ByteAt(s.disk, n, k) {
      assert k / BSIZE < MAXFILE;
      assert AddrOk(s, i, k / BSIZE);
      assert Addr(e, n, k / BSIZE) == Addr(s.disk, n, k / BSIZE);
    }
  }

  /** Recovery makes e of the disk that state t leaves. */
  ghost predicate Recovers(t: L.State, e: seq<Block>) {
    L.WfHead(t.disk, t.start) && L.EqHome(t.start, WordDisk(e), L.Recover(t.disk, t.start))
  }

  lemma SameHome(start: nat, d: seq<Block>, e: seq<Block>)
    requires L.EqHome(start, WordDisk(d), WordDisk(e))
    ensures |d| == |e| && forall b :: L.IsHome(start, |d|, b) ==> d[b] == e[b]
  {
    forall b | L.IsHome(start, |d|, b) ensures d[b] == e[b] {
      assert WordDisk(d)[b] == WordDisk(e)[b];
      WordsDetermine(d[b], e[b]);
    }
  }

  /**
    A run of the log in which only the operations of a file write take part, stopped anywhere, crashed and recovered any
    number of times: what is recovered is the state after m of the operations, with all those that were committed.
   */
  lemma RecoveredState(s: L.State, es: seq<L.Step>, ops: seq<nat>, trace: seq<Image>, i: nat, off: nat, src: seq<Byte>, k: nat, e: seq<Block>)
    returns (m: nat)
    requires L.Legal(s, es) && LogOrder.OneBoot(es) && Recovers(L.Exec(s, es), e)
    requires Chunks(trace, i, off, src, k) && L.EqHome(s.start, s.disk, WordDisk(trace[0].fs.disk))
    requires |trace| == |ops| + 1 && LogOrder.Performs(es, ops, Ops(trace, ops))
    ensures m <= |ops| && L.Exec(s, es).start == s.start && L.EqHome(s.start, WordDisk(e), WordDisk(trace[m].fs.disk))
    ensures forall j :: 0 <= j < |ops| && ops[j] in L.Exec(s, es).book.durable && trace[j + 1].writes != [] ==> j < m
  {
    var t, uss := L.Exec(s, es), Ops(trace, ops);
    m := LogOrder.CrashBetweenOperations(s, es, ops, uss);
    OriginIs(s, es);
    TraceApplies(trace, i, off, src, k, ops, m);
    ApplyHome(s.start, s.disk, WordDisk(trace[0].fs.disk), L.Flatten(uss[..m]));
    forall j | 0 <= j < |ops| && ops[j] in t.book.durable && trace[j + 1].writes != [] ensures j < m {
      assert |uss[j]| == |trace[j + 1].writes|;
    }
  }

  lemma {:induction false} OriginIs(s: L.State, es: seq<L.Step>)
    requires L.Legal(s, es)
    ensures L.Exec(s, es).origin == s.disk && L.Exec(s, es).start == s.start
  {
    if es != [] {
      OriginIs(s, es[..|es| - 1]);
    }
  }

  lemma ChunkOf(trace: seq<Image>, i: nat, off: nat, src: seq<Byte>, k: nat, m: nat)
    requires Chunks(trace, i, off, src, k) && m < |trace|
    ensures ChunkAt(trace[0].fs, trace[m].fs, i, off, src, Min(m * CHUNK, k))
  {}

  /** The file then holds the first m chunks of what was written, and every other file is as it was. */
  lemma WholeChunks(s: L.State, es: seq<L.Step>, ops: seq<nat>, trace: seq<Image>, i: nat, off: nat, src: seq<Byte>, k: nat, e: seq<Block>)
    returns (m: nat)
    requires L.Legal(s, es) && LogOrder.OneBoot(es) && Recovers(L.Exec(s, es), e)
    requires Chunks(trace, i, off, src, k) && L.EqHome(s.start, s.disk, WordDisk(trace[0].fs.disk))
    requires |trace| == |ops| + 1 && LogOrder.Performs(es, ops, Ops(trace, ops))
    requires Ok(trace[0].fs) && AllSaved(trace[0].fs) && LogArea(trace[0].fs, s.start) && i < |trace[0].fs.inodes| && off <= trace[0].fs.inodes[i].size
    ensures m <= |ops| && forall j :: 0 <= j < |ops| && ops[j] in L.Exec(s, es).book.durable && trace[j + 1].writes != [] ==> j < m
    ensures Min(m * CHUNK, k) <= |src|
    ensures forall x: nat :: x < |trace[0].fs.inodes| ==> FileAfter(trace[0].fs, e, i, off, src[..Min(m * CHUNK, k)], x)
  {
    hide Words, OkBut, Chunks, AllSaved, LogArea, FileAfter, FileOutcome, Saves, LogOrder.Performs, LogOrder.OneBoot, L.EqHome, L.Legal, L.Exec, Recovers;
    var s0 := trace[0].fs;
    m := RecoveredState(s, es, ops, trace, i, off, src, k, e);
    var u := trace[m].fs;
    var c := Min(m * CHUNK, k);
    SameHome(s.start, e, u.disk);
    ChunkOf(trace, i, off, src, k, m);
    forall x: nat | x < |s0.inodes| ensures FileAfter(s0, e, i, off, src[..c], x) {
      ChunkFile(s0, u, e, s.start, i, off, src[..c], x);
    }
  }

  /** On disk e, file x of s reads as before or, if it is i, with d written at off. */
  ghost predicate FileAfter(s: Fs, e: seq<Block>, i: nat, off: nat, d: seq<Byte>, x: nat) {
    && x < |s.inodes| && |s.inodes[x].addrs| == NDIRECT + 1 && s.inodes[x].size <= MAXFILE * BSIZE && IBlock(s.inodestart, x) < |e|
    && (x == i ==> off <= |Contents(s, x)|)
    && FileOn(e, s.inodestart, x) == if x == i then WriteAt(Contents(s, x), off, d) else Contents(s, x)
  }

  lemma ChunkFile(s: Fs, u: Fs, e: seq<Block>, start: nat, i: nat, off: nat, d: seq<Byte>, x: nat)
    requires Ok(s) && Ok(u) && AllSaved(s) && LogArea(s, start) && i < |s.inodes| && off <= s.inodes[i].size && x < |s.inodes|
    requires FileOutcome(s, u, i, off, d, |d|) && Saves(s, u, i)
    requires |e| == |u.disk| && forall b :: L.IsHome(start, |e|, b) ==> e[b] == u.disk[b]
    ensures FileAfter(s, e, i, off, d, x)
  {
    assert FileOk(s, x) && FileOk(u, x);
    FileRead(u, e, start, x);
    WriteContents(s, u, i, off, d, x);
  }
}
