/**
  The buffer cache of kernel/bio.c: a circular doubly linked list of NBUF buffers in order of last use, in front
  of the disk.  Every method is one stretch of code under bcache.lock or under a buffer's sleeplock.
 */
module Bio {

  const NBUF := 30
  const HEAD := 30          // bcache.head, as an index beside the buffers

  type Data = seq<int>

  datatype Key = Key(dev: nat, blockno: nat)

  datatype Buf = Buf(key: Key, valid: bool, refcnt: nat, data: Data)

  // ---------------------------------------------------------------- the ring

  function Succ(c: seq<nat>, i: nat): nat
    requires i < |c|
  {
    if i + 1 < |c| then c[i + 1] else c[0]
  }

  /** Element i of the ring and the one after it point to each other. */
  ghost predicate LinkAt(c: seq<nat>, next: seq<nat>, prev: seq<nat>, i: nat)
    requires i < |c|
  {
    c[i] < |next| && Succ(c, i) < |prev| && next[c[i]] == Succ(c, i) && prev[Succ(c, i)] == c[i]
  }

  /** c is the ring that begins with HEAD. */
  ghost predicate Ring(c: seq<nat>, next: seq<nat>, prev: seq<nat>) {
    && |next| == NBUF + 1 && |prev| == NBUF + 1 && |c| >= 1 && c[0] == HEAD
    && (forall i :: 0 <= i < |c| ==> LinkAt(c, next, prev, i))
    && (forall i, j :: 0 <= i < j < |c| ==> c[i] != c[j])
  }

  function Front(c: seq<nat>, b: nat): seq<nat>
    requires |c| >= 1
  {
    [c[0], b] + c[1..]
  }

  function Cut(c: seq<nat>, k: nat): seq<nat>
    requires k < |c|
  {
    c[..k] + c[k + 1..]
  }

  /** The stores of binit and brelse link a buffer in right after the head: it becomes the most recently used. */
  lemma InsertFront(c: seq<nat>, next: seq<nat>, prev: seq<nat>, b: nat)
    requires Ring(c, next, prev) && b < NBUF && b !in c
    ensures next[HEAD] < NBUF + 1
    ensures Ring(Front(c, b), next[b := next[HEAD]][HEAD := b], prev[b := HEAD][next[HEAD] := b])
  {
    assert LinkAt(c, next, prev, 0);
    var n', p', c' := next[b := next[HEAD]][HEAD := b], prev[b := HEAD][next[HEAD] := b], Front(c, b);
    assert forall i :: 0 <= i < |c'| ==> c'[i] == if i == 0 then HEAD else if i == 1 then b else c[i - 1];
    forall i | 0 <= i < |c'| ensures LinkAt(c', n', p', i) {
      if i >= 1 {
        assert LinkAt(c, next, prev, i - 1);
      }
    }
  }

  /** The stores of brelse take a buffer out of the ring and leave the order of the others. */
  lemma CutOut(c: seq<nat>, next: seq<nat>, prev: seq<nat>, k: nat)
    requires Ring(c, next, prev) && 0 < k < |c|
    ensures c[k] < NBUF + 1 && next[c[k]] < NBUF + 1 && prev[c[k]] < NBUF + 1 && c[k] !in Cut(c, k)
    ensures Ring(Cut(c, k), next[prev[c[k]] := next[c[k]]], prev[next[c[k]] := prev[c[k]]])
  {
    var c' := Cut(c, k);
    assert LinkAt(c, next, prev, k) && LinkAt(c, next, prev, k - 1);
    var n', p' := next[prev[c[k]] := next[c[k]]], prev[next[c[k]] := prev[c[k]]];
    assert forall i :: 0 <= i < |c'| ==> c'[i] == c[if i < k then i else i + 1];
    forall i | 0 <= i < |c'| ensures LinkAt(c', n', p', i) {
      var j := if i < k then i else i + 1;
      assert LinkAt(c, next, prev, j);
    }
  }

  // ---------------------------------------------------------------- buffers and the disk

  type Disk = map<Key, Data>

  /**
    The count is pins plus references, of which whoever has the buffer locked holds one.  What a buffer of a real
    device holds is current; where the disk is not, the buffer is locked or pinned.
   */
  ghost predicate BufOk(buf: Buf, locked: bool, pins: nat, disk: Disk, latest: Disk) {
    && pins <= buf.refcnt && (locked ==> pins < buf.refcnt)
    && (buf.key.dev != 0 ==>
          && buf.key in disk && buf.key in latest
          && (buf.valid ==> buf.data == latest[buf.key])
          && (disk[buf.key] != latest[buf.key] ==> buf.valid && (locked || pins > 0)))
  }

  /** The disk has what the buffer's block should have. */
  ghost predicate Current(buf: Buf, disk: Disk, latest: Disk) {
    buf.key.dev != 0 ==> buf.key in disk && buf.key in latest && disk[buf.key] == latest[buf.key]
  }

  /** A buffer without references, which may be recycled at any time, never holds what the disk does not have. */
  lemma UnreferencedIsCurrent(buf: Buf, locked: bool, pins: nat, disk: Disk, latest: Disk)
    requires BufOk(buf, locked, pins, disk, latest) && buf.refcnt == 0
    ensures Current(buf, disk, latest) && !locked && pins == 0
  {}

  ghost predicate Caches(bufs: seq<Buf>, b: int, key: Key) {
    0 <= b < |bufs| && bufs[b].key == key
  }

  /** A block of which the disk is not current is in the cache. */
  ghost predicate KeyOk(bufs: seq<Buf>, disk: Disk, latest: Disk, key: Key) {
    key.dev != 0 && key in disk && key in latest && disk[key] != latest[key] ==> exists b :: Caches(bufs, b, key)
  }

  ghost predicate CacheOk(bufs: seq<Buf>, locked: seq<bool>, pins: seq<nat>, disk: Disk, latest: Disk) {
    && |bufs| == |locked| == |pins| == NBUF && disk.Keys == latest.Keys
    && (forall b :: 0 <= b < NBUF ==> BufOk(bufs[b], locked[b], pins[b], disk, latest))
    && (forall a, b :: 0 <= a < b < NBUF && bufs[a].key == bufs[b].key ==> bufs[a].key.dev == 0)
    && (forall key :: KeyOk(bufs, disk, latest, key))
  }

  /** A change of one buffer that keeps its block. */
  lemma SetBuf(bufs: seq<Buf>, locked: seq<bool>, pins: seq<nat>, disk: Disk, latest: Disk, b: nat, buf: Buf, l: bool, n: nat)
    requires CacheOk(bufs, locked, pins, disk, latest) && b < NBUF && buf.key == bufs[b].key && BufOk(buf, l, n, disk, latest)
    ensures CacheOk(bufs[b := buf], locked[b := l], pins[b := n], disk, latest)
  {
    var bufs' := bufs[b := buf];
    forall key ensures KeyOk(bufs', disk, latest, key) {
      assert KeyOk(bufs, disk, latest, key);
      if a :| Caches(bufs, a, key) {
        assert Caches(bufs', a, key);
      }
    }
  }

  /** An unreferenced buffer takes on a block that is not cached. */
  lemma Recycle(bufs: seq<Buf>, locked: seq<bool>, pins: seq<nat>, disk: Disk, latest: Disk, b: nat, key: Key)
    requires CacheOk(bufs, locked, pins, disk, latest) && b < NBUF && bufs[b].refcnt == 0 && key.dev != 0 && key in disk
    requires forall a :: !Caches(bufs, a, key)
    ensures CacheOk(bufs[b := Buf(key, false, 1, bufs[b].data)], locked, pins, disk, latest)
  {
    var bufs' := bufs[b := Buf(key, false, 1, bufs[b].data)];
    assert KeyOk(bufs, disk, latest, key);
    assert BufOk(bufs[b], locked[b], pins[b], disk, latest);
    forall a, c | 0 <= a < c < NBUF && bufs'[a].key == bufs'[c].key ensures bufs'[a].key.dev == 0 {
      assert !Caches(bufs, a, key) && !Caches(bufs, c, key);
    }
    forall k ensures KeyOk(bufs', disk, latest, k) {
      assert KeyOk(bufs, disk, latest, k);
      if a :| Caches(bufs, a, k) {
        assert a != b ==> Caches(bufs', a, k);
      }
    }
  }

  /** A client changes the data of a buffer it has locked. */
  lemma Update(bufs: seq<Buf>, locked: seq<bool>, pins: seq<nat>, disk: Disk, latest: Disk, b: nat, data: Data)
    requires CacheOk(bufs, locked, pins, disk, latest) && b < NBUF && locked[b] && bufs[b].valid && bufs[b].key.dev != 0
    ensures CacheOk(bufs[b := bufs[b].(data := data)], locked, pins, disk, latest[bufs[b].key := data])
  {
    var key := bufs[b].key;
    var bufs', latest' := bufs[b := bufs[b].(data := data)], latest[key := data];
    assert BufOk(bufs[b], locked[b], pins[b], disk, latest);
    forall a | 0 <= a < NBUF ensures BufOk(bufs'[a], locked[a], pins[a], disk, latest') {
      assert BufOk(bufs[a], locked[a], pins[a], disk, latest);
    }
    forall k ensures KeyOk(bufs', disk, latest', k) {
      assert KeyOk(bufs, disk, latest, k) && Caches(bufs', b, key);
      if a :| Caches(bufs, a, k) {
        assert Caches(bufs', a, k);
      }
    }
  }

  /** A valid buffer is written to the disk. */
  lemma WriteOut(bufs: seq<Buf>, locked: seq<bool>, pins: seq<nat>, disk: Disk, latest: Disk, b: nat)
    requires CacheOk(bufs, locked, pins, disk, latest) && b < NBUF && bufs[b].valid && bufs[b].key.dev != 0
    ensures CacheOk(bufs, locked, pins, disk[bufs[b].key := bufs[b].data], latest)
  {
    var disk' := disk[bufs[b].key := bufs[b].data];
    assert BufOk(bufs[b], locked[b], pins[b], disk, latest);
    forall a | 0 <= a < NBUF ensures BufOk(bufs[a], locked[a], pins[a], disk', latest) {
      assert BufOk(bufs[a], locked[a], pins[a], disk, latest);
    }
    forall k ensures KeyOk(bufs, disk', latest, k) {
      assert KeyOk(bufs, disk, latest, k);
    }
  }

  // ---------------------------------------------------------------- the cache

  class Bcache {
    var next: seq<nat>
    var prev: seq<nat>
    var bufs: seq<Buf>
    var locked: seq<bool>       // the buffers' sleeplocks
    var disk: Disk
    ghost var ring: seq<nat>    // HEAD, then the buffers from most to least recently used
    ghost var latest: Disk      // what clients have last put into each block
    ghost var pins: seq<nat>    // how many of a buffer's references are pins of the log

    ghost predicate Valid()
      reads this
    {
      && Ring(ring, next, prev) && (forall b :: 0 <= b < NBUF ==> b in ring)
      && CacheOk(bufs, locked, pins, disk, latest)
    }

    /** binit. */
    constructor (disk: Disk)
      ensures Valid() && this.disk == disk && latest == disk && forall b :: 0 <= b < NBUF ==> bufs[b].refcnt == 0 && pins[b] == 0
    {
      next, prev := seq(NBUF + 1, _ => HEAD), seq(NBUF + 1, _ => HEAD);
      bufs, locked := seq(NBUF, _ => Buf(Key(0, 0), false, 0, [])), seq(NBUF, _ => false);
      this.disk, latest, ring, pins := disk, disk, [HEAD], seq(NBUF, _ => 0);
      new;
      assert LinkAt(ring, next, prev, 0);
      var b := 0;
      while b < NBUF
        invariant 0 <= b <= NBUF && Ring(ring, next, prev) && forall a :: a in ring <==> a == HEAD || 0 <= a < b
        invariant bufs == seq(NBUF, _ => Buf(Key(0, 0), false, 0, [])) && locked == seq(NBUF, _ => false)
        invariant this.disk == disk && latest == disk && pins == seq(NBUF, _ => 0)
      {
        InsertFront(ring, next, prev, b);
        InFront(ring, b);
        next := next[b := next[HEAD]];
        prev := prev[b := HEAD];
        prev := prev[next[HEAD] := b];
        next := next[HEAD := b];
        ring := Front(ring, b);
        b := b + 1;
      }
    }

    /** The first loop of bget: the buffer that holds the block, HEAD if none does. */
    method Lookup(key: Key) returns (b: nat)
      requires Valid()
      ensures b == HEAD ==> forall a :: !Caches(bufs, a, key)
      ensures b != HEAD ==> b < NBUF && bufs[b].key == key
    {
      ghost var k := 1;
      assert LinkAt(ring, next, prev, 0);
      b := next[HEAD];
      while b != HEAD
        invariant 1 <= k <= |ring| && b == (if k < |ring| then ring[k] else HEAD)
        invariant forall i :: 1 <= i < k ==> ring[i] < NBUF && bufs[ring[i]].key != key
        decreases |ring| - k
      {
        assert LinkAt(ring, next, prev, k) && b != ring[0];
        if bufs[b].key == key {
          return;
        }
        b := next[b];
        k := k + 1;
      }
      forall a ensures !Caches(bufs, a, key) {
        if 0 <= a < NBUF {
          assert a in ring && exists i :: 1 <= i < |ring| && ring[i] == a;
        }
      }
    }

    /** The second loop: the least recently used buffer without references, HEAD if there is none. */
    method FindVictim() returns (b: nat, ghost k: nat)
      requires Valid()
      ensures b == HEAD ==> forall a :: 0 <= a < NBUF ==> bufs[a].refcnt > 0
      ensures b != HEAD ==>
                && b < NBUF && bufs[b].refcnt == 0 && 1 <= k < |ring| && ring[k] == b
                && forall i :: k < i < |ring| ==> ring[i] < NBUF && bufs[ring[i]].refcnt > 0
    {
      k := |ring| - 1;
      assert LinkAt(ring, next, prev, k);
      b := prev[HEAD];
      while b != HEAD
        invariant 0 <= k < |ring| && b == ring[k]
        invariant forall i :: k < i < |ring| ==> ring[i] < NBUF && bufs[ring[i]].refcnt > 0
        decreases k
      {
        assert LinkAt(ring, next, prev, k) && k > 0 && LinkAt(ring, next, prev, k - 1);
        if bufs[b].refcnt == 0 {
          return;
        }
        b := prev[b];
        k := k - 1;
      }
      forall a | 0 <= a < NBUF ensures bufs[a].refcnt > 0 {
        assert a in ring && exists i :: 0 <= i < |ring| && ring[i] == a;
      }
    }

    /**
      bget up to the buffer's sleeplock: a reference to the buffer of the block, or to the least recently used
      unreferenced one, which is made its buffer.  HEAD where the source panics, all buffers being in use.
     */
    method Bget(dev: nat, blockno: nat) returns (b: nat, ghost k: nat)
      requires Valid() && dev != 0 && Key(dev, blockno) in disk
      modifies `bufs
      ensures Valid()
      ensures b == HEAD ==> bufs == old(bufs) && forall a :: 0 <= a < NBUF ==> bufs[a].refcnt > 0 && bufs[a].key != Key(dev, blockno)
      ensures b != HEAD ==> b < NBUF && bufs[b].key == Key(dev, blockno) && bufs == old(bufs)[b := bufs[b]]
      ensures b != HEAD && old(bufs)[b].key == Key(dev, blockno) ==> bufs[b] == old(bufs)[b].(refcnt := old(bufs)[b].refcnt + 1)
      ensures b != HEAD && old(bufs)[b].key != Key(dev, blockno) ==>
                && old(bufs)[b].refcnt == 0 && bufs[b].refcnt == 1 && !bufs[b].valid && 1 <= k < |ring| && ring[k] == b
                && (forall i :: k < i < |ring| ==> ring[i] < NBUF && old(bufs)[ring[i]].refcnt > 0)
                && (forall a :: !Caches(old(bufs), a, Key(dev, blockno)))
    {
      hide Ring;
      var key := Key(dev, blockno);
      k := 0;
      b := Lookup(key);
      if b != HEAD {
        assert BufOk(bufs[b], locked[b], pins[b], disk, latest);
        SetBuf(bufs, locked, pins, disk, latest, b, bufs[b].(refcnt := bufs[b].refcnt + 1), locked[b], pins[b]);
        assert locked[b := locked[b]] == locked && pins[b := pins[b]] == pins;
        bufs := bufs[b := bufs[b].(refcnt := bufs[b].refcnt + 1)];
        return;
      }
      b, k := FindVictim();
      if b != HEAD {
        assert !Caches(bufs, b, key);
        Recycle(bufs, locked, pins, disk, latest, b, key);
        bufs := bufs[b := Buf(key, false, 1, bufs[b].data)];
      } else {
        forall a | 0 <= a < NBUF ensures bufs[a].key != key {
          assert !Caches(bufs, a, key);
        }
      }
    }

    /** acquiresleep by a process that has a reference, when the buffer is not locked. */
    method Lock(b: nat)
      requires Valid() && b < NBUF && pins[b] < bufs[b].refcnt && !locked[b]
      modifies `locked
      ensures Valid() && locked == old(locked)[b := true]
    {
      assert BufOk(bufs[b], locked[b], pins[b], disk, latest);
      SetBuf(bufs, locked, pins, disk, latest, b, bufs[b], true, pins[b]);
      assert bufs[b := bufs[b]] == bufs && pins[b := pins[b]] == pins;
      locked := locked[b := true];
    }

    /** The end of bread: the buffer has the latest contents of its block. */
    method Fill(b: nat)
      requires Valid() && b < NBUF && locked[b] && bufs[b].key.dev != 0
      modifies `bufs
      ensures Valid() && bufs[b].key == old(bufs)[b].key && bufs[b].key in latest
      ensures bufs == old(bufs)[b := old(bufs)[b].(valid := true, data := latest[bufs[b].key])]
    {
      assert BufOk(bufs[b], locked[b], pins[b], disk, latest);
      if !bufs[b].valid {
        SetBuf(bufs, locked, pins, disk, latest, b, bufs[b].(valid := true, data := disk[bufs[b].key]), locked[b], pins[b]);
        assert locked[b := locked[b]] == locked && pins[b := pins[b]] == pins;
        bufs := bufs[b := bufs[b].(valid := true, data := disk[bufs[b].key])];
      } else {
        assert bufs[b] == bufs[b].(valid := true, data := latest[bufs[b].key]);
      }
    }

    /** bread, when nobody else has the buffer locked. */
    method Bread(dev: nat, blockno: nat) returns (b: nat)
      requires Valid() && dev != 0 && Key(dev, blockno) in disk
      requires forall a :: 0 <= a < NBUF && bufs[a].key == Key(dev, blockno) ==> !locked[a]
      modifies `bufs, `locked
      ensures Valid()
      ensures b == HEAD ==>
                && bufs == old(bufs) && locked == old(locked)
                && forall a :: 0 <= a < NBUF ==> bufs[a].refcnt > 0 && bufs[a].key != Key(dev, blockno)
      ensures b != HEAD ==>
                && b < NBUF && locked == old(locked)[b := true] && bufs[b].key == Key(dev, blockno) && Key(dev, blockno) in latest
                && bufs[b].valid && bufs[b].data == latest[Key(dev, blockno)] && bufs[b].refcnt > 0
                && (forall a :: 0 <= a < NBUF && a != b ==> bufs[a] == old(bufs)[a])
                && (old(bufs)[b].key == Key(dev, blockno) || (old(bufs)[b].refcnt == 0 && forall a :: !Caches(old(bufs), a, Key(dev, blockno))))
    {
      ghost var k;
      b, k := Bget(dev, blockno);
      if b != HEAD {
        assert BufOk(old(bufs)[b], locked[b], pins[b], disk, latest) && BufOk(bufs[b], locked[b], pins[b], disk, latest);
        Lock(b);
        Fill(b);
      }
    }

    /** A client changes the data; from now on this is the block's contents. */
    method Modify(b: nat, data: Data)
      requires Valid() && b < NBUF && locked[b] && bufs[b].valid && bufs[b].key.dev != 0
      modifies `bufs, `latest
      ensures Valid() && bufs == old(bufs)[b := old(bufs)[b].(data := data)] && latest == old(latest)[bufs[b].key := data]
    {
      Update(bufs, locked, pins, disk, latest, b, data);
      latest := latest[bufs[b].key := data];
      bufs := bufs[b := bufs[b].(data := data)];
    }

    /** bwrite. */
    method Bwrite(b: nat)
      requires Valid() && b < NBUF && locked[b] && bufs[b].valid && bufs[b].key.dev != 0
      modifies `disk
      ensures Valid() && disk == old(disk)[bufs[b].key := bufs[b].data] && disk[bufs[b].key] == latest[bufs[b].key]
    {
      assert BufOk(bufs[b], locked[b], pins[b], disk, latest);
      WriteOut(bufs, locked, pins, disk, latest, b);
      disk := disk[bufs[b].key := bufs[b].data];
    }

    /** log_write's part in the cache: a block that is not in the log's list yet is pinned. */
    method LogWrite(b: nat, listed: bool)
      requires Valid() && b < NBUF && locked[b] && (listed ==> pins[b] > 0)
      modifies `bufs, `pins
      ensures Valid() && pins[b] > 0 && pins == old(pins)[b := pins[b]]
      ensures bufs == old(bufs)[b := old(bufs)[b].(refcnt := old(bufs)[b].refcnt + pins[b] - old(pins)[b])]
      ensures pins[b] == if listed then old(pins)[b] else old(pins)[b] + 1
    {
      if !listed {
        Bpin(b);
      }
    }

    /** releasesleep, the changes of the buffer being written or logged. */
    method Unlock(b: nat)
      requires Valid() && b < NBUF && locked[b] && (Current(bufs[b], disk, latest) || pins[b] > 0)
      modifies `locked
      ensures Valid() && locked == old(locked)[b := false] && pins[b] < bufs[b].refcnt
    {
      assert BufOk(bufs[b], locked[b], pins[b], disk, latest);
      SetBuf(bufs, locked, pins, disk, latest, b, bufs[b], false, pins[b]);
      assert bufs[b := bufs[b]] == bufs && pins[b := pins[b]] == pins;
      locked := locked[b := false];
    }

    /**
      The end of brelse: a process that has unlocked the buffer drops its reference; the last one of all moves the
      buffer to the front.
     */
    method Unref(b: nat)
      requires Valid() && b < NBUF && pins[b] + (if locked[b] then 1 else 0) < bufs[b].refcnt
      modifies `bufs, `next, `prev, `ring
      ensures Valid() && bufs == old(bufs)[b := old(bufs)[b].(refcnt := old(bufs)[b].refcnt - 1)]
      ensures bufs[b].refcnt > 0 ==> ring == old(ring)
      ensures bufs[b].refcnt == 0 ==> Moved(old(ring), ring, b)
    {
      assert BufOk(bufs[b], locked[b], pins[b], disk, latest);
      SetBuf(bufs, locked, pins, disk, latest, b, bufs[b].(refcnt := bufs[b].refcnt - 1), locked[b], pins[b]);
      assert locked[b := locked[b]] == locked && pins[b := pins[b]] == pins;
      bufs := bufs[b := bufs[b].(refcnt := bufs[b].refcnt - 1)];
      if bufs[b].refcnt == 0 {
        MoveToFront(b);
      }
    }

    method MoveToFront(b: nat)
      requires Valid() && b < NBUF
      modifies `next, `prev, `ring
      ensures Valid() && Moved(old(ring), ring, b)
    {
      hide CacheOk;
      assert b in ring;
      ghost var k :| 0 <= k < |ring| && ring[k] == b;
      CutOut(ring, next, prev, k);
      ghost var c := Cut(ring, k);
      InCut(ring, k);
      prev, next := prev[next[b] := prev[b]], next[prev[b] := next[b]];
      InsertFront(c, next, prev, b);
      InFront(c, b);
      next := next[b := next[HEAD]];
      prev := prev[b := HEAD];
      prev := prev[next[HEAD] := b];
      next := next[HEAD := b];
      assert ring[k] == b;
      ring := Front(c, b);
    }

    /** brelse of a buffer whose changes are written or logged: the client's whole obligation. */
    method Brelse(b: nat)
      requires Valid() && b < NBUF && locked[b] && (Current(bufs[b], disk, latest) || pins[b] > 0)
      modifies `bufs, `next, `prev, `ring, `locked
      ensures Valid() && locked == old(locked)[b := false] && bufs == old(bufs)[b := old(bufs)[b].(refcnt := old(bufs)[b].refcnt - 1)]
      ensures if bufs[b].refcnt > 0 then ring == old(ring) else Moved(old(ring), ring, b)
    {
      Unlock(b);
      Unref(b);
    }

    /** bpin: one reference more, held by the log. */
    method Bpin(b: nat)
      requires Valid() && b < NBUF
      modifies `bufs, `pins
      ensures Valid() && bufs == old(bufs)[b := old(bufs)[b].(refcnt := old(bufs)[b].refcnt + 1)] && pins == old(pins)[b := old(pins)[b] + 1]
    {
      assert BufOk(bufs[b], locked[b], pins[b], disk, latest);
      SetBuf(bufs, locked, pins, disk, latest, b, bufs[b].(refcnt := bufs[b].refcnt + 1), locked[b], pins[b] + 1);
      assert locked[b := locked[b]] == locked;
      bufs, pins := bufs[b := bufs[b].(refcnt := bufs[b].refcnt + 1)], pins[b := pins[b] + 1];
    }

    /** bunpin, the block being on disk or its buffer still locked; unlike brelse it does not move the buffer. */
    method Bunpin(b: nat)
      requires Valid() && b < NBUF && pins[b] > 0 && (pins[b] == 1 ==> locked[b] || Current(bufs[b], disk, latest))
      modifies `bufs, `pins
      ensures Valid() && bufs == old(bufs)[b := old(bufs)[b].(refcnt := old(bufs)[b].refcnt - 1)] && pins == old(pins)[b := old(pins)[b] - 1]
    {
      assert BufOk(bufs[b], locked[b], pins[b], disk, latest);
      SetBuf(bufs, locked, pins, disk, latest, b, bufs[b].(refcnt := bufs[b].refcnt - 1), locked[b], pins[b] - 1);
      assert locked[b := locked[b]] == locked;
      bufs, pins := bufs[b := bufs[b].(refcnt := bufs[b].refcnt - 1)], pins[b := pins[b] - 1];
    }

    /**
      A file system change of a block: bread, change, log_write, brelse.  `listed` is whether the log has the block already,
      in which case the block is still cached; otherwise false is returned where the source panics for want of a buffer.
     */
    method LoggedUpdate(dev: nat, blockno: nat, data: Data, listed: bool) returns (ok: bool)
      requires Valid() && dev != 0 && Key(dev, blockno) in disk && (listed <==> Listed(bufs, pins, Key(dev, blockno)))
      requires forall a :: 0 <= a < NBUF && bufs[a].key == Key(dev, blockno) ==> !locked[a]
      modifies `bufs, `locked, `latest, `pins, `next, `prev, `ring
      ensures Valid() && locked == old(locked) && (listed ==> ok)
      ensures !ok ==> bufs == old(bufs) && latest == old(latest) && pins == old(pins)
      ensures ok ==>
                && latest == old(latest)[Key(dev, blockno) := data] && Listed(bufs, pins, Key(dev, blockno))
                && forall key: Key :: key != Key(dev, blockno) && key.dev != 0 ==> (Listed(bufs, pins, key) <==> Listed(old(bufs), old(pins), key))
    {
      hide Ring, CacheOk, Listed, Moved;
      ghost var bufs0, pins0 := bufs, pins;
      Sizes(bufs, locked, pins, disk, latest);
      var b := Bread(dev, blockno);
      ListedAt(bufs0, old(locked), pins, disk, latest, Key(dev, blockno), b);
      Sizes(bufs, locked, pins, disk, latest);
      if b == HEAD {
        return false;
      }
      Modify(b, data);
      LogWrite(b, listed);
      Brelse(b);
      ListedNow(bufs0, pins0, bufs, pins, b, Key(dev, blockno));
      assert locked == old(locked);
      return true;
    }

    /** install_trans for one block: bread, bwrite, bunpin, brelse.  The block leaves the log's list and the disk has it. */
    method Install(dev: nat, blockno: nat)
      requires Valid() && dev != 0 && Key(dev, blockno) in disk && Listed(bufs, pins, Key(dev, blockno))
      requires forall a :: 0 <= a < NBUF && bufs[a].key == Key(dev, blockno) ==> !locked[a] && pins[a] == 1
      modifies `bufs, `locked, `disk, `pins, `next, `prev, `ring
      ensures Valid() && locked == old(locked) && Key(dev, blockno) in latest
      ensures disk == old(disk)[Key(dev, blockno) := latest[Key(dev, blockno)]] && !Listed(bufs, pins, Key(dev, blockno))
      ensures forall key: Key :: key != Key(dev, blockno) && key.dev != 0 ==> (Listed(bufs, pins, key) <==> Listed(old(bufs), old(pins), key))
    {
      hide Ring, CacheOk, Listed, Moved;
      ghost var bufs0, pins0 := bufs, pins;
      Sizes(bufs, locked, pins, disk, latest);
      var b := Bread(dev, blockno);
      ListedAt(bufs0, old(locked), pins, disk, latest, Key(dev, blockno), b);
      Sizes(bufs, locked, pins, disk, latest);
      Bwrite(b);
      Bunpin(b);
      Brelse(b);
      ListedNow(bufs0, pins0, bufs, pins, b, Key(dev, blockno));
      OnlyBuffer(bufs, locked, pins, disk, latest, b, Key(dev, blockno));
      assert locked == old(locked);
    }
  }

  /** b was somewhere in the ring and is at its front now; the others are as they were. */
  ghost predicate Moved(was: seq<nat>, now: seq<nat>, b: nat) {
    exists k :: 0 < k < |was| && was[k] == b && now == Front(Cut(was, k), b)
  }

  lemma InFront(c: seq<nat>, b: nat)
    requires |c| >= 1
    ensures forall a :: a in Front(c, b) <==> a in c || a == b
  {}

  lemma InCut(c: seq<nat>, k: nat)
    requires 0 < k < |c|
    ensures forall a :: a in c ==> a in Cut(c, k) || a == c[k]
  {}

  /** The log has the block: its buffer is pinned. */
  ghost predicate Listed(bufs: seq<Buf>, pins: seq<nat>, key: Key) {
    exists b :: Caches(bufs, b, key) && b < |pins| && pins[b] > 0
  }

  lemma Sizes(bufs: seq<Buf>, locked: seq<bool>, pins: seq<nat>, disk: Disk, latest: Disk)
    requires CacheOk(bufs, locked, pins, disk, latest)
    ensures |bufs| == |locked| == |pins| == NBUF && disk.Keys == latest.Keys
  {}

  /** Where bread of a block ends up, in terms of the cache before it. */
  lemma ListedAt(bufs: seq<Buf>, locked: seq<bool>, pins: seq<nat>, disk: Disk, latest: Disk, key: Key, b: nat)
    requires CacheOk(bufs, locked, pins, disk, latest) && key.dev != 0
    requires b < NBUF || forall a :: 0 <= a < NBUF ==> bufs[a].key != key
    requires b < NBUF ==> bufs[b].key == key || (bufs[b].refcnt == 0 && forall a :: !Caches(bufs, a, key))
    ensures Listed(bufs, pins, key) <==> b < NBUF && bufs[b].key == key && pins[b] > 0
    ensures b < NBUF && bufs[b].key != key ==> pins[b] == 0 && !locked[b]
  {
    if b < NBUF {
      assert BufOk(bufs[b], locked[b], pins[b], disk, latest);
      if bufs[b].key == key && pins[b] > 0 {
        assert Caches(bufs, b, key);
      }
    }
  }

  /** Only the list entry of the block itself can have changed. */
  lemma ListedNow(bufs: seq<Buf>, pins: seq<nat>, bufs': seq<Buf>, pins': seq<nat>, b: nat, key: Key)
    requires |bufs| == |pins| == |bufs'| == |pins'| == NBUF && b < NBUF && bufs'[b].key == key
    requires forall a :: 0 <= a < NBUF && a != b ==> bufs'[a].key == bufs[a].key && pins'[a] == pins[a]
    requires bufs[b].key == key || pins[b] == 0
    ensures pins'[b] > 0 ==> Listed(bufs', pins', key)
    ensures forall k :: k != key ==> (Listed(bufs', pins', k) <==> Listed(bufs, pins, k))
  {
    assert Caches(bufs', b, key);
    forall k | k != key ensures Listed(bufs', pins', k) <==> Listed(bufs, pins, k) {
      if Listed(bufs, pins, k) {
        var a :| Caches(bufs, a, k) && a < |pins| && pins[a] > 0;
        assert Caches(bufs', a, k);
      }
      if Listed(bufs', pins', k) {
        var a :| Caches(bufs', a, k) && a < |pins'| && pins'[a] > 0;
        assert Caches(bufs, a, k);
      }
    }
  }

  lemma OnlyBuffer(bufs: seq<Buf>, locked: seq<bool>, pins: seq<nat>, disk: Disk, latest: Disk, b: nat, key: Key)
    requires CacheOk(bufs, locked, pins, disk, latest) && b < NBUF && bufs[b].key == key && key.dev != 0
    ensures Listed(bufs, pins, key) <==> pins[b] > 0
  {
    if pins[b] > 0 {
      assert Caches(bufs, b, key);
    }
  }
}
