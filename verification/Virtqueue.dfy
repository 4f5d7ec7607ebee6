/**
  The descriptor and ring bookkeeping of kernel/virtio_disk.c (split virtqueues, section 2.6 of VIRTIO 1.1; block
  requests, section 5.2).  The device is any that takes posted chains in order and completes each once, in any order.
  Driver methods are the stretches of code under vdisk_lock.
 */
module Virtqueue {

  const NUM := 8
  const WRAP := 0x1_0000      // indices are 16 bits wide
  const NEXT := 1             // VRING_DESC_F_NEXT
  const WRITE := 2            // VRING_DESC_F_WRITE
  const BSIZE := 1024

  /** What a descriptor's address points to. */
  datatype Ptr = Null | Request(h: nat) | Buffer(b: nat) | StatusByte(h: nat)

  datatype Desc = Desc(addr: Ptr, len: nat, flags: nat, next: nat)

  /** Where a request is: in the avail ring, with the device, in the used ring, or seen by the interrupt handler. */
  datatype Stage = Posted | Taken | Done | Seen

  /** What a descriptor is used for; Held is allocated and not yet part of a chain. */
  datatype Use = Free | Held | Head(mid: nat, tail: nat, b: nat, op: Op, stage: Stage) | Mid(head: nat) | Tail(head: nat)

  datatype Op = Op(write: bool, sector: nat)

  // ---------------------------------------------------------------- chains

  /** Descriptor i is what its use says. */
  ghost predicate DescOk(use: seq<Use>, desc: seq<Desc>, info: seq<int>, status: seq<nat>, busy: set<nat>, i: nat)
    requires |use| == |desc| == |info| == |status| == NUM && i < NUM
  {
    match use[i]
    case Head(d, t, b, op, stage) =>
      && d < NUM && t < NUM && use[d] == Mid(i) && use[t] == Tail(i)
      && desc[i] == Desc(Request(i), 16, NEXT, d)
      && desc[d].addr == Buffer(b) && desc[d].len == BSIZE && desc[d].flags == DataFlags(op.write) && desc[d].next == t
      && desc[t] == Desc(StatusByte(i), 1, WRITE, 0)
      && info[i] == b && (b in busy <==> stage != Seen) && status[i] == if stage.Posted? || stage.Taken? then 0xff else 0
    case Mid(h) => h < NUM && use[h].Head? && use[h].mid == i
    case Tail(h) => h < NUM && use[h].Head? && use[h].tail == i
    case _ => true
  }

  ghost predicate ChainsOk(use: seq<Use>, desc: seq<Desc>, info: seq<int>, status: seq<nat>, busy: set<nat>, free: seq<bool>) {
    && |use| == |desc| == |info| == |status| == |free| == NUM
    && (forall i :: 0 <= i < NUM ==> DescOk(use, desc, info, status, busy, i))
    && (forall i :: 0 <= i < NUM ==> (free[i] <==> use[i] == Free))
    && (forall i, j :: 0 <= i < j < NUM && use[i].Head? && use[j].Head? ==> use[i].b != use[j].b)
  }

  /** The request header of a chain stays what it was when the chain was made. */
  ghost predicate OpsOk(use: seq<Use>, ops: seq<Op>) {
    |use| == |ops| == NUM && forall i :: 0 <= i < NUM && use[i].Head? ==> ops[i] == use[i].op
  }

  ghost function FreeSet(use: seq<Use>): set<int> { set i | 0 <= i < |use| && use[i] == Free }

  lemma AtLeast(s: set<int>, a: int, b: int, c: int)
    requires {a, b, c} <= s && a != b && b != c && a != c
    ensures |s| >= 3
  {
    assert s == {a, b, c} + (s - {a, b, c});
  }

  lemma AtMost(use: seq<Use>, use': seq<Use>, a: nat, b: nat)
    requires a < |use| && b < |use| && use' == use[a := Held][b := Held] && forall i :: 0 <= i < |use'| ==> use'[i] != Free
    ensures |FreeSet(use)| < 3
  {
    var s: set<int>, t: set<int> := FreeSet(use), {a, b};
    forall i | i in s ensures i in t {
      assert use'[i] != Free;
    }
    assert t == s + (t - s);
    assert |t| <= 2;
  }

  /** Nothing is held and there is at most one chain. */
  ghost predicate AtMostOne(use: seq<Use>) {
    && (forall i :: 0 <= i < |use| ==> !use[i].Held?)
    && forall i, j :: 0 <= i < j < |use| ==> !use[i].Head? || !use[j].Head?
  }

  /** Then there are descriptors for another. */
  lemma RoomForOne(use: seq<Use>, desc: seq<Desc>, info: seq<int>, status: seq<nat>, busy: set<nat>, free: seq<bool>)
    requires ChainsOk(use, desc, info, status, busy, free) && AtMostOne(use)
    ensures |FreeSet(use)| >= 3
  {
    var h := 0;
    if exists i :: 0 <= i < NUM && use[i].Head? {
      h :| 0 <= h < NUM && use[h].Head?;
    }
    var d, t := if use[h].Head? then use[h].mid else h, if use[h].Head? then use[h].tail else h;
    forall i | i in All() && i !in {h, d, t} ensures i in FreeSet(use) {
      assert DescOk(use, desc, info, status, busy, i);
    }
    Sizes(All(), FreeSet(use), {h, d, t});
  }

  function All(): (s: set<int>)
    ensures |s| == NUM && forall i :: i in s <==> 0 <= i < NUM
  {
    {0, 1, 2, 3, 4, 5, 6, 7}
  }

  lemma Sizes(all: set<int>, a: set<int>, b: set<int>)
    requires all <= a + b
    ensures |all| <= |a| + |b|
  {
    assert a + b == all + (a + b - all);
    assert |a + b| <= |a| + |b|;
  }

  /** Three chains would need nine descriptors. */
  lemma AtMostTwo(use: seq<Use>, desc: seq<Desc>, info: seq<int>, status: seq<nat>, busy: set<nat>, free: seq<bool>, a: nat, b: nat, c: nat)
    requires ChainsOk(use, desc, info, status, busy, free) && a < NUM && b < NUM && c < NUM && a != b && b != c && a != c
    requires use[a].Head? && use[b].Head?
    ensures !use[c].Head?
  {
    if use[c].Head? {
      assert DescOk(use, desc, info, status, busy, a) && DescOk(use, desc, info, status, busy, b) && DescOk(use, desc, info, status, busy, c);
      Nine(a, use[a].mid, use[a].tail, b, use[b].mid, use[b].tail, c, use[c].mid, use[c].tail);
    }
  }

  /** Two chains share no descriptor, and every descriptor that is not free or held is in one. */
  lemma Partition(use: seq<Use>, desc: seq<Desc>, info: seq<int>, status: seq<nat>, busy: set<nat>, free: seq<bool>, a: nat, b: nat)
    requires ChainsOk(use, desc, info, status, busy, free) && a < NUM && b < NUM
    ensures use[a].Head? && use[b].Head? && a != b ==> {a, use[a].mid, use[a].tail} !! {b, use[b].mid, use[b].tail}
    ensures use[a].Head? ==> |{a, use[a].mid, use[a].tail}| == 3
    ensures free[a] || use[a].Held? || exists h :: 0 <= h < NUM && use[h].Head? && a in {h, use[h].mid, use[h].tail}
  {
    assert DescOk(use, desc, info, status, busy, a) && DescOk(use, desc, info, status, busy, b);
  }

  lemma Nine(a: nat, b: nat, c: nat, d: nat, e: nat, f: nat, g: nat, h: nat, i: nat)
    requires a < NUM && b < NUM && c < NUM && d < NUM && e < NUM && f < NUM && g < NUM && h < NUM && i < NUM
    ensures |{a, b, c, d, e, f, g, h, i}| < 9
  {
    Pigeonhole({a, b, c, d, e, f, g, h, i}, NUM);
  }

  lemma {:induction false} Pigeonhole(s: set<nat>, n: nat)
    requires forall x :: x in s ==> x < n
    ensures |s| <= n
  {
    if n > 0 {
      Pigeonhole(s - {n - 1}, n - 1);
      assert s <= (s - {n - 1}) + {n - 1};
      if n - 1 in s {
        assert |s - {n - 1}| == |s| - 1;
      } else {
        assert s - {n - 1} == s;
      }
    } else {
      assert s == {};
    }
  }

  // ---------------------------------------------------------------- rings

  /** The entries of a log from lo on are in the ring. */
  ghost predicate InRing(ring: seq<nat>, log: seq<nat>, lo: nat) {
    && |ring| == NUM && lo <= |log| <= lo + NUM
    && forall k :: lo <= k < |log| ==> ring[k % NUM] == log[k]
  }

  /** They are different chains, all at the given stage. */
  ghost predicate AtStage(use: seq<Use>, log: seq<nat>, lo: nat, stage: Stage) {
    && (forall k :: lo <= k < |log| ==> log[k] < |use| && use[log[k]].Head? && use[log[k]].stage == stage)
    && (forall k, l :: lo <= k < l < |log| ==> log[k] != log[l])
  }

  /** No more than two entries are ever waiting. */
  lemma FewWaiting(use: seq<Use>, desc: seq<Desc>, info: seq<int>, status: seq<nat>, busy: set<nat>, free: seq<bool>, log: seq<nat>, lo: nat, stage: Stage)
    requires ChainsOk(use, desc, info, status, busy, free) && lo <= |log| && AtStage(use, log, lo, stage)
    ensures |log| <= lo + 2
  {
    if |log| > lo + 2 {
      AtMostTwo(use, desc, info, status, busy, free, log[lo], log[lo + 1], log[lo + 2]);
    }
  }

  lemma RingAppend(ring: seq<nat>, log: seq<nat>, lo: nat, h: nat)
    requires InRing(ring, log, lo) && |log| <= lo + 2
    ensures InRing(ring[|log| % NUM := h], log + [h], lo)
  {}

  /** A 16-bit index is the count modulo 2^16, and its slot the slot of the count because NUM divides 2^16. */
  lemma Index(k: nat)
    ensures (k % WRAP) % NUM == k % NUM && (k % WRAP + 1) % WRAP == (k + 1) % WRAP
  {
    assert k == k % WRAP + k / WRAP * 8192 * NUM;
    SlotMul(k % WRAP, k / WRAP * 8192);
  }

  lemma SlotMul(a: nat, m: nat)
    ensures (a + m * NUM) % NUM == a % NUM
  {}

  lemma SameIndex(a: nat, b: nat)
    requires a <= b <= a + NUM
    ensures a % WRAP == b % WRAP <==> a == b
  {
    if a % WRAP == b % WRAP {
      assert b - a == (b / WRAP - a / WRAP) * WRAP;
    }
  }

  // ---------------------------------------------------------------- changes to the table

  /** Descriptors that belong to no chain change; nothing else does. */
  lemma LooseChange(use: seq<Use>, desc: seq<Desc>, info: seq<int>, status: seq<nat>, busy: set<nat>, free: seq<bool>,
                    use': seq<Use>, desc': seq<Desc>, free': seq<bool>)
    requires ChainsOk(use, desc, info, status, busy, free) && |use'| == |desc'| == |free'| == NUM
    requires forall i :: 0 <= i < NUM ==> (free'[i] <==> use'[i] == Free)
    requires forall i :: 0 <= i < NUM ==> if use[i].Free? || use[i].Held? then use'[i].Free? || use'[i].Held? else use'[i] == use[i] && desc'[i] == desc[i]
    ensures ChainsOk(use', desc', info, status, busy, free')
  {
    forall i | 0 <= i < NUM ensures DescOk(use', desc', info, status, busy, i) {
      assert DescOk(use, desc, info, status, busy, i);
    }
  }

  /** The device writes the buffer for a read and reads it for a write. */
  function DataFlags(write: bool): (f: nat)
    ensures f % 2 == NEXT && (f / 2 % 2 == 1 <==> !write)
  {
    if write then NEXT else WRITE + NEXT
  }

  /** The three descriptors of a request, formatted. */
  function Format(desc: seq<Desc>, h: nat, d: nat, t: nat, b: nat, write: bool): (r: seq<Desc>)
    requires |desc| == NUM && h < NUM && d < NUM && t < NUM
    ensures |r| == NUM
  {
    desc[h := Desc(Request(h), 16, NEXT, d)][d := Desc(Buffer(b), BSIZE, DataFlags(write), t)][t := Desc(StatusByte(h), 1, WRITE, 0)]
  }

  ghost function Chained(use: seq<Use>, h: nat, d: nat, t: nat, b: nat, op: Op): (r: seq<Use>)
    requires |use| == NUM && h < NUM && d < NUM && t < NUM
    ensures |r| == NUM
  {
    use[h := Head(d, t, b, op, Posted)][d := Mid(h)][t := Tail(h)]
  }

  lemma HeldOps(use: seq<Use>, ops: seq<Op>, h: nat, op: Op)
    requires OpsOk(use, ops) && h < NUM && use[h].Held?
    ensures |ops| == NUM && OpsOk(use, ops[h := op])
  {}

  lemma ChainedOps(use: seq<Use>, ops: seq<Op>, h: nat, d: nat, t: nat, b: nat)
    requires OpsOk(use, ops) && h < NUM && d < NUM && t < NUM
    ensures OpsOk(Chained(use, h, d, t, b, ops[h]), ops)
  {}

  /** Three held descriptors become a chain for a buffer that is in none. */
  lemma NewChain(use: seq<Use>, desc: seq<Desc>, info: seq<int>, status: seq<nat>, busy: set<nat>, free: seq<bool>,
                 h: nat, d: nat, t: nat, b: nat, op: Op)
    requires ChainsOk(use, desc, info, status, busy, free) && h < NUM && d < NUM && t < NUM && h != d && d != t && h != t
    requires use[h].Held? && use[d].Held? && use[t].Held?
    requires forall i :: 0 <= i < NUM && use[i].Head? ==> use[i].b != b
    ensures ChainsOk(Chained(use, h, d, t, b, op), Format(desc, h, d, t, b, op.write), info[h := b], status[h := 0xff], busy + {b}, free)
  {
    var use', desc' := Chained(use, h, d, t, b, op), Format(desc, h, d, t, b, op.write);
    var info', status', busy' := info[h := b], status[h := 0xff], busy + {b};
    forall i | 0 <= i < NUM ensures DescOk(use', desc', info', status', busy', i) {
      assert DescOk(use, desc, info, status, busy, i);
    }
  }

  /** A chain moves on to its next stage. */
  lemma Advance(use: seq<Use>, desc: seq<Desc>, info: seq<int>, status: seq<nat>, busy: set<nat>, free: seq<bool>, h: nat, stage: Stage)
    requires ChainsOk(use, desc, info, status, busy, free) && h < NUM && use[h].Head?
    requires stage == Seen || use[h].stage != Seen
    ensures ChainsOk(use[h := use[h].(stage := stage)], desc, info, status[h := if stage.Posted? || stage.Taken? then 0xff else 0],
                     if stage == Seen then busy - {use[h].b} else busy, free)
  {
    var use', status' := use[h := use[h].(stage := stage)], status[h := if stage.Posted? || stage.Taken? then 0xff else 0];
    var busy' := if stage == Seen then busy - {use[h].b} else busy;
    forall i | 0 <= i < NUM ensures DescOk(use', desc, info, status', busy', i) {
      assert DescOk(use, desc, info, status, busy, i) && DescOk(use, desc, info, status, busy, h);
    }
  }

  /** The three descriptors of a chain that has been seen are freed together. */
  lemma Dissolve(use: seq<Use>, desc: seq<Desc>, info: seq<int>, status: seq<nat>, busy: set<nat>, free: seq<bool>, h: nat, d: nat, t: nat)
    requires ChainsOk(use, desc, info, status, busy, free) && h < NUM && use[h].Head? && use[h].mid == d && use[h].tail == t
    ensures d < NUM && t < NUM && h != d && d != t && h != t
    ensures ChainsOk(use[h := Held][d := Held][t := Held], desc, info[h := -1], status, busy, free)
  {
    assert DescOk(use, desc, info, status, busy, h);
    var use' := use[h := Held][d := Held][t := Held];
    var info' := info[h := -1];
    forall i | 0 <= i < NUM ensures DescOk(use', desc, info', status, busy, i) {
      assert DescOk(use, desc, info, status, busy, i);
    }
  }

  // ---------------------------------------------------------------- the driver and its device

  class VirtioDisk {
    var desc: seq<Desc>
    var free: seq<bool>
    var avail: seq<nat>        // avail->ring
    var availIdx: nat          // avail->idx
    var devAvailIdx: nat       // how far the device has looked in the avail ring
    var used: seq<nat>         // the ids in used->ring
    var usedDevIdx: nat        // used->idx, written by the device
    var usedIdx: nat           // how far the driver has looked
    var info: seq<int>         // info[].b, -1 for none
    var status: seq<nat>       // info[].status
    var ops: seq<Op>
    var busy: set<nat>         // the buffers with b->disk == 1

    ghost var use: seq<Use>
    ghost var posted: seq<nat>      // every head ever put into the avail ring,
    ghost var taken: nat            // of which the device has taken so many
    ghost var completed: seq<nat>   // every head the device ever put into the used ring,
    ghost var seen: nat             // of which the driver has seen so many

    ghost predicate Valid()
      reads this
    {
      && ChainsOk(use, desc, info, status, busy, free) && OpsOk(use, ops)
      && InRing(avail, posted, taken) && AtStage(use, posted, taken, Posted) && availIdx == |posted| % WRAP && devAvailIdx == taken % WRAP
      && InRing(used, completed, seen) && AtStage(use, completed, seen, Done) && usedDevIdx == |completed| % WRAP
      && usedIdx == seen % WRAP
    }

    constructor ()
      ensures Valid() && forall i :: 0 <= i < NUM ==> free[i]
    {
      desc, free := seq(NUM, _ => Desc(Null, 0, 0, 0)), seq(NUM, _ => true);
      avail, availIdx, used, usedDevIdx, usedIdx := seq(NUM, _ => 0), 0, seq(NUM, _ => 0), 0, 0;
      info, status, ops, busy := seq(NUM, _ => -1), seq(NUM, _ => 0), seq(NUM, _ => Op(false, 0)), {};
      devAvailIdx, use, posted, taken, completed, seen := 0, seq(NUM, _ => Free), [], 0, [], 0;
    }

    /** Mark the first free descriptor in use, -1 if there is none. */
    method AllocDesc() returns (i: int)
      requires Valid()
      modifies `free, `use
      ensures Valid()
      ensures i == -1 ==> use == old(use) && free == old(free) && forall k :: 0 <= k < NUM ==> !free[k]
      ensures i != -1 ==> 0 <= i < NUM && old(use)[i] == Free && use == old(use)[i := Held] && forall k :: 0 <= k < i ==> !old(free)[k]
    {
      i := 0;
      while i < NUM && !free[i]
        invariant 0 <= i <= NUM && forall k :: 0 <= k < i ==> !free[k]
        modifies {}
      {
        i := i + 1;
      }
      if i == NUM {
        return -1;
      }
      LooseChange(use, desc, info, status, busy, free, use[i := Held], desc, free[i := false]);
      SameStage(use, use[i := Held], posted, taken, Posted);
      SameStage(use, use[i := Held], completed, seen, Done);
      free := free[i := false];
      use := use[i := Held];
    }

    /** Free a descriptor that is held by no chain.  Neither of the source's panics can happen. */
    method FreeDesc(i: nat)
      requires Valid() && i < NUM && use[i] == Held
      modifies `desc, `free, `use
      ensures Valid() && use == old(use)[i := Free] && desc == old(desc)[i := Desc(Null, 0, 0, 0)]
    {
      if i >= NUM || free[i] {
        assert false;
      }
      LooseChange(use, desc, info, status, busy, free, use[i := Free], desc[i := Desc(Null, 0, 0, 0)], free[i := true]);
      SameStage(use, use[i := Free], posted, taken, Posted);
      SameStage(use, use[i := Free], completed, seen, Done);
      desc := desc[i := Desc(Null, 0, 0, 0)];
      free := free[i := true];
      use := use[i := Free];
    }

    /** Three descriptors, or none. */
    method Alloc3Desc() returns (ok: bool, a: nat, b: nat, c: nat)
      requires Valid()
      modifies `desc, `free, `use
      ensures Valid()
      ensures !ok ==> use == old(use)
      ensures ok <==> |FreeSet(old(use))| >= 3
      ensures ok ==>
                && a < NUM && b < NUM && c < NUM && a != b && b != c && a != c
                && old(use)[a] == old(use)[b] == old(use)[c] == Free && use == old(use)[a := Held][b := Held][c := Held]
    {
      hide ChainsOk, InRing, AtStage;
      a, b, c := 0, 0, 0;
      ghost var use0 := use;
      Eight(use, desc, info, status, busy, free);
      var i := AllocDesc();
      if i < 0 {
        NoneLeft(use, desc, info, status, busy, free);
        assert FreeSet(use0) == {};
        return false, a, b, c;
      }
      var j := AllocDesc();
      if j < 0 {
        NoneLeft(use, desc, info, status, busy, free);
        AtMost(use0, use, i, i);
        FreeDesc(i);
        assert use == use0;
        return false, a, b, c;
      }
      var k := AllocDesc();
      if k < 0 {
        NoneLeft(use, desc, info, status, busy, free);
        AtMost(use0, use, i, j);
        FreeDesc(i);
        FreeDesc(j);
        assert use == use0;
        return false, a, b, c;
      }
      AtLeast(FreeSet(use0), i, j, k);
      return true, i, j, k;
    }

    /**
      virtio_disk_rw up to its wait: post a request for the buffer, or sleep for descriptors.  No chain holds the
      buffer yet: the caller has it locked.
     */
    method Submit(b: nat, blockno: nat, write: bool) returns (ok: bool, h: nat)
      requires Valid() && forall i :: 0 <= i < NUM && use[i].Head? ==> use[i].b != b
      modifies this
      ensures Valid() && taken == old(taken) && completed == old(completed) && seen == old(seen)
      ensures !ok ==> use == old(use) && posted == old(posted) && busy == old(busy) && ops == old(ops)
      ensures ok <==> |FreeSet(old(use))| >= 3
      ensures AtMostOne(old(use)) ==> ok
      ensures ok ==>
                && h < NUM && posted == old(posted) + [h] && busy == old(busy) + {b}
                && use[h].Head? && use[h].b == b && use[h].op == Op(write, blockno * (BSIZE / 512)) && use[h].stage == Posted
                && use[h].mid < NUM && use[h].tail < NUM && use[h].mid != use[h].tail && h != use[h].mid && h != use[h].tail
                && old(use)[h] == old(use)[use[h].mid] == old(use)[use[h].tail] == Free
                && forall i :: 0 <= i < NUM && i != h && i != use[h].mid && i != use[h].tail ==> use[i] == old(use)[i]
    {
      hide ChainsOk, InRing, AtStage, AtMostOne, FreeSet, OpsOk;
      Eight(use, desc, info, status, busy, free);
      ghost var use0 := use;
      if AtMostOne(use) {
        RoomForOne(use, desc, info, status, busy, free);
      }
      var d, t;
      ok, h, d, t := Alloc3Desc();
      if ok {
        Eight(use, desc, info, status, busy, free);
        TakenFew(avail, posted, taken);
        HeldOps(use, ops, h, Op(write, blockno * (BSIZE / 512)));
        ops := ops[h := Op(write, blockno * (BSIZE / 512))];
        FormatChain(b, write, h, d, t);
        Post(h);
      }
    }

    /** Format three descriptors for a request. */
    method FormatChain(b: nat, write: bool, h: nat, d: nat, t: nat)
      requires Valid() && h < NUM && d < NUM && t < NUM && h != d && d != t && h != t && use[h] == Held && use[d] == Held && use[t] == Held
      requires (forall i :: 0 <= i < NUM && use[i].Head? ==> use[i].b != b) && ops[h].write == write
      modifies `desc, `status, `busy, `info, `use
      ensures Valid() && busy == old(busy) + {b} && h !in posted[taken..]
      ensures |old(use)| == |old(desc)| == NUM && use == Chained(old(use), h, d, t, b, ops[h]) && desc == Format(old(desc), h, d, t, b, write)
    {
      hide ChainsOk, InRing, AtStage, Chained, Format;
      Eight(use, desc, info, status, busy, free);
      NewChain(use, desc, info, status, busy, free, h, d, t, b, ops[h]);
      HeldStage(use, posted, taken, Posted, h, d, t, b, ops[h]);
      HeldStage(use, completed, seen, Done, h, d, t, b, ops[h]);
      ChainedOps(use, ops, h, d, t, b);
      desc := Format(desc, h, d, t, b, write);
      status := status[h := 0xff];
      busy := busy + {b};
      info := info[h := b];
      use := Chained(use, h, d, t, b, ops[h]);
    }

    /** Tell the device the first descriptor of a chain. */
    method Post(h: nat)
      requires Valid() && h < NUM && use[h].Head? && use[h].stage == Posted && h !in posted[taken..]
      modifies `avail, `availIdx, `posted
      ensures Valid() && posted == old(posted) + [h]
    {
      hide ChainsOk, InRing, AtStage;
      Index(|posted|);
      PostStage(use, desc, info, status, busy, free, avail, posted, taken, h);
      avail := avail[availIdx % NUM := h];
      availIdx := (availIdx + 1) % WRAP;
      posted := posted + [h];
    }

    /** The device takes the next posted chain off the avail ring. */
    method DeviceTake() returns (h: nat)
      requires Valid() && taken < |posted|
      modifies `use, `taken, `devAvailIdx
      ensures Valid() && h == old(posted)[old(taken)] == avail[old(taken) % NUM] && taken == old(taken) + 1
      ensures h < NUM && old(use)[h].Head? && use == old(use)[h := old(use)[h].(stage := Taken)]
    {
      hide ChainsOk, InRing, AtStage;
      Index(taken);
      TakeStep(use, desc, info, status, busy, free, avail, posted, taken, completed, seen);
      h := avail[devAvailIdx % NUM];
      use := use[h := use[h].(stage := Taken)];
      devAvailIdx := (devAvailIdx + 1) % WRAP;
      taken := taken + 1;
    }

    /** The device completes a chain it has taken, in whatever order. */
    method DeviceComplete(h: nat)
      requires Valid() && h < NUM && use[h].Head? && use[h].stage == Taken
      modifies `use, `status, `used, `usedDevIdx, `completed
      ensures Valid() && completed == old(completed) + [h] && use == old(use)[h := old(use)[h].(stage := Done)]
    {
      hide ChainsOk, InRing, AtStage;
      Eight(use, desc, info, status, busy, free);
      Index(|completed|);
      DoneStep(use, desc, info, status, busy, free, posted, taken, used, completed, seen, h);
      status := status[h := 0];
      used := used[usedDevIdx % NUM := h];
      usedDevIdx := (usedDevIdx + 1) % WRAP;
      use, completed := use[h := use[h].(stage := Done)], completed + [h];
    }

    /** The interrupt handler: every completion since the last time ends the wait for the buffer recorded for its head. */
    method Intr()
      requires Valid()
      modifies `use, `busy, `usedIdx, `seen
      ensures Valid() && seen == |completed| && |use| == |old(use)| == |info| == NUM
      ensures forall k :: old(seen) <= k < |completed| ==> SeenNow(old(use), use, info, busy, completed[k])
      ensures forall i :: 0 <= i < NUM && i !in completed[old(seen)..] ==> use[i] == old(use)[i]
      ensures busy <= old(busy) && forall b :: b in old(busy) - busy ==> exists k :: old(seen) <= k < |completed| && b == BufOf(info, completed[k])
    {
      hide ChainsOk, InRing, AtStage;
      ghost var use0, busy0, seen0 := use, busy, seen;
      Eight(use, desc, info, status, busy, free);
      SeenFew(used, completed, seen);
      while usedIdx != usedDevIdx
        invariant Valid() && seen0 <= seen <= |completed| && |use| == |use0| == |info| == NUM
        invariant forall k :: seen0 <= k < seen ==> SeenNow(use0, use, info, busy, completed[k])
        invariant forall i :: 0 <= i < NUM && i !in completed[seen0..seen] ==> use[i] == use0[i]
        invariant busy <= busy0 && forall b :: b in busy0 - busy ==> exists k :: seen0 <= k < seen && b == BufOf(info, completed[k])
        decreases |completed| - seen
      {
        ghost var use1, busy1 := use, busy;
        SeeOne();
        SeenMore(use0, use1, use, info, busy0, busy1, busy, completed, seen0, seen - 1);
      }
      SeenAll(used, completed, seen);
      assert completed[seen0..seen] == completed[seen0..];
    }

    /** One turn of its loop. */
    method SeeOne()
      requires Valid() && usedIdx != usedDevIdx
      modifies `use, `busy, `usedIdx, `seen
      ensures Valid() && seen == old(seen) + 1 <= |completed| && completed[old(seen)] < NUM == |old(use)| == |info| && old(use)[completed[old(seen)]].Head?
      ensures old(use)[completed[old(seen)]].stage == Done && info[completed[old(seen)]] == old(use)[completed[old(seen)]].b
      ensures use == old(use)[completed[old(seen)] := old(use)[completed[old(seen)]].(stage := Seen)]
      ensures busy == old(busy) - {old(use)[completed[old(seen)]].b}
    {
      hide ChainsOk, InRing, AtStage;
      Index(seen);
      SeenStep(use, desc, info, status, busy, free, posted, taken, used, completed, seen);
      var id := used[usedIdx % NUM];
      if status[id] != 0 {
        assert false;
      }
      var b := info[id];
      busy := busy - {b};
      usedIdx := (usedIdx + 1) % WRAP;
      use, seen := use[id := use[id].(stage := Seen)], seen + 1;
    }

    /** The end of virtio_disk_rw, once the buffer is no longer busy: the chain's descriptors are freed. */
    method Finish(b: nat, h: nat)
      requires Valid() && h < NUM && use[h].Head? && use[h].b == b && b !in busy
      modifies `info, `desc, `free, `use
      ensures Valid() && old(use)[h].mid < |old(use)| && old(use)[h].tail < |old(use)|
      ensures use == old(use)[h := Free][old(use)[h].mid := Free][old(use)[h].tail := Free]
    {
      hide InRing;
      ghost var d, t := use[h].mid, use[h].tail;
      assert DescOk(use, desc, info, status, busy, h);
      Dissolve(use, desc, info, status, busy, free, h, d, t);
      ghost var use' := use[h := Held][d := Held][t := Held];
      SameStage(use, use', posted, taken, Posted);
      SameStage(use, use', completed, seen, Done);
      info := info[h := -1];
      use := use';
      FreeChain(h, d, t);
    }

    /** Free the descriptors linked from i; here the three of a request. */
    method FreeChain(i: nat, ghost d: nat, ghost t: nat)
      requires Valid() && i < NUM && d < NUM && t < NUM && i != d && d != t && i != t && use[i] == Held && use[d] == Held && use[t] == Held
      requires desc[i].flags % 2 == 1 && desc[i].next == d && desc[d].flags % 2 == 1 && desc[d].next == t && desc[t].flags % 2 == 0
      modifies `desc, `free, `use
      ensures Valid() && use == old(use)[i := Free][d := Free][t := Free]
    {
      hide ChainsOk, InRing, AtStage;
      Eight(use, desc, info, status, busy, free);
      ghost var use0, desc0, k := use, desc, 0;
      var j := i;
      while true
        invariant 0 <= k < 3 && j == (if k == 0 then i else if k == 1 then d else t) && Valid() && |use| == NUM && |desc| == NUM
        invariant use == if k == 0 then use0 else if k == 1 then use0[i := Free] else use0[i := Free][d := Free]
        invariant (k <= 1 ==> desc[d] == desc0[d]) && desc[t] == desc0[t] && (k == 0 ==> desc[i] == desc0[i])
        decreases 3 - k
      {
        var flag, nxt := desc[j].flags, desc[j].next;
        FreeDesc(j);
        if flag % 2 == NEXT {
          j := nxt;
        } else {
          break;
        }
        k := k + 1;
      }
    }
  }

  lemma NoneLeft(use: seq<Use>, desc: seq<Desc>, info: seq<int>, status: seq<nat>, busy: set<nat>, free: seq<bool>)
    requires ChainsOk(use, desc, info, status, busy, free) && forall k :: 0 <= k < NUM ==> !free[k]
    ensures forall i :: 0 <= i < NUM ==> use[i] != Free
  {}

  lemma Eight(use: seq<Use>, desc: seq<Desc>, info: seq<int>, status: seq<nat>, busy: set<nat>, free: seq<bool>)
    requires ChainsOk(use, desc, info, status, busy, free)
    ensures |use| == |desc| == |info| == |status| == |free| == NUM
  {}

  lemma SameStage(use: seq<Use>, use': seq<Use>, log: seq<nat>, lo: nat, stage: Stage)
    requires AtStage(use, log, lo, stage) && |use'| == |use|
    requires forall k :: lo <= k < |log| ==> use'[log[k]] == use[log[k]]
    ensures AtStage(use', log, lo, stage)
  {}

  lemma TakenFew(avail: seq<nat>, posted: seq<nat>, taken: nat)
    requires InRing(avail, posted, taken)
    ensures taken <= |posted|
  {}

  /** Making a chain of held descriptors does not touch the chains in a log. */
  lemma HeldStage(use: seq<Use>, log: seq<nat>, lo: nat, stage: Stage, h: nat, d: nat, t: nat, b: nat, op: Op)
    requires |use| == NUM && AtStage(use, log, lo, stage) && h < NUM && d < NUM && t < NUM && use[h].Held? && use[d].Held? && use[t].Held?
    ensures AtStage(Chained(use, h, d, t, b, op), log, lo, stage) && (lo <= |log| ==> h !in log[lo..])
  {
    SameStage(use, Chained(use, h, d, t, b, op), log, lo, stage);
  }

  /** The avail ring after a chain has been posted. */
  lemma PostStage(use: seq<Use>, desc: seq<Desc>, info: seq<int>, status: seq<nat>, busy: set<nat>, free: seq<bool>,
                  avail: seq<nat>, posted: seq<nat>, taken: nat, h: nat)
    requires ChainsOk(use, desc, info, status, busy, free) && InRing(avail, posted, taken) && AtStage(use, posted, taken, Posted)
    requires h < NUM && use[h].Head? && use[h].stage == Posted && h !in posted[taken..]
    ensures |avail| == NUM && InRing(avail[|posted| % NUM := h], posted + [h], taken) && AtStage(use, posted + [h], taken, Posted)
  {
    FewWaiting(use, desc, info, status, busy, free, posted, taken, Posted);
    RingAppend(avail, posted, taken, h);
    assert forall k :: taken <= k < |posted| ==> posted[k] in posted[taken..];
  }

  lemma TakeStep(use: seq<Use>, desc: seq<Desc>, info: seq<int>, status: seq<nat>, busy: set<nat>, free: seq<bool>,
                 avail: seq<nat>, posted: seq<nat>, taken: nat, completed: seq<nat>, seen: nat)
    requires ChainsOk(use, desc, info, status, busy, free) && InRing(avail, posted, taken) && taken < |posted|
    requires AtStage(use, posted, taken, Posted) && AtStage(use, completed, seen, Done)
    ensures var h := posted[taken];
            && |avail| == NUM && h == avail[taken % NUM] && h < NUM == |use| && use[h].Head? && InRing(avail, posted, taken + 1)
            && ChainsOk(use[h := use[h].(stage := Taken)], desc, info, status, busy, free)
            && AtStage(use[h := use[h].(stage := Taken)], posted, taken + 1, Posted) && AtStage(use[h := use[h].(stage := Taken)], completed, seen, Done)
  {
    var h := posted[taken];
    Advance(use, desc, info, status, busy, free, h, Taken);
    assert DescOk(use, desc, info, status, busy, h);
    assert status[h := 0xff] == status;
  }

  lemma DoneStep(use: seq<Use>, desc: seq<Desc>, info: seq<int>, status: seq<nat>, busy: set<nat>, free: seq<bool>,
                 posted: seq<nat>, taken: nat, used: seq<nat>, completed: seq<nat>, seen: nat, h: nat)
    requires ChainsOk(use, desc, info, status, busy, free) && InRing(used, completed, seen) && h < NUM && use[h].Head? && use[h].stage == Taken
    requires AtStage(use, posted, taken, Posted) && AtStage(use, completed, seen, Done)
    ensures |used| == NUM == |status| && InRing(used[|completed| % NUM := h], completed + [h], seen)
    ensures ChainsOk(use[h := use[h].(stage := Done)], desc, info, status[h := 0], busy, free)
    ensures AtStage(use[h := use[h].(stage := Done)], posted, taken, Posted) && AtStage(use[h := use[h].(stage := Done)], completed + [h], seen, Done)
  {
    FewWaiting(use, desc, info, status, busy, free, completed, seen, Done);
    RingAppend(used, completed, seen, h);
    Advance(use, desc, info, status, busy, free, h, Done);
  }

  lemma SeenStep(use: seq<Use>, desc: seq<Desc>, info: seq<int>, status: seq<nat>, busy: set<nat>, free: seq<bool>,
                 posted: seq<nat>, taken: nat, used: seq<nat>, completed: seq<nat>, seen: nat)
    requires ChainsOk(use, desc, info, status, busy, free) && InRing(used, completed, seen) && seen % WRAP != |completed| % WRAP
    requires AtStage(use, posted, taken, Posted) && AtStage(use, completed, seen, Done)
    ensures seen < |completed|
    ensures var h := completed[seen];
            && |used| == NUM && h == used[seen % NUM] && h < NUM == |use| == |info| == |status| && InRing(used, completed, seen + 1)
            && use[h].Head? && use[h].stage == Done && info[h] == use[h].b && status[h] == 0
            && ChainsOk(use[h := use[h].(stage := Seen)], desc, info, status, busy - {use[h].b}, free)
            && AtStage(use[h := use[h].(stage := Seen)], posted, taken, Posted) && AtStage(use[h := use[h].(stage := Seen)], completed, seen + 1, Done)
  {
    SameIndex(seen, |completed|);
    var h := completed[seen];
    Advance(use, desc, info, status, busy, free, h, Seen);
    assert DescOk(use, desc, info, status, busy, h);
    assert status[h := 0] == status;
  }

  lemma SeenFew(used: seq<nat>, completed: seq<nat>, seen: nat)
    requires InRing(used, completed, seen)
    ensures seen <= |completed|
  {}

  lemma SeenAll(used: seq<nat>, completed: seq<nat>, seen: nat)
    requires InRing(used, completed, seen) && seen % WRAP == |completed| % WRAP
    ensures seen == |completed|
  {
    SameIndex(seen, |completed|);
  }

  function BufOf(info: seq<int>, h: nat): int { if h < |info| then info[h] else -1 }

  /** Head h was done; its request has been seen and its buffer is no longer busy. */
  ghost predicate SeenNow(was: seq<Use>, now: seq<Use>, info: seq<int>, busy: set<nat>, h: nat)
    requires |was| == |now| == |info|
  {
    h < |was| && was[h].Head? && now[h] == was[h].(stage := Seen) && info[h] == was[h].b && was[h].b !in busy
  }

  lemma SeenMore(use0: seq<Use>, use1: seq<Use>, use2: seq<Use>, info: seq<int>, busy0: set<nat>, busy1: set<nat>, busy2: set<nat>, completed: seq<nat>, lo: nat, k: nat)
    requires |use0| == |use1| == |use2| == |info| == NUM && lo <= k < |completed|
    requires forall j :: lo <= j < k ==> SeenNow(use0, use1, info, busy1, completed[j])
    requires forall i :: 0 <= i < NUM && i !in completed[lo..k] ==> use1[i] == use0[i]
    requires busy1 <= busy0 && forall b :: b in busy0 - busy1 ==> exists j :: lo <= j < k && b == BufOf(info, completed[j])
    requires completed[k] < NUM && use1[completed[k]].Head? && use1[completed[k]].stage == Done && info[completed[k]] == use1[completed[k]].b
    requires use2 == use1[completed[k] := use1[completed[k]].(stage := Seen)] && busy2 == busy1 - {use1[completed[k]].b}
    ensures forall j :: lo <= j < k + 1 ==> SeenNow(use0, use2, info, busy2, completed[j])
    ensures forall i :: 0 <= i < NUM && i !in completed[lo..k + 1] ==> use2[i] == use0[i]
    ensures busy2 <= busy0 && forall b :: b in busy0 - busy2 ==> exists j :: lo <= j < k + 1 && b == BufOf(info, completed[j])
  {
    var h := completed[k];
    assert completed[lo..k + 1] == completed[lo..k] + [h];
    assert h !in completed[lo..k];
    assert use1[h] == use0[h];
    forall j | lo <= j < k + 1 ensures SeenNow(use0, use2, info, busy2, completed[j]) {
      if j < k {
        assert SeenNow(use0, use1, info, busy1, completed[j]) && completed[j] in completed[lo..k];
      }
    }
    forall b | b in busy0 - busy2 ensures exists j :: lo <= j < k + 1 && b == BufOf(info, completed[j]) {
      if b in busy1 {
        assert b == BufOf(info, completed[k]);
      } else {
        assert b in busy0 - busy1;
      }
    }
  }
}
