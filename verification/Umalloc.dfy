/**
  The Kernighan and Ritchie allocator of user/umalloc.c.  Addresses and sizes count headers.
  The free list is a ring through `next` in address order; `base`, of size 0, lies below the heap.
 */
module Umalloc {

  const HEADER := 16       // sizeof(Header)
  const MINCORE := 4096

  type Words = map<nat, nat>

  // ---------------------------------------------------------------- the ring

  function Succ(blocks: seq<nat>, i: nat): nat
    requires i < |blocks|
  {
    if i + 1 < |blocks| then blocks[i + 1] else blocks[0]
  }

  /** Block i of the ring is linked to the next one and does not overlap it. */
  ghost predicate LinkOk(blocks: seq<nat>, next: Words, size: Words, i: nat)
    requires i < |blocks|
  {
    && blocks[i] in next && blocks[i] in size && next[blocks[i]] == Succ(blocks, i)
    && (i > 0 <==> size[blocks[i]] >= 1)
    && (i + 1 < |blocks| ==> blocks[i] + size[blocks[i]] <= blocks[i + 1])
  }

  /** Block i and the next one do not touch. */
  ghost predicate Apart(blocks: seq<nat>, size: Words, i: nat)
    requires i < |blocks|
  {
    i + 1 < |blocks| && blocks[i] in size ==> blocks[i] + size[blocks[i]] < blocks[i + 1]
  }

  /** `blocks` is the ring in address order, starting at base. */
  ghost predicate RingOk(base: nat, blocks: seq<nat>, next: Words, size: Words) {
    && |blocks| >= 1 && blocks[0] == base
    && (forall i :: 0 <= i < |blocks| ==> LinkOk(blocks, next, size, i))
    && (forall i, j :: 0 <= i < j < |blocks| ==> blocks[i] < blocks[j])
  }

  ghost predicate Coalesced(blocks: seq<nat>, size: Words) {
    forall i :: 0 <= i < |blocks| ==> Apart(blocks, size, i)
  }

  /** Only at positions e and f may neighbours touch. */
  ghost predicate ApartBut(blocks: seq<nat>, size: Words, e: nat, f: nat) {
    forall i :: 0 <= i < |blocks| && i != e && i != f ==> Apart(blocks, size, i)
  }

  ghost predicate IsBlock(base: nat, blocks: seq<nat>, live: set<nat>, a: nat) {
    a in live || (a in blocks && a != base)
  }

  /** A unit lies in the block that owns it, and a block owns its units. */
  ghost predicate UnitOk(base: nat, blocks: seq<nat>, size: Words, live: set<nat>, own: Words, a: nat, c: nat) {
    c in own && own[c] == a <==> IsBlock(base, blocks, live, a) && a in size && a <= c < a + size[a]
  }

  /**
    `own` says of every unit obtained from sbrk which block it is in.  Being a map it makes the
    blocks disjoint; that every block owns its whole extent makes them a partition.
   */
  ghost predicate OwnOk(base: nat, blocks: seq<nat>, size: Words, live: set<nat>, own: Words) {
    && (forall a :: a in live ==> a in size && size[a] >= 1 && a !in blocks)
    && (forall c :: c in own ==> c > base)
    && (forall a, c :: UnitOk(base, blocks, size, live, own, a, c))
  }

  ghost predicate HeapOk(base: nat, blocks: seq<nat>, next: Words, size: Words, live: set<nat>, own: Words) {
    RingOk(base, blocks, next, size) && Coalesced(blocks, size) && OwnOk(base, blocks, size, live, own)
  }

  // ---------------------------------------------------------------- inserting and merging

  function Insert(blocks: seq<nat>, t: nat, bp: nat): seq<nat>
    requires t < |blocks|
  {
    blocks[..t + 1] + [bp] + blocks[t + 1..]
  }

  /** A live block fits between its neighbours on the list. */
  lemma Fits(base: nat, blocks: seq<nat>, next: Words, size: Words, live: set<nat>, own: Words, bp: nat, t: nat)
    requires RingOk(base, blocks, next, size) && OwnOk(base, blocks, size, live, own) && bp in live
    requires t < |blocks| && blocks[t] < bp && (t + 1 < |blocks| ==> bp < blocks[t + 1])
    ensures blocks[t] in size && bp in size && size[bp] >= 1 && blocks[t] + size[blocks[t]] <= bp
    ensures t + 1 < |blocks| ==> bp + size[bp] <= blocks[t + 1]
  {
    assert LinkOk(blocks, next, size, t) && UnitOk(base, blocks, size, live, own, bp, bp);
    assert UnitOk(base, blocks, size, live, own, blocks[t], bp);
    if t + 1 < |blocks| {
      assert LinkOk(blocks, next, size, t + 1);
      assert UnitOk(base, blocks, size, live, own, blocks[t + 1], blocks[t + 1]);
      assert UnitOk(base, blocks, size, live, own, bp, blocks[t + 1]);
    }
  }

  lemma InsertAt(blocks: seq<nat>, t: nat, bp: nat, i: nat)
    requires t < |blocks| && i <= |blocks|
    ensures Insert(blocks, t, bp)[i] == if i <= t then blocks[i] else if i == t + 1 then bp else blocks[i - 1]
    ensures |Insert(blocks, t, bp)| == |blocks| + 1
  {}

  lemma InsertLink(base: nat, blocks: seq<nat>, next: Words, size: Words, bp: nat, t: nat, i: nat)
    requires RingOk(base, blocks, next, size) && Coalesced(blocks, size) && bp in size && size[bp] >= 1
    requires t < |blocks| && blocks[t] in size && blocks[t] + size[blocks[t]] <= bp && blocks[t] < bp && bp !in blocks
    requires t + 1 < |blocks| ==> bp + size[bp] <= blocks[t + 1]
    requires i <= |blocks|
    ensures LinkOk(Insert(blocks, t, bp), next[bp := Succ(blocks, t)][blocks[t] := bp], size, i)
    ensures i != t && i != t + 1 ==> Apart(Insert(blocks, t, bp), size, i)
  {
    hide Insert;
    InsertAt(blocks, t, bp, i);
    InsertAt(blocks, t, bp, 0);
    if i < |blocks| { InsertAt(blocks, t, bp, i + 1); }
    var k := if i <= t then i else i - 1;
    assert LinkOk(blocks, next, size, k) && Apart(blocks, size, k);
  }

  /** Linking a block in after block t. */
  lemma InsertRing(base: nat, blocks: seq<nat>, next: Words, size: Words, bp: nat, t: nat)
    requires RingOk(base, blocks, next, size) && Coalesced(blocks, size) && bp in size && size[bp] >= 1
    requires t < |blocks| && blocks[t] in size && blocks[t] + size[blocks[t]] <= bp && blocks[t] < bp && bp !in blocks
    requires t + 1 < |blocks| ==> bp + size[bp] <= blocks[t + 1]
    ensures RingOk(base, Insert(blocks, t, bp), next[bp := Succ(blocks, t)][blocks[t] := bp], size)
    ensures ApartBut(Insert(blocks, t, bp), size, t, t + 1)
  {
    hide LinkOk, Apart;
    var b', n' := Insert(blocks, t, bp), next[bp := Succ(blocks, t)][blocks[t] := bp];
    assert forall i :: 0 <= i < |b'| ==> b'[i] == if i <= t then blocks[i] else if i == t + 1 then bp else blocks[i - 1];
    forall i | 0 <= i < |b'| ensures LinkOk(b', n', size, i) && (i != t && i != t + 1 ==> Apart(b', size, i)) {
      InsertLink(base, blocks, next, size, bp, t, i);
    }
    assert t + 1 < |blocks| ==> bp < blocks[t + 1];
  }

  function Remove(blocks: seq<nat>, i: nat): seq<nat>
    requires i < |blocks|
  {
    blocks[..i] + blocks[i + 1..]
  }

  lemma MergeLink(base: nat, blocks: seq<nat>, next: Words, size: Words, i: nat, k: nat)
    requires RingOk(base, blocks, next, size) && i + 1 < |blocks| && blocks[i] in size && blocks[i + 1] in size && blocks[i + 1] in next
    requires blocks[i] + size[blocks[i]] == blocks[i + 1] && k + 1 < |blocks|
    ensures LinkOk(Remove(blocks, i + 1), next[blocks[i] := next[blocks[i + 1]]], size[blocks[i] := size[blocks[i]] + size[blocks[i + 1]]], k)
    ensures Apart(blocks, size, if k < i then k else k + 1) ==>
              Apart(Remove(blocks, i + 1), size[blocks[i] := size[blocks[i]] + size[blocks[i + 1]]], k)
  {
    var b' := Remove(blocks, i + 1);
    assert b'[k] == blocks[if k <= i then k else k + 1] && b'[0] == blocks[0];
    assert k + 1 < |b'| ==> b'[k + 1] == blocks[if k + 1 <= i then k + 1 else k + 2];
    assert LinkOk(blocks, next, size, k) && LinkOk(blocks, next, size, k + 1);
  }

  /** Merging block i with the next one, which it touches; e is a place where blocks may still touch. */
  lemma MergeRing(base: nat, blocks: seq<nat>, next: Words, size: Words, i: nat, e: nat)
    requires RingOk(base, blocks, next, size) && i + 1 < |blocks| && blocks[i] in size && blocks[i + 1] in size && blocks[i + 1] in next
    requires blocks[i] + size[blocks[i]] == blocks[i + 1] && (e < i || e >= |blocks|)
    requires ApartBut(blocks, size, i, e)
    ensures RingOk(base, Remove(blocks, i + 1), next[blocks[i] := next[blocks[i + 1]]], size[blocks[i] := size[blocks[i]] + size[blocks[i + 1]]])
    ensures ApartBut(Remove(blocks, i + 1), size[blocks[i] := size[blocks[i]] + size[blocks[i + 1]]], e, e)
  {
    hide LinkOk, Apart;
    var b' := Remove(blocks, i + 1);
    var n', s' := next[blocks[i] := next[blocks[i + 1]]], size[blocks[i] := size[blocks[i]] + size[blocks[i + 1]]];
    forall k | 0 <= k < |b'| ensures LinkOk(b', n', s', k) && (k != e ==> Apart(b', s', k)) {
      MergeLink(base, blocks, next, size, i, k);
    }
  }

  lemma InsertOwn(base: nat, blocks: seq<nat>, size: Words, live: set<nat>, own: Words, bp: nat, t: nat)
    requires OwnOk(base, blocks, size, live, own) && bp in live && bp != base && t < |blocks|
    ensures OwnOk(base, Insert(blocks, t, bp), size, live - {bp}, own)
  {
    var b' := Insert(blocks, t, bp);
    assert forall a :: a in b' <==> a in blocks || a == bp;
    forall a, c ensures UnitOk(base, b', size, live - {bp}, own, a, c) {
      assert UnitOk(base, blocks, size, live, own, a, c);
    }
  }

  /** Ownership after block b has been taken over by block a. */
  ghost function Given(own: Words, b: nat, a: nat): Words {
    map c | c in own :: if own[c] == b then a else own[c]
  }

  lemma MergeOwn(base: nat, blocks: seq<nat>, next: Words, size: Words, live: set<nat>, own: Words, i: nat)
    requires RingOk(base, blocks, next, size) && OwnOk(base, blocks, size, live, own) && 0 < i && i + 1 < |blocks|
    requires blocks[i] in size && blocks[i + 1] in size && blocks[i] + size[blocks[i]] == blocks[i + 1]
    ensures OwnOk(base, Remove(blocks, i + 1), size[blocks[i] := size[blocks[i]] + size[blocks[i + 1]]], live, Given(own, blocks[i + 1], blocks[i]))
  {
    var p, u := blocks[i], blocks[i + 1];
    var b', s', o' := Remove(blocks, i + 1), size[p := size[p] + size[u]], Given(own, u, p);
    assert forall a :: a in blocks <==> a in b' || a == u;
    assert u !in b' by {
      assert forall k :: 0 <= k < |b'| ==> b'[k] == blocks[if k <= i then k else k + 1];
    }
    forall a, c ensures UnitOk(base, b', s', live, o', a, c) {
      assert UnitOk(base, blocks, size, live, own, a, c);
      assert UnitOk(base, blocks, size, live, own, p, c) && UnitOk(base, blocks, size, live, own, u, c);
    }
  }

  // ---------------------------------------------------------------- taking a block out

  lemma RemoveLink(base: nat, blocks: seq<nat>, next: Words, size: Words, i: nat, k: nat)
    requires RingOk(base, blocks, next, size) && Coalesced(blocks, size) && 0 < i < |blocks| && blocks[i] in next && k + 1 < |blocks|
    ensures LinkOk(Remove(blocks, i), next[blocks[i - 1] := next[blocks[i]]], size, k) && Apart(Remove(blocks, i), size, k)
  {
    var b' := Remove(blocks, i);
    assert b'[k] == blocks[if k < i then k else k + 1] && b'[0] == blocks[0];
    assert k + 1 < |b'| ==> b'[k + 1] == blocks[if k + 1 < i then k + 1 else k + 2];
    assert LinkOk(blocks, next, size, k) && LinkOk(blocks, next, size, k + 1) && LinkOk(blocks, next, size, i);
    assert Apart(blocks, size, k) && Apart(blocks, size, k + 1);
  }

  /** malloc takes a whole block: block i leaves the ring and becomes live. */
  lemma TakeWhole(base: nat, blocks: seq<nat>, next: Words, size: Words, live: set<nat>, own: Words, i: nat)
    requires HeapOk(base, blocks, next, size, live, own) && 0 < i < |blocks| && blocks[i] in next
    ensures HeapOk(base, Remove(blocks, i), next[blocks[i - 1] := next[blocks[i]]], size, live + {blocks[i]}, own)
  {
    hide LinkOk, Apart;
    var b', n', p := Remove(blocks, i), next[blocks[i - 1] := next[blocks[i]]], blocks[i];
    forall k | 0 <= k < |b'| ensures LinkOk(b', n', size, k) && Apart(b', size, k) {
      RemoveLink(base, blocks, next, size, i, k);
    }
    assert forall k :: 0 <= k < |b'| ==> b'[k] == blocks[if k < i then k else k + 1];
    assert p !in b' && forall a :: a in blocks <==> a in b' || a == p;
    BlockSize(base, blocks, next, size, i);
    forall a, c ensures UnitOk(base, b', size, live + {p}, own, a, c) {
      assert UnitOk(base, blocks, size, live, own, a, c);
    }
  }

  lemma BlockSize(base: nat, blocks: seq<nat>, next: Words, size: Words, i: nat)
    requires RingOk(base, blocks, next, size) && i < |blocks|
    ensures blocks[i] in size && blocks[i] in next && next[blocks[i]] == Succ(blocks, i)
    ensures (i > 0 <==> size[blocks[i]] >= 1) && (i > 0 ==> blocks[i] != base)
  {
    assert LinkOk(blocks, next, size, i);
  }

  /** Ownership after the units of block p from a upwards have become a block of their own. */
  ghost function Split(own: Words, p: nat, a: nat): Words {
    map c | c in own :: if own[c] == p && c >= a then a else own[c]
  }

  /** malloc takes the upper nunits of block i. */
  lemma TakePart(base: nat, blocks: seq<nat>, next: Words, size: Words, live: set<nat>, own: Words, i: nat, n: nat, p: nat, a: nat)
    requires HeapOk(base, blocks, next, size, live, own) && 0 < i < |blocks| && blocks[i] in size && 1 <= n < size[blocks[i]]
    requires p == blocks[i] && a == p + size[p] - n
    ensures a !in live && a !in blocks && Split(own, p, a).Keys == own.Keys
    ensures HeapOk(base, blocks, next, size[p := size[p] - n][a := n], live + {a}, Split(own, p, a))
  {
    var s', o' := size[p := size[p] - n][a := n], Split(own, p, a);
    BlockSize(base, blocks, next, size, i);
    assert UnitOk(base, blocks, size, live, own, p, a) && UnitOk(base, blocks, size, live, own, a, a);
    assert a !in live && a !in blocks by {
      if a in blocks {
        var k :| 0 <= k < |blocks| && blocks[k] == a;
        BlockSize(base, blocks, next, size, k);
      }
    }
    forall k | 0 <= k < |blocks| ensures LinkOk(blocks, next, s', k) && Apart(blocks, s', k) {
      assert LinkOk(blocks, next, size, k) && Apart(blocks, size, k);
    }
    forall b, c ensures UnitOk(base, blocks, s', live + {a}, o', b, c) {
      assert UnitOk(base, blocks, size, live, own, b, c) && UnitOk(base, blocks, size, live, own, p, c);
    }
  }

  // ---------------------------------------------------------------- the allocator

  /** The position after which an address belongs: the last block below it. */
  ghost predicate Place(blocks: seq<nat>, bp: nat, t: nat) {
    t < |blocks| && blocks[t] < bp && (t + 1 < |blocks| ==> bp < blocks[t + 1])
  }

  lemma PlaceIn(blocks: seq<nat>, bp: nat, t: nat)
    requires Place(blocks, bp, t)
    ensures t < |blocks| && blocks[t] < bp
  {}

  lemma {:induction false} FindPlace(base: nat, blocks: seq<nat>, next: Words, size: Words, bp: nat, n: nat) returns (t: nat)
    requires RingOk(base, blocks, next, size) && base < bp && bp !in blocks && 1 <= n <= |blocks|
    ensures t < n && blocks[t] < bp && (t + 1 < n ==> bp < blocks[t + 1])
  {
    if blocks[n - 1] < bp {
      t := n - 1;
    } else {
      assert blocks[n - 1] != bp;
      t := FindPlace(base, blocks, next, size, bp, n - 1);
    }
  }

  /** Where the search of free() stops, and how far it still has to go. */
  lemma SearchStep(base: nat, blocks: seq<nat>, next: Words, size: Words, bp: nat, t: nat, k: nat)
    requires RingOk(base, blocks, next, size) && base < bp && bp !in blocks && Place(blocks, bp, t) && k < |blocks|
    ensures blocks[k] in next && next[blocks[k]] == Succ(blocks, k)
    ensures k == t <==> (blocks[k] < bp < next[blocks[k]]) || (blocks[k] >= next[blocks[k]] && (bp > blocks[k] || bp < next[blocks[k]]))
  {
    assert LinkOk(blocks, next, size, k);
  }

  class Heap {
    const base: nat
    var next: Words          // s.ptr of every header
    var size: Words          // s.size of every header
    var freep: nat           // 0 before the first malloc

    ghost var blocks: seq<nat>
    ghost var live: set<nat>
    ghost var own: Words

    ghost predicate Valid()
      reads this
    {
      && base > 0
      && (freep == 0 ==> live == {} && own == map[] && blocks == [])
      && (freep != 0 ==> HeapOk(base, blocks, next, size, live, own) && freep in blocks)
    }

    constructor (base: nat)
      requires base > 0
      ensures Valid() && this.base == base && live == {} && own == map[]
    {
      this.base, next, size, freep, blocks, live, own := base, map[], map[], 0, [], {}, map[];
    }

    /** The search loop of free: the block after which bp belongs. */
    method FindPredecessor(bp: nat) returns (p: nat, ghost t: nat)
      requires Valid() && freep != 0 && base < bp && bp !in blocks
      ensures Place(blocks, bp, t) && p == blocks[t] && p in next
    {
      hide RingOk, Coalesced, OwnOk;
      t := FindPlace(base, blocks, next, size, bp, |blocks|) by { assert RingOk(base, blocks, next, size); RingNonempty(base, blocks, next, size); }
      ghost var k :| 0 <= k < |blocks| && blocks[k] == freep;
      p := freep;
      SearchStep(base, blocks, next, size, bp, t, k);
      while !(bp > p && bp < next[p])
        invariant 0 <= k < |blocks| && p == blocks[k] && p in next && next[p] == Succ(blocks, k)
        invariant k == t <==> (p < bp < next[p]) || (p >= next[p] && (bp > p || bp < next[p]))
        decreases if k <= t then t - k else t - k + |blocks|
      {
        if p >= next[p] && (bp > p || bp < next[p]) {
          break;
        }
        p := next[p];
        k := if k + 1 < |blocks| then k + 1 else 0;
        SearchStep(base, blocks, next, size, bp, t, k);
      }
    }

    /**
      free: put the block back in address order and merge it with the neighbours it touches.
      The units obtained stay the same; those of the block are in one free block now.
     */
    method Free(ap: nat)
      requires Valid() && freep != 0 && ap > 0 && ap - 1 in live
      modifies this
      ensures Valid() && freep != 0 && live == old(live) - {ap - 1} && own.Keys == old(own.Keys)
      ensures Kept(live, old(size), size)
      ensures HasRoom(blocks, size, old(size)[ap - 1])
      ensures exists t: nat, bp: nat :: bp + 1 == ap && Place(old(blocks), bp, t) && freep == old(blocks)[t]
    {
      hide RingOk, Coalesced, OwnOk, Insert, ApartBut, Place;
      var bp := ap - 1;
      LiveFacts(base, blocks, next, size, live, own, bp);
      var p, t := FindPredecessor(bp);
      PlaceIn(blocks, bp, t);
      LinkIn(base, blocks, next, size, live, own, bp, t);
      var u := next[p];
      ghost var live', n1 := live - {bp}, next[bp := u][p := bp];
      ghost var b2, o2 := MergeUp(base, Insert(blocks, t, bp), n1, size, live', own, t);
      if bp + size[bp] == u {
        next, size := next[bp := next[u]], size[bp := size[bp] + size[u]];
        n1 := n1[bp := n1[u]];
      } else {
        next := next[bp := u];
      }
      ghost var b3, o3 := MergeDown(base, b2, n1, size, live', o2, t);
      RoomAt(b3, size, p, bp, old(size)[bp]);
      assert n1 == next[p := bp];
      if p + size[p] == bp {
        next, size := next[p := next[bp]], size[p := size[p] + size[bp]];
        assert next == n1[p := n1[bp]];
      } else {
        next := next[p := bp];
      }
      freep := p;
      blocks, live, own := b3, live', o3;
    }

    /** Ask sbrk for at least nu units (`mem` is what it returns, 0 for an error) and free them. */
    method Morecore(nu: nat, mem: nat) returns (p: nat)
      requires Valid() && freep != 0 && nu >= 1 && FreshCore(base, own, mem, CoreUnits(nu))
      modifies this
      ensures Valid() && freep != 0 && live == old(live)
      ensures Kept(live, old(size), size)
      ensures mem == 0 ==> p == 0 && own == old(own) && blocks == old(blocks) && size == old(size) && freep == old(freep)
      ensures mem != 0 ==> p == freep && HasRoom(blocks, size, nu) && own.Keys == Grown(old(own.Keys), 1, mem, nu)
      ensures mem != 0 ==> forall c :: mem <= c < mem + 4096 ==> c in own
    {
      hide HeapOk, HasRoom;
      if mem == 0 {
        LiveSizes(base, blocks, next, size, live, own);
        return 0;
      }
      var n := CoreUnits(nu);
      AddRegion(base, blocks, next, size, live, own, mem, n);
      LiveSizes(base, blocks, next, size, live, own);
      size := size[mem := n];
      live, own := live + {mem}, own + (map c | c in Region(mem, n) :: mem);
      Free(mem + 1);
      RoomLess(blocks, size, n, nu);
      return freep;
    }

    /** The end of malloc: take nunits of p, which is big enough, off the list. */
    method Take(prevp: nat, q: nat, nunits: nat, ghost k0: nat, ghost k: nat) returns (ap: nat)
      requires Valid() && freep != 0 && nunits >= 1 && ScanAt(blocks, next, size, freep, k0, k, prevp, q, nunits)
      requires size[q] >= nunits
      modifies this
      ensures Valid() && freep != 0 && own.Keys == old(own.Keys)
      ensures ap > 0 && ap - 1 !in old(live) && live == old(live) + {ap - 1} && ap - 1 in size && size[ap - 1] == nunits
      ensures Kept(old(live), old(size), size)
      ensures ap == q + old(size)[q] - nunits + 1 && freep == prevp
    {
      hide HeapOk, Remove, Split, Scanned;
      LiveSizes(base, blocks, next, size, live, own);
      Takeable(base, blocks, next, size, live, own, k, nunits);
      var p := q;
      if size[p] == nunits {
        TakeWhole(base, blocks, next, size, live, own, k + 1);
        next := next[prevp := next[p]];
        blocks, live := Remove(blocks, k + 1), live + {p};
      } else {
        TakePart(base, blocks, next, size, live, own, k + 1, nunits, p, p + size[p] - nunits);
        size := size[p := size[p] - nunits];
        p := p + size[p];
        size := size[p := nunits];
        live, own := live + {p}, Split(own, q, p);
      }
      freep := prevp;
      return p + 1;
    }

    /**
      malloc: the payload address, or 0 if sbrk fails.  `calls` counts the calls of morecore, for
      which `mem` is the answer of sbrk.
     */
    method Malloc(nbytes: nat, mem: nat) returns (ap: nat, calls: nat)
      requires Valid() && CoreUnits(Units(nbytes)) * HEADER < 0x8000_0000
      requires FreshCore(base, own, mem, CoreUnits(Units(nbytes)))
      modifies this
      ensures Valid() && freep != 0 && calls <= 1
      ensures own.Keys == Grown(old(own.Keys), calls, mem, Units(nbytes))
      ensures ap == 0 ==> live == old(live) && calls == 1 && mem == 0 && !HasRoom(blocks, size, Units(nbytes))
      ensures ap != 0 ==>
                && ap - 1 !in old(live) && live == old(live) + {ap - 1} && ap - 1 in size
                && size[ap - 1] == Units(nbytes) && nbytes <= (size[ap - 1] - 1) * HEADER < nbytes + HEADER
      ensures Kept(old(live), old(size), size)
      ensures calls == 1 <==> !HasRoom(old(blocks), old(size), Units(nbytes))
      ensures calls == 1 && mem != 0 ==> forall c :: mem <= c < mem + 4096 ==> c in own
      ensures calls == 0 ==> NextFit(old(blocks), old(size), old(freep), Units(nbytes), ap - 1)
    {
      hide HeapOk, HasRoom, Grown, Kept, ScanAt, Left, NextFit;
      ghost var was, was' := size, own.Keys;
      ghost var blocks0, freep0 := blocks, freep;
      GrownOnce(was', mem, Units(nbytes));
      var nunits := (nbytes + HEADER - 1) / HEADER + 1;
      UnitsEnough(nbytes);
      calls := 0;
      if freep == 0 {
        freep, next, size := base, next[base := base], size[base := 0];
        blocks := [base];
        FirstRing(base, next, size, was);
        NoRoomYet(base, size, was, nunits);
      } else {
        KeptSame(base, blocks, next, size, live, own);
      }
      ghost var k0 := ScanStart(base, blocks, next, size, live, own, freep, nunits);
      ghost var k := k0;
      var prevp, p := freep, next[freep];
      while true
        invariant Valid() && freep != 0 && live == old(live) && p in next && p in size
        invariant ScanAt(blocks, next, size, freep, k0, k, prevp, p, nunits)
        invariant calls <= 1 && (calls == 1 ==> mem != 0 && HasRoom(blocks, size, nunits))
        invariant calls == 1 ==> forall c :: mem <= c < mem + 4096 ==> c in own
        invariant own.Keys == Grown(was', calls, mem, nunits) && Kept(live, was, size)
        invariant calls == 0 ==> if freep0 == 0 then !HasRoom(blocks, size, nunits) else blocks == blocks0 && size == was && freep == freep0
        invariant calls == 1 || freep0 == 0 ==> !HasRoom(blocks0, was, nunits)
        decreases 1 - calls, Left(blocks, k0, k)
      {
        if size[p] >= nunits {
          break;
        }
        if p == freep {
          ScanDone(base, blocks, next, size, live, own, freep, k0, k, prevp, p, nunits);
          ghost var mid := size;
          p := Morecore(nunits, mem);
          KeptOn(live, was, mid, size);
          GrownOnce(was', mem, nunits);
          calls := calls + 1;
          if p == 0 {
            return 0, calls;
          }
          k0 := ScanStart(base, blocks, next, size, live, own, freep, nunits);
          k := k0;
        } else {
          k := ScanOn(base, blocks, next, size, live, own, freep, k0, k, prevp, p, nunits);
        }
        prevp, p := p, next[p];
      }
      ghost var mid := size;
      ScanFound(blocks, next, size, freep, k0, k, prevp, p, nunits);
      ap := Take(prevp, p, nunits, k0, k);
      KeptOn(old(live), was, mid, size);
    }
  }

  /** Live blocks keep their sizes. */
  ghost predicate Kept(live: set<nat>, was: Words, now: Words) {
    forall a :: a in live ==> a in was && a in now && now[a] == was[a]
  }

  lemma KeptOn(live: set<nat>, a: Words, b: Words, c: Words)
    requires Kept(live, a, b) && Kept(live, b, c)
    ensures Kept(live, a, c)
  {}

  lemma KeptSame(base: nat, blocks: seq<nat>, next: Words, size: Words, live: set<nat>, own: Words)
    requires HeapOk(base, blocks, next, size, live, own)
    ensures Kept(live, size, size)
  {}

  ghost predicate HasRoom(blocks: seq<nat>, size: Words, n: nat) {
    exists i :: 0 <= i < |blocks| && blocks[i] in size && size[blocks[i]] >= n
  }

  lemma RingNonempty(base: nat, blocks: seq<nat>, next: Words, size: Words)
    requires RingOk(base, blocks, next, size)
    ensures |blocks| >= 1 && blocks[0] == base
  {}

  /** Linking the block in where it belongs, before any merge. */
  lemma LinkIn(base: nat, blocks: seq<nat>, next: Words, size: Words, live: set<nat>, own: Words, bp: nat, t: nat)
    requires HeapOk(base, blocks, next, size, live, own) && bp in live && Place(blocks, bp, t)
    ensures blocks[t] in size && blocks[t] in next && next[blocks[t]] in next && next[blocks[t]] in size && bp in size
    ensures next[blocks[t]] != bp && base <= blocks[t] < bp
    ensures HeapBut(base, Insert(blocks, t, bp), next[bp := next[blocks[t]]][blocks[t] := bp], size, live - {bp}, own, t, t + 1)
    ensures |Insert(blocks, t, bp)| == |blocks| + 1 && Insert(blocks, t, bp)[t] == blocks[t] && Insert(blocks, t, bp)[t + 1] == bp
  {
    LiveFacts(base, blocks, next, size, live, own, bp);
    BlockSize(base, blocks, next, size, t);
    BlockSize(base, blocks, next, size, if t + 1 < |blocks| then t + 1 else 0);
    Fits(base, blocks, next, size, live, own, bp, t);
    InsertRing(base, blocks, next, size, bp, t);
    InsertOwn(base, blocks, size, live, own, bp, t);
  }

  lemma RoomAt(blocks: seq<nat>, size: Words, p: nat, bp: nat, n: nat)
    requires p in size && bp in size && size[bp] >= n && p in blocks && (p + size[p] == bp || bp in blocks)
    ensures HasRoom(blocks, if p + size[p] == bp then size[p := size[p] + size[bp]] else size, n)
  {}

  lemma LiveFacts(base: nat, blocks: seq<nat>, next: Words, size: Words, live: set<nat>, own: Words, bp: nat)
    requires RingOk(base, blocks, next, size) && OwnOk(base, blocks, size, live, own) && bp in live
    ensures |blocks| >= 1 && base < bp && bp !in blocks && bp in size && size[bp] >= 1
    ensures forall a :: a in live ==> a in size
  {
    assert UnitOk(base, blocks, size, live, own, bp, bp);
  }

  lemma RemoveAt(blocks: seq<nat>, i: nat, k: nat)
    requires i < |blocks| && k + 1 < |blocks|
    ensures |Remove(blocks, i)| == |blocks| - 1 && Remove(blocks, i)[k] == blocks[if k < i then k else k + 1]
  {}

  ghost predicate HeapBut(base: nat, blocks: seq<nat>, next: Words, size: Words, live: set<nat>, own: Words, e: nat, f: nat) {
    RingOk(base, blocks, next, size) && ApartBut(blocks, size, e, f) && OwnOk(base, blocks, size, live, own)
  }

  /** The first merge of free: block t + 1, just linked in, takes over the one above if they touch. */
  lemma MergeUp(base: nat, blocks: seq<nat>, next: Words, size: Words, live: set<nat>, own: Words, t: nat)
    returns (blocks': seq<nat>, own': Words)
    requires HeapBut(base, blocks, next, size, live, own, t, t + 1) && t + 1 < |blocks|
    requires blocks[t] in size && blocks[t + 1] in size && blocks[t + 1] in next && next[blocks[t + 1]] in next && next[blocks[t + 1]] in size
    ensures var (bp, u) := (blocks[t + 1], next[blocks[t + 1]]);
            var up := bp + size[bp] == u;
            && HeapBut(base, blocks', if up then next[bp := next[u]] else next, if up then size[bp := size[bp] + size[u]] else size, live, own', t, t)
            && t + 1 < |blocks'| && blocks'[t] == blocks[t] && blocks'[t + 1] == bp && own'.Keys == own.Keys && u !in live
  {
    var bp, u := blocks[t + 1], next[blocks[t + 1]];
    BlockSize(base, blocks, next, size, t + 1);
    BlockSize(base, blocks, next, size, if t + 2 < |blocks| then t + 2 else 0);
    assert LinkOk(blocks, next, size, t + 1);
    assert u in blocks;
    if bp + size[bp] == u {
      assert t + 2 < |blocks|;
      MergeRing(base, blocks, next, size, t + 1, t);
      MergeOwn(base, blocks, next, size, live, own, t + 1);
      blocks', own' := Remove(blocks, t + 2), Given(own, u, bp);
    } else {
      blocks', own' := blocks, own;
      assert Apart(blocks, size, t + 1);
    }
  }

  /** The second merge of free: block t takes over the one above it if they touch. */
  lemma MergeDown(base: nat, blocks: seq<nat>, next: Words, size: Words, live: set<nat>, own: Words, t: nat)
    returns (blocks': seq<nat>, own': Words)
    requires HeapBut(base, blocks, next, size, live, own, t, t) && t + 1 < |blocks|
    requires blocks[t] in size && blocks[t + 1] in size && blocks[t + 1] in next
    ensures var (p, bp) := (blocks[t], blocks[t + 1]);
            var down := p + size[p] == bp;
            && HeapOk(base, blocks', if down then next[p := next[bp]] else next, if down then size[p := size[p] + size[bp]] else size, live, own')
            && t < |blocks'| && blocks'[t] == p && (down || bp in blocks') && own'.Keys == own.Keys && p !in live
  {
    var p, bp := blocks[t], blocks[t + 1];
    BlockSize(base, blocks, next, size, t);
    assert p in blocks && LinkOk(blocks, next, size, t);
    if p + size[p] == bp {
      MergeRing(base, blocks, next, size, t, |blocks|);
      MergeOwn(base, blocks, next, size, live, own, t);
      blocks', own' := Remove(blocks, t + 1), Given(own, bp, p);
      RemoveAt(blocks, t + 1, t);
    } else {
      blocks', own' := blocks, own;
      assert Apart(blocks, size, t);
    }
  }

  // ---------------------------------------------------------------- malloc's scan

  function Units(nbytes: nat): nat { (nbytes + HEADER - 1) / HEADER + 1 }

  function CoreUnits(nu: nat): nat { if nu < MINCORE then MINCORE else nu }

  predicate Within(a: nat, n: nat, c: nat) { a <= c < a + n }

  function Region(a: nat, n: nat): set<nat> { set c: nat | c < a + n && Within(a, n, c) }

  /** What sbrk promises: fresh units above base, or an error. */
  ghost predicate FreshCore(base: nat, own: Words, mem: nat, n: nat) {
    mem != 0 ==> mem > base && forall c :: Within(mem, n, c) ==> c !in own
  }

  lemma UnitsEnough(nbytes: nat)
    ensures nbytes <= (Units(nbytes) - 1) * HEADER < nbytes + HEADER && Units(nbytes) >= 1
  {}

  lemma LiveSizes(base: nat, blocks: seq<nat>, next: Words, size: Words, live: set<nat>, own: Words)
    requires HeapOk(base, blocks, next, size, live, own)
    ensures forall a :: a in live ==> a in size
  {}

  lemma RoomLess(blocks: seq<nat>, size: Words, n: nat, nu: nat)
    requires HasRoom(blocks, size, n) && nu <= n
    ensures HasRoom(blocks, size, nu)
  {}

  /** A new region is a live block of its own. */
  lemma AddRegion(base: nat, blocks: seq<nat>, next: Words, size: Words, live: set<nat>, own: Words, mem: nat, n: nat)
    requires HeapOk(base, blocks, next, size, live, own) && n >= 1 && mem > base && FreshCore(base, own, mem, n)
    ensures HeapOk(base, blocks, next, size[mem := n], live + {mem}, own + (map c | c in Region(mem, n) :: mem))
    ensures mem !in live
  {
    var s', o' := size[mem := n], own + (map c | c in Region(mem, n) :: mem);
    assert Within(mem, n, mem) && mem in Region(mem, n);
    assert UnitOk(base, blocks, size, live, own, mem, mem);
    assert mem !in live && mem !in blocks by {
      if mem in blocks {
        var k :| 0 <= k < |blocks| && blocks[k] == mem;
        BlockSize(base, blocks, next, size, k);
      }
    }
    forall k | 0 <= k < |blocks| ensures LinkOk(blocks, next, s', k) && Apart(blocks, s', k) {
      assert LinkOk(blocks, next, size, k) && Apart(blocks, size, k);
    }
    forall a, c ensures UnitOk(base, blocks, s', live + {mem}, o', a, c) {
      assert UnitOk(base, blocks, size, live, own, a, c);
    }
  }

  lemma FirstRing(base: nat, next: Words, size: Words, was: Words)
    requires base in next && next[base] == base && base in size && size[base] == 0
    ensures HeapOk(base, [base], next, size, {}, map[]) && Kept({}, was, size)
  {}

  function After(blocks: seq<nat>, i: nat): nat
    requires i < |blocks|
  {
    if i + 1 < |blocks| then i + 1 else 0
  }

  /** Blocks after position k0 and before position i, going round, are too small. */
  ghost predicate Scanned(blocks: seq<nat>, size: Words, k0: nat, i: nat, n: nat) {
    forall j :: 0 <= j < |blocks| && j != k0 && (if k0 < i then k0 < j < i else j > k0 || j < i) ==>
      blocks[j] in size && size[blocks[j]] < n
  }

  /** malloc is at prevp and p, positions k and k + 1, having started after freep, at position k0. */
  ghost predicate ScanAt(blocks: seq<nat>, next: Words, size: Words, freep: nat, k0: nat, k: nat, prevp: nat, p: nat, n: nat) {
    && k0 < |blocks| && k < |blocks| && blocks[k0] == freep && blocks[k] == prevp && Succ(blocks, k) == p && p in next && p in size
    && Scanned(blocks, size, k0, After(blocks, k), n)
  }

  /** How many blocks are left to scan. */
  function Left(blocks: seq<nat>, k0: nat, k: nat): nat {
    var i := if k + 1 < |blocks| then k + 1 else 0;
    if i > k0 then |blocks| + k0 - i else k0 - i
  }

  lemma StepRing(base: nat, blocks: seq<nat>, next: Words, size: Words, live: set<nat>, own: Words, i: nat)
    requires HeapOk(base, blocks, next, size, live, own) && i < |blocks|
    ensures blocks[i] in next && next[blocks[i]] == Succ(blocks, i) == blocks[After(blocks, i)]
    ensures Succ(blocks, i) in next && Succ(blocks, i) in size
  {
    BlockSize(base, blocks, next, size, i);
    BlockSize(base, blocks, next, size, After(blocks, i));
  }

  lemma ScanStart(base: nat, blocks: seq<nat>, next: Words, size: Words, live: set<nat>, own: Words, freep: nat, n: nat) returns (k0: nat)
    requires HeapOk(base, blocks, next, size, live, own) && freep in blocks
    ensures freep in next && next[freep] in next && next[freep] in size
    ensures ScanAt(blocks, next, size, freep, k0, k0, freep, next[freep], n)
  {
    k0 :| 0 <= k0 < |blocks| && blocks[k0] == freep;
    StepRing(base, blocks, next, size, live, own, k0);
  }

  lemma ScanOn(base: nat, blocks: seq<nat>, next: Words, size: Words, live: set<nat>, own: Words,
               freep: nat, k0: nat, k: nat, prevp: nat, p: nat, n: nat) returns (k': nat)
    requires HeapOk(base, blocks, next, size, live, own) && ScanAt(blocks, next, size, freep, k0, k, prevp, p, n)
    requires p != freep && size[p] < n
    ensures next[p] in next && next[p] in size && ScanAt(blocks, next, size, freep, k0, k', p, next[p], n)
    ensures Left(blocks, k0, k') < Left(blocks, k0, k)
  {
    k' := After(blocks, k);
    StepRing(base, blocks, next, size, live, own, k');
  }

  /** Back at freep with nothing found: no block is big enough. */
  lemma ScanDone(base: nat, blocks: seq<nat>, next: Words, size: Words, live: set<nat>, own: Words,
                 freep: nat, k0: nat, k: nat, prevp: nat, p: nat, n: nat)
    requires HeapOk(base, blocks, next, size, live, own) && ScanAt(blocks, next, size, freep, k0, k, prevp, p, n)
    requires p == freep && size[p] < n
    ensures !HasRoom(blocks, size, n)
  {}

  /** a is the last n units of the first block that has so many, going round from the one after freep. */
  ghost predicate NextFit(blocks: seq<nat>, size: Words, freep: nat, n: nat, a: int) {
    exists k0: nat, i: nat :: FitsAt(blocks, size, freep, k0, i, n, a)
  }

  ghost predicate FitsAt(blocks: seq<nat>, size: Words, freep: nat, k0: nat, i: nat, n: nat, a: int) {
    && k0 < |blocks| && i < |blocks| && blocks[k0] == freep && Scanned(blocks, size, k0, i, n)
    && blocks[i] in size && size[blocks[i]] >= n && a == blocks[i] + size[blocks[i]] - n
  }

  lemma ScanFound(blocks: seq<nat>, next: Words, size: Words, freep: nat, k0: nat, k: nat, prevp: nat, p: nat, n: nat)
    requires ScanAt(blocks, next, size, freep, k0, k, prevp, p, n) && size[p] >= n
    ensures HasRoom(blocks, size, n) && NextFit(blocks, size, freep, n, p + size[p] - n)
  {
    assert blocks[After(blocks, k)] == p;
    assert FitsAt(blocks, size, freep, k0, After(blocks, k), n, p + size[p] - n);
  }

  lemma NoRoomYet(base: nat, size: Words, was: Words, n: nat)
    requires base in size && size[base] == 0 && n >= 1
    ensures !HasRoom([base], size, n) && !HasRoom([], was, n)
  {}

  /** The units obtained from sbrk after `calls` calls of morecore. */
  function Grown(keys: set<nat>, calls: nat, mem: nat, nu: nat): set<nat> {
    if calls == 1 && mem != 0 then keys + Region(mem, CoreUnits(nu)) else keys
  }

  lemma GrownOnce(keys: set<nat>, mem: nat, nu: nat)
    ensures Grown(keys, 0, mem, nu) == keys && Grown(keys, 1, 0, nu) == keys
  {}

  lemma Takeable(base: nat, blocks: seq<nat>, next: Words, size: Words, live: set<nat>, own: Words, pi: nat, n: nat)
    requires HeapOk(base, blocks, next, size, live, own) && pi < |blocks| && n >= 1 && base > 0
    requires Succ(blocks, pi) in size && size[Succ(blocks, pi)] >= n
    ensures pi + 1 < |blocks| && Succ(blocks, pi) in next && Succ(blocks, pi) !in live
    ensures blocks[pi] in blocks && blocks[pi] in Remove(blocks, pi + 1) && blocks[pi] in next && blocks[pi] != 0
  {
    BlockSize(base, blocks, next, size, After(blocks, pi));
    BlockSize(base, blocks, next, size, pi);
    assert Succ(blocks, pi) in blocks;
    RemoveAt(blocks, pi + 1, pi);
    assert Remove(blocks, pi + 1)[pi] in Remove(blocks, pi + 1);
  }

  // ---------------------------------------------------------------- what a valid heap means

  /** Two different blocks, free or live, share no unit, and every unit obtained is in one of them. */
  lemma Partition(base: nat, blocks: seq<nat>, next: Words, size: Words, live: set<nat>, own: Words, c: nat)
    requires HeapOk(base, blocks, next, size, live, own)
    ensures c in own <==> exists a :: InBlock(base, blocks, size, live, a, c)
    ensures forall a, b :: InBlock(base, blocks, size, live, a, c) && InBlock(base, blocks, size, live, b, c) ==> a == b
  {
    if c in own {
      assert UnitOk(base, blocks, size, live, own, own[c], c) && InBlock(base, blocks, size, live, own[c], c);
    }
    forall a | InBlock(base, blocks, size, live, a, c) ensures c in own && own[c] == a {
      assert UnitOk(base, blocks, size, live, own, a, c);
    }
  }

  ghost predicate InBlock(base: nat, blocks: seq<nat>, size: Words, live: set<nat>, a: nat, c: nat) {
    IsBlock(base, blocks, live, a) && a in size && Within(a, size[a], c)
  }

  ghost function AllBlocks(base: nat, blocks: seq<nat>, live: set<nat>): set<nat> {
    live + set a | a in blocks && a != base
  }

  ghost function Total(size: Words, s: set<nat>): nat {
    if s == {} then 0 else var a :| a in s; (if a in size then size[a] else 0) + Total(size, s - {a})
  }

  ghost function UnitsOf(own: Words, s: set<nat>): set<nat> { set c | c in own && own[c] in s }

  lemma {:induction false} RegionCount(a: nat, n: nat)
    ensures |Region(a, n)| == n
  {
    if n > 0 {
      RegionCount(a, n - 1);
      assert Within(a, n, a + n - 1);
      assert forall c :: Within(a, n, c) <==> Within(a, n - 1, c) || c == a + n - 1;
      assert Region(a, n) == Region(a, n - 1) + {a + n - 1};
    }
  }

  lemma {:induction false} UnitsCount(base: nat, blocks: seq<nat>, next: Words, size: Words, live: set<nat>, own: Words, s: set<nat>)
    requires HeapOk(base, blocks, next, size, live, own) && s <= AllBlocks(base, blocks, live)
    ensures |UnitsOf(own, s)| == Total(size, s)
    decreases s
  {
    if s == {} {
      assert UnitsOf(own, s) == {};
    } else {
      var a :| a in s && Total(size, s) == (if a in size then size[a] else 0) + Total(size, s - {a});
      UnitsCount(base, blocks, next, size, live, own, s - {a});
      if a in blocks {
        var k :| 0 <= k < |blocks| && blocks[k] == a;
        BlockSize(base, blocks, next, size, k);
      }
      RegionCount(a, size[a]);
      forall c ensures c in own && own[c] == a <==> Within(a, size[a], c) {
        assert UnitOk(base, blocks, size, live, own, a, c);
      }
      assert UnitsOf(own, s) == UnitsOf(own, s - {a}) + Region(a, size[a]);
      assert UnitsOf(own, s - {a}) !! Region(a, size[a]);
    }
  }

  /** Nothing is lost: the sizes of all blocks, free and live, add up to the units obtained from sbrk. */
  lemma Conservation(base: nat, blocks: seq<nat>, next: Words, size: Words, live: set<nat>, own: Words)
    requires HeapOk(base, blocks, next, size, live, own)
    ensures Total(size, AllBlocks(base, blocks, live)) == |own.Keys|
  {
    var s := AllBlocks(base, blocks, live);
    UnitsCount(base, blocks, next, size, live, own, s);
    forall c | c in own ensures own[c] in s {
      assert UnitOk(base, blocks, size, live, own, own[c], c);
    }
    assert UnitsOf(own, s) == own.Keys;
  }
}
