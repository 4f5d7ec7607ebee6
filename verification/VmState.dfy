/** What the operations on user page tables may change, as relations between snapshots of the state. */
module VmState {
  import opened PageTable

  type Page = b: seq<bv8> | |b| == PGSIZE witness seq(PGSIZE, _ => 0)

  // ---------------------------------------------------------------- relations between states

  /** The free list holds exactly the free pages, each once. */
  ghost predicate FreeOk(free: seq<nat>, o: Owners) {
    && (forall i, j :: 0 <= i < j < |free| ==> free[i] != free[j])
    && (forall p :: p in free <==> p in o && o[p].Free?)
  }

  lemma FreeTake(free: seq<nat>, o: Owners)
    requires FreeOk(free, o) && free != []
    ensures free[0] in o && o[free[0]].Free? && FreeOk(free[1..], o[free[0] := Held])
  {}

  lemma FreePut(free: seq<nat>, o: Owners, p: nat)
    requires FreeOk(free, o) && p in o && !o[p].Free?
    ensures FreeOk([p] + free, o[p := Free])
  {}

  lemma FreeKeep(free: seq<nat>, o: Owners, p: nat, to: Role)
    requires FreeOk(free, o) && p in o && !o[p].Free? && !to.Free?
    ensures FreeOk(free, o[p := to])
  {}

  /** Pages in use kept their bytes. */
  ghost predicate SameBytes(o: Owners, d: map<nat, Page>, d': map<nat, Page>) {
    d'.Keys == d.Keys && forall p :: p in o && p in d && !o[p].Free? ==> d'[p] == d[p]
  }

  /** Owners, tables and bytes at one moment. */
  datatype Snap = Snap(o: Owners, t: Tables, d: map<nat, Page>)

  /** Nothing changed but that free pages became tables of root q. */
  ghost predicate Quiet(s: Snap, s': Snap, q: nat) {
    Grown(s.o, s'.o, q) && SamePtes(s.o, s.t, s'.t) && SameBytes(s.o, s.d, s'.d)
  }

  lemma QuietSame(s: Snap, q: nat)
    ensures Quiet(s, s, q)
  {}

  lemma QuietKeeps(s: Snap, s': Snap, q: nat, r: nat)
    requires Quiet(s, s', q) && IsRoot(s.o, r)
    ensures IsRoot(s'.o, r)
  {}

  lemma QuietTrans(a: Snap, b: Snap, c: Snap, q: nat)
    requires Quiet(a, b, q) && Quiet(b, c, q)
    ensures Quiet(a, c, q)
  {}

  /** What growing the table leaves for mappages to do. */
  lemma MapFrame(a: Snap, b: Snap, q: nat, v: nat, pa: nat)
    requires Quiet(a, b, q)
    ensures SameBytes(a.o, a.d, b.d) && Grown(a.o, b.o, q)
    ensures pa in a.o && a.o[pa].Held? ==>
              pa in b.o && b.o[pa].Held? && Grown(a.o[pa := User(q, v)], b.o[pa := User(q, v)], q)
    ensures IsRoot(a.o, q) && v < MAXVPN ==> Pte(b.t, q, v) == Pte(a.t, q, v)
  {}

  lemma OnePteAfter(a: Snap, b: Snap, t': Tables, q: nat, w: nat, e: nat)
    requires Quiet(a, b, q) && OnePte(b.o, b.t, t', q, w, e)
    ensures OnePte(a.o, a.t, t', q, w, e)
  {}

  predicate MappedIn(role: Role, q: nat, lo: nat, hi: nat) {
    role.User? && role.root == q && lo <= role.v < hi
  }

  /** The mappings of virtual pages [lo, hi) of root q are gone and their pages free; nothing else changed. */
  ghost predicate Removed(s: Snap, s': Snap, q: nat, lo: nat, hi: nat) {
    && s'.o.Keys == s.o.Keys
    && (forall p :: p in s.o ==> s'.o[p] == if MappedIn(s.o[p], q, lo, hi) then Free else s.o[p])
    && (forall r, v :: IsRoot(s.o, r) && 0 <= v < MAXVPN ==>
          Pte(s'.t, r, v) == if r == q && lo <= v < hi then 0 else Pte(s.t, r, v))
    && SameBytes(s'.o, s.d, s'.d)
  }

  lemma RemovedTrans(a: Snap, b: Snap, c: Snap, q: nat, lo: nat, mid: nat, hi: nat)
    requires lo <= mid <= hi && Removed(a, b, q, lo, mid) && Removed(b, c, q, mid, hi)
    ensures Removed(a, c, q, lo, hi)
  {}

  lemma RemovedNone(s: Snap, q: nat, lo: nat)
    ensures Removed(s, s, q, lo, lo)
  {}

  /** A slot that maps nothing has no page. */
  lemma RemovedNothing(s: Snap, q: nat, v: nat)
    requires Tree(s.t, s.o) && IsRoot(s.o, q) && v < MAXVPN && !PteV(Pte(s.t, q, v))
    ensures Removed(s, s, q, v, v + 1)
  {
    hide Tree;
    UnmappedIsZero(s.t, s.o, q, v);
    forall p | p in s.o ensures !MappedIn(s.o[p], q, v, v + 1) {
      Up(s.t, s.o, p);
    }
  }

  /** Clearing the slot of virtual page v and freeing its page. */
  lemma RemovedOne(s: Snap, l: nat, k: nat, v: nat, d': map<nat, Page>)
    requires Tree(s.t, s.o) && l in s.t && l in s.o && s.o[l].Low? && k < |s.t[l]| == NPTE && PteV(s.t[l][k])
    requires v == s.o[l].b * NPTE + k < TRAPVPN && Pa(s.t[l][k]) in s.o
    requires SameBytes(s.o[Pa(s.t[l][k]) := Free], s.d, d')
    ensures Tree(Stored(s.t, l, k, 0), s.o[Pa(s.t[l][k]) := Free])
    ensures Removed(s, Snap(s.o[Pa(s.t[l][k]) := Free], Stored(s.t, l, k, 0), d'), s.o[l].root, v, v + 1)
  {
    hide Tree, Stored, SameBytes;
    UnmapPage(s.t, s.o, l, k, Free);
    StoreOne(s.t, s.o, l, k, 0);
    SlotPte(s.t, s.o, l, k);
    forall p | p in s.o && MappedIn(s.o[p], s.o[l].root, v, v + 1) ensures p == Pa(s.t[l][k]) {
      MappedOnce(s.t, s.o, p);
    }
  }

  /** Clearing one of the two slots at the top frees nothing. */
  lemma RemovedSpecial(s: Snap, l: nat, k: nat)
    requires Tree(s.t, s.o) && l in s.t && l in s.o && s.o[l].Low? && k < NPTE && s.o[l].b * NPTE + k >= TRAPVPN
    ensures Tree(Stored(s.t, l, k, 0), s.o)
    ensures Removed(s, s.(t := Stored(s.t, l, k, 0)), s.o[l].root, s.o[l].b * NPTE + k, s.o[l].b * NPTE + k + 1)
  {
    MapSpecial(s.t, s.o, l, k, 0);
    StoreOne(s.t, s.o, l, k, 0);
    forall p | p in s.o ensures !MappedIn(s.o[p], s.o[l].root, s.o[l].b * NPTE + k, s.o[l].b * NPTE + k + 1) {
      Up(s.t, s.o, p);
    }
  }

  /** The pages of [start, end), those below p free, the rest not yet. */
  function Managed(start: nat, end: nat, p: nat): Owners {
    map q: nat | start <= q < end && q % PGSIZE == 0 && q + PGSIZE <= end :: if q < p then Free else Held
  }

  lemma ManagedStep(start: nat, end: nat, p: nat)
    requires start <= p && p % PGSIZE == 0 && p + PGSIZE <= end
    ensures p in Managed(start, end, p) && Managed(start, end, p)[p].Held?
    ensures Managed(start, end, p + PGSIZE) == Managed(start, end, p)[p := Free]
  {}

  lemma ManagedKeys(start: nat, end: nat, p: nat)
    ensures Managed(start, end, p).Keys == Managed(start, end, 0).Keys
  {}

  lemma ManagedStart(start: nat, end: nat)
    ensures FreeOk([], Managed(start, end, PagesUp(start) * PGSIZE))
  {}

  lemma ManagedDone(start: nat, end: nat, p: nat)
    requires end < p + PGSIZE && start > 0
    ensures Tree(map[], Managed(start, end, p)) && forall q :: q in Managed(start, end, p) ==> Managed(start, end, p)[q].Free?
  {}

  // ---------------------------------------------------------------- freewalk

  predicate Gone(o: Owners, p: nat, q: nat, i: nat)
    requires p in o && q in o
  {
    q != p && Below(o, p, q) && SlotIn(o[p], o[q]) < i
  }

  /** freewalk has freed what hung below the first i entries of table p. */
  ghost predicate Walked(s0: Snap, s: Snap, p: nat, i: nat) {
    && p in s0.t && p in s.t && p in s0.o && s.o.Keys == s0.o.Keys && s0.t.Keys <= s0.o.Keys && s.t.Keys <= s0.t.Keys
    && (forall q :: q in s0.o ==> s.o[q] == if Gone(s0.o, p, q, i) then Free else s0.o[q])
    && (forall q :: q in s0.t ==> (q in s.t <==> !Gone(s0.o, p, q, i)))
    && (forall q :: q in s.t && q != p ==> s.t[q] == s0.t[q])
    && |s.t[p]| == NPTE == |s0.t[p]|
    && (forall k :: 0 <= k < NPTE ==> if k < i then !PteV(s.t[p][k]) else s.t[p][k] == s0.t[p][k])
    && SameBytes(s.o, s0.d, s.d)
  }

  lemma WalkedStart(s: Snap, p: nat)
    requires Tree(s.t, s.o) && p in s.t
    ensures p in s.o && s.o[p].IsTable() && Walked(s, s, p, 0)
  {}

  /** With no leaf left below it, a valid entry of a table leads to a lower table of the same tree. */
  lemma WalkedEntry(s: Snap, p: nat, i: nat)
    requires Tree(s.t, s.o) && p in s.t && p in s.o && i < NPTE && NoLeaf(s.t, s.o, RootOf(p, s.o[p]))
    ensures |s.t[p]| == NPTE
    ensures PteV(s.t[p][i]) ==>
              && (s.o[p].Root? || s.o[p].Mid?) && !IsLeaf(s.t[p][i]) && Pa(s.t[p][i]) in s.t && Pa(s.t[p][i]) in s.o
              && s.o[Pa(s.t[p][i])] == Kid(p, s.o[p], i)
  {
    hide Tree;
    Down(s.t, s.o, p, i);
  }

  lemma WalkedHas(s0: Snap, s: Snap, p: nat, i: nat)
    requires Walked(s0, s, p, i)
    ensures p in s.t && p in s.o && s.o[p] == s0.o[p] && |s.t[p]| == NPTE
  {}

  lemma CutIsStored(t: Tables, sub: set<nat>, p: nat, i: nat)
    requires p in t && i < |t[p]| && p !in sub
    ensures Stored(t - sub, p, i, 0) == Cut(t, sub, p, i)
  {}

  lemma NoLeafAfter(t: Tables, o: Owners, sub: set<nat>, p: nat, i: nat, r: nat)
    requires NoLeaf(t, o, r) && p in t && p in o && !o[p].Low? && i < |t[p]|
    ensures NoLeaf(Cut(t, sub, p, i), Freed(o, sub), r)
  {}

  lemma WalkedBytes(s0: Snap, s: Snap, p: nat, d': map<nat, Page>)
    requires Walked(s0, s, p, NPTE) && SameBytes(s.o[p := Free], s.d, d')
    ensures SameBytes(s.o[p := Free], s0.d, d')
  {}

  lemma WalkedSkip(s0: Snap, s: Snap, p: nat, i: nat)
    requires Tree(s0.t, s0.o) && Walked(s0, s, p, i) && i < NPTE && !PteV(s.t[p][i])
    ensures Walked(s0, s, p, i + 1)
  {
    hide Tree;
    forall q | q in s0.o ensures Gone(s0.o, p, q, i + 1) == Gone(s0.o, p, q, i) {
      if HangsAt(s0.o, p, q, i) {
        HangsBelow(s0.t, s0.o, p, q);
      }
    }
  }

  lemma GoneNext(s0: Snap, s: Snap, p: nat, i: nat, q: nat)
    requires Tree(s.t, s.o) && Walked(s0, s, p, i) && i < NPTE && PteV(s.t[p][i]) && (s0.o[p].Root? || s0.o[p].Mid?) && q in s0.o
    ensures s.o.Keys == s0.o.Keys && Pa(s.t[p][i]) in s.o && Gone(s0.o, p, q, i + 1) == (Gone(s0.o, p, q, i) || Below(s.o, Pa(s.t[p][i]), q))
  {
    hide Tree, SameBytes;
    SubtreeAt(s.t, s.o, p, i, q);
  }

  lemma WalkedStep(s0: Snap, s: Snap, p: nat, i: nat, sub: set<nat>, d': map<nat, Page>)
    requires Walked(s0, s, p, i) && i < NPTE && p !in sub && SameBytes(Freed(s.o, sub), s.d, d')
    requires forall q :: q in s0.o ==> Gone(s0.o, p, q, i + 1) == (Gone(s0.o, p, q, i) || q in sub)
    ensures Walked(s0, Snap(Freed(s.o, sub), Cut(s.t, sub, p, i), d'), p, i + 1)
  {
    hide Gone;
  }

  lemma WalkedDone(s0: Snap, s: Snap, p: nat)
    requires Tree(s0.t, s0.o) && Walked(s0, s, p, NPTE)
    ensures s.o[p := Free] == Freed(s0.o, Subtree(s0.o, p)) && s.t - {p} == s0.t - Subtree(s0.o, p)
  {
    hide Tree, SameBytes;
    forall q | q in s0.o && q != p && Below(s0.o, p, q) ensures Gone(s0.o, p, q, NPTE) {
      HangsBelow(s0.t, s0.o, p, q);
    }
    assert forall q :: q in s0.o ==> (q in Subtree(s0.o, p) <==> q == p || Gone(s0.o, p, q, NPTE));
  }

  // ---------------------------------------------------------------- a whole address space

  /** PGROUNDUP(sz) / PGSIZE */
  function PagesUp(sz: nat): nat { (sz + PGSIZE - 1) / PGSIZE }

  /** User memory of root r lies below virtual page n; the two pages at the top are not for user code. */
  ghost predicate Bounded(t: Tables, r: nat, n: nat) {
    && (forall v :: 0 <= v < TRAPVPN && PteV(Pte(t, r, v)) ==> v < n)
    && (forall v :: TRAPVPN <= v < MAXVPN ==> !PteU(Pte(t, r, v)))
  }

  /** Root q, its tables and its pages are all free, each page of them was its own, and nothing else changed. */
  ghost predicate TornDown(s: Snap, s': Snap, q: nat) {
    && s'.o.Keys == s.o.Keys
    && (forall p :: p in s.o ==> s'.o[p] == if Rooted(p, s.o[p], q) then Free else s.o[p])
    && (forall r, v :: IsRoot(s.o, r) && r != q && 0 <= v < MAXVPN ==> Pte(s'.t, r, v) == Pte(s.t, r, v))
    && SameBytes(s'.o, s.d, s'.d)
  }

  lemma EmptyNoLeaf(t: Tables, o: Owners, r: nat)
    requires Tree(t, o) && IsRoot(o, r) && forall v :: 0 <= v < MAXVPN ==> !PteV(Pte(t, r, v))
    ensures NoLeaf(t, o, r)
  {
    hide Tree;
    forall l, k | l in t && l in o && o[l].Low? && o[l].root == r && 0 <= k < |t[l]| ensures !PteV(t[l][k]) {
      TableAt(t, o, l);
      IndexSplit(o[l].b, k);
      assert Pte(t, r, o[l].b * NPTE + k) == t[l][k];
    }
  }

  lemma TornByFreewalk(s: Snap, d': map<nat, Page>, q: nat)
    requires Tree(s.t, s.o) && IsRoot(s.o, q) && NoLeaf(s.t, s.o, q) && SameBytes(Freed(s.o, Subtree(s.o, q)), s.d, d')
    ensures TornDown(s, Snap(Freed(s.o, Subtree(s.o, q)), s.t - Subtree(s.o, q), d'), q)
  {
    hide Tree;
    forall p | p in s.o ensures Rooted(p, s.o[p], q) <==> p in Subtree(s.o, q) {
      NoLeafNoPage(s.t, s.o, q, p);
    }
    forall r, v | IsRoot(s.o, r) && r != q && 0 <= v < MAXVPN
      ensures Pte(s.t - Subtree(s.o, q), r, v) == Pte(s.t, r, v)
    {
      DropPte(s.t, s.o, q, r, v);
    }
  }

  lemma TornAfter(a: Snap, b: Snap, c: Snap, q: nat, lo: nat, hi: nat)
    requires Removed(a, b, q, lo, hi) && TornDown(b, c, q)
    ensures TornDown(a, c, q)
  {}

  lemma RemovedEmpty(a: Snap, b: Snap, q: nat, n: nat)
    requires Removed(a, b, q, 0, n) && IsRoot(a.o, q)
    requires forall v :: 0 <= v < MAXVPN && PteV(Pte(a.t, q, v)) ==> v < n
    ensures forall v :: 0 <= v < MAXVPN ==> !PteV(Pte(b.t, q, v))
  {}

  /** Free page q has become a root with some tables; nothing else changed. */
  ghost predicate Built(s: Snap, s': Snap, q: nat) {
    && q in s.o && s.o[q].Free? && IsRoot(s'.o, q) && s'.o.Keys == s.o.Keys
    && (forall p :: p in s.o && p != q ==>
          s'.o[p] == s.o[p] || (s.o[p].Free? && (s'.o[p].Mid? || s'.o[p].Low?) && s'.o[p].root == q))
    && SamePtes(s.o, s.t, s'.t) && SameBytes(s.o, s.d, s'.d)
  }

  lemma BuiltMore(a: Snap, b: Snap, c: Snap, q: nat, w: nat, e: nat)
    requires Built(a, b, q) && Grown(b.o, c.o, q) && SameBytes(b.o, b.d, c.d)
    requires SamePtes(b.o, b.t, c.t) || OnePte(b.o, b.t, c.t, q, w, e)
    ensures Built(a, c, q)
  {}

  /** Creating an address space and tearing it down again conserves every page. */
  lemma BuiltTorn(a: Snap, b: Snap, c: Snap, q: nat)
    requires Tree(a.t, a.o) && Built(a, b, q) && TornDown(b, c, q)
    ensures c.o == a.o && SamePtes(a.o, a.t, c.t) && SameBytes(a.o, a.d, c.d)
  {
    hide Tree;
    forall p | p in a.o ensures !Rooted(p, a.o[p], q) || p == q {
      Up(a.t, a.o, p);
    }
    assert forall r :: IsRoot(a.o, r) ==> IsRoot(b.o, r) && r != q;
  }

  /** Root q maps nothing but perhaps the trampoline (entry a) and the trapframe (entry b). */
  ghost predicate OnlyTop(t: Tables, q: nat, a: nat, b: nat) {
    forall v :: 0 <= v < MAXVPN ==> Pte(t, q, v) == if v == TRAPVPN + 1 then a else if v == TRAPVPN then b else 0
  }

  lemma TopStep(o: Owners, t: Tables, t': Tables, q: nat, a: nat, b: nat, a': nat, b': nat)
    requires IsRoot(o, q) && OnlyTop(t, q, a, b)
    requires (OnePte(o, t, t', q, TRAPVPN + 1, a') && b' == b) || (OnePte(o, t, t', q, TRAPVPN, b') && a' == a)
    ensures OnlyTop(t', q, a', b')
  {}

  lemma TopSlot(t: Tables, q: nat, a: nat, b: nat)
    requires OnlyTop(t, q, a, b)
    ensures Pte(t, q, TRAPVPN + 1) == a && Pte(t, q, TRAPVPN) == b
    ensures a == 0 && b == 0 ==> forall v :: 0 <= v < MAXVPN && PteV(Pte(t, q, v)) ==> v < PagesUp(0)
  {}

  lemma TopCleared(s: Snap, s': Snap, q: nat, a: nat)
    requires IsRoot(s.o, q) && OnlyTop(s.t, q, a, 0) && Removed(s, s', q, TRAPVPN + 1, TRAPVPN + 2)
    ensures OnlyTop(s'.t, q, 0, 0)
  {}

  lemma TopSame(o: Owners, t: Tables, t': Tables, q: nat, a: nat, b: nat)
    requires IsRoot(o, q) && OnlyTop(t, q, a, b) && SamePtes(o, t, t')
    ensures OnlyTop(t', q, a, b)
  {}

  lemma TopGone(a: Snap, b: Snap, c: Snap, q: nat, n: nat)
    requires IsRoot(a.o, q) && Bounded(a.t, q, n)
    requires Removed(a, b, q, TRAPVPN + 1, TRAPVPN + 2) && Removed(b, c, q, TRAPVPN, TRAPVPN + 1)
    ensures forall v :: 0 <= v < MAXVPN && PteV(Pte(c.t, q, v)) ==> v < n
  {}

  lemma BuiltIsRoot(a: Snap, b: Snap, q: nat)
    requires Built(a, b, q)
    ensures IsRoot(b.o, q) && q in a.o && a.o[q].Free?
  {}

  lemma NoPageZero(t: Tables, o: Owners)
    requires Tree(t, o)
    ensures 0 !in o
  {}

  lemma BuiltRoot(s: Snap, q: nat, d': map<nat, Page>)
    requires Tree(s.t, s.o) && q in s.o && s.o[q].Free? && SameBytes(s.o, s.d, d')
    ensures Built(s, Snap(s.o[q := Held][q := Root], s.t[q := ZeroTable()], d'), q)
    ensures Tree(s.t[q := ZeroTable()], s.o[q := Held][q := Root])
    ensures OnlyTop(s.t[q := ZeroTable()], q, 0, 0)
  {
    hide Tree, ZeroTable;
    FlipIdle(s.t, s.o, q, Held);
    NewRoot(s.t, s.o[q := Held], q, ZeroTable());
    Pages(s.t, s.o);
    forall r, v ensures Pte(s.t[q := ZeroTable()], r, v) == Pte(s.t, r, v) {
      ZeroRow(s.t, q, ZeroTable(), r, v);
    }
    forall v | 0 <= v < MAXVPN ensures Pte(s.t, q, v) == 0 {
      assert Next(s.t, q, v / NPTE / NPTE) == 0 && 0 !in s.t;
    }
  }

  // ---------------------------------------------------------------- adding user pages

  /** Virtual pages [lo, hi) of root q may have been mapped to free pages; nothing else changed. */
  ghost predicate Added(s: Snap, s': Snap, q: nat, lo: nat, hi: nat) {
    && s'.o.Keys == s.o.Keys
    && (forall p :: p in s.o ==>
          || s'.o[p] == s.o[p]
          || (s.o[p].Free? && (((s'.o[p].Mid? || s'.o[p].Low?) && s'.o[p].root == q) || MappedIn(s'.o[p], q, lo, hi))))
    && (forall r, v :: IsRoot(s.o, r) && 0 <= v < MAXVPN && !(r == q && lo <= v < hi) ==> Pte(s'.t, r, v) == Pte(s.t, r, v))
    && SameBytes(s.o, s.d, s'.d)
  }

  lemma QuietIsAdded(s: Snap, s': Snap, q: nat, lo: nat)
    requires Quiet(s, s', q)
    ensures Added(s, s', q, lo, lo)
  {}

  lemma AddedRoot(s: Snap, s': Snap, q: nat, lo: nat, hi: nat)
    requires Added(s, s', q, lo, hi)
    ensures forall r :: IsRoot(s.o, r) ==> IsRoot(s'.o, r)
  {}

  lemma QuietHeld(s: Snap, s': Snap, q: nat, pa: nat)
    requires Quiet(s, s', q) && pa in s.o && s.o[pa].Held?
    ensures pa in s'.o && s'.o[pa].Held?
  {}

  lemma PageAligned(t: Tables, o: Owners, pa: nat)
    requires Tree(t, o) && pa in o
    ensures pa % PGSIZE == 0
  {}

  lemma AddedTrans(a: Snap, b: Snap, c: Snap, q: nat, lo: nat, mid: nat, hi: nat)
    requires lo <= mid <= hi && Added(a, b, q, lo, mid) && Added(b, c, q, mid, hi)
    ensures Added(a, c, q, lo, hi)
  {}

  /** Taking the pages out again leaves at most some empty tables behind. */
  lemma AddedRemoved(a: Snap, b: Snap, c: Snap, q: nat, lo: nat, hi: nat)
    requires Tree(a.t, a.o) && Added(a, b, q, lo, hi) && Removed(b, c, q, lo, hi) && IsRoot(a.o, q)
    requires forall v :: lo <= v < hi ==> v < TRAPVPN && Pte(a.t, q, v) == 0
    ensures Quiet(a, c, q)
  {
    hide Tree;
    AddedRoot(a, b, q, lo, hi);
    forall p | p in a.o ensures !MappedIn(a.o[p], q, lo, hi) {
      Up(a.t, a.o, p);
    }
  }

  /** kalloc, fill, mappages: the page is in. */
  lemma AddedOne(a: Snap, b: Snap, c: Snap, q: nat, v: nat, pa: nat, e: nat)
    requires pa in a.o && a.o[pa].Free? && b.o == a.o[pa := Held] && b.t == a.t && SameBytes(a.o, a.d, b.d)
    requires OnePte(b.o, b.t, c.t, q, v, e) && SameBytes(b.o, b.d, c.d) && Grown(b.o[pa := User(q, v)], c.o, q)
    ensures Added(a, c, q, v, v + 1)
  {}

  /** kalloc, fill, mappages failed, kfree. */
  lemma QuietBack(a: Snap, b: Snap, c: Snap, d': map<nat, Page>, q: nat, pa: nat)
    requires pa in a.o && a.o[pa].Free? && b.o == a.o[pa := Held] && b.t == a.t && SameBytes(a.o, a.d, b.d)
    requires Quiet(b, c, q) && SameBytes(c.o[pa := Free], c.d, d')
    ensures pa in c.o && c.o[pa].Held? && Quiet(a, Snap(c.o[pa := Free], c.t, d'), q)
  {}

  lemma PageStep(va: nat, n: nat)
    ensures (va + n * PGSIZE) / PGSIZE == va / PGSIZE + n
    ensures va % PGSIZE == 0 && va / PGSIZE + n < MAXVPN ==> va + n * PGSIZE < MAXVPN * PGSIZE
  {}

  /** PX(level, va) */
  function Px(level: nat, va: nat): nat
    requires level <= 2
  {
    (if level == 0 then va / 0x1000 else if level == 1 then va / 0x20_0000 else va / 0x4000_0000) % NPTE
  }

  /** The three indices of a virtual address are the base-512 digits of its page number. */
  lemma PxDigits(va: nat)
    requires va < MAXVPN * PGSIZE
    ensures Px(0, va) == va / PGSIZE % NPTE && Px(1, va) == va / PGSIZE / NPTE % NPTE
    ensures Px(2, va) == va / PGSIZE / NPTE / NPTE < NMID && va / PGSIZE / NPTE < NLOW
    ensures Px(2, va) * NPTE + Px(1, va) == va / PGSIZE / NPTE
  {}

  function ZeroTable(): (z: seq<nat>)
    ensures Zeroed(z)
  {
    seq(NPTE, _ => 0)
  }

  lemma FilledBytes(o: Owners, d: map<nat, Page>, d': map<nat, Page>, pa: nat, contents: Page)
    requires SameBytes(o, d, d') && pa in o && o[pa].Free? && pa in d
    ensures SameBytes(o, d, d'[pa := contents])
  {}

  lemma AddedAt(b: Snap, c: Snap, q: nat, v: nat, pa: nat, e: nat)
    requires IsRoot(b.o, q) && v < MAXVPN && pa in b.o && b.o[pa].Held? && pa in b.d
    requires OnePte(b.o, b.t, c.t, q, v, e) && SameBytes(b.o, b.d, c.d)
    ensures Pte(c.t, q, v) == e && pa in c.d && c.d[pa] == b.d[pa]
  {}

  // ---------------------------------------------------------------- what a process sees

  function ZeroPage(): Page {
    seq(PGSIZE, _ => 0)
  }

  /** Virtual page v of root r: the page mapped there, or zeros if none is yet. */
  function UserPage(s: Snap, r: nat, v: nat): Page {
    var e := Pte(s.t, r, v);
    if PteV(e) && Pa(e) in s.d then s.d[Pa(e)] else ZeroPage()
  }

  /** The memory of every process, below the trapframe, except pages [lo, hi) of root q. */
  ghost predicate SameMemory(s: Snap, s': Snap, q: nat, lo: nat, hi: nat) {
    forall r, v :: IsRoot(s.o, r) && 0 <= v < TRAPVPN && !(r == q && lo <= v < hi) ==> UserPage(s', r, v) == UserPage(s, r, v)
  }

  lemma MappedPage(t: Tables, o: Owners, r: nat, v: nat)
    requires Tree(t, o) && IsRoot(o, r) && v < TRAPVPN && PteV(Pte(t, r, v))
    ensures Pa(Pte(t, r, v)) in o && o[Pa(Pte(t, r, v))] == User(r, v) && IsLeaf(Pte(t, r, v))
  {
    hide Tree;
    WalkRoles(t, o, r, v / NPTE);
    Down(t, o, LowPage(t, r, v / NPTE), v % NPTE);
    IndexSplit(v / NPTE, v % NPTE);
  }

  lemma AddedMemory(s: Snap, s': Snap, q: nat, lo: nat, hi: nat)
    requires Tree(s.t, s.o) && s.d.Keys == s.o.Keys && Added(s, s', q, lo, hi)
    ensures SameMemory(s, s', q, lo, hi)
  {
    hide Tree;
    forall r, v | IsRoot(s.o, r) && 0 <= v < TRAPVPN && !(r == q && lo <= v < hi)
      ensures UserPage(s', r, v) == UserPage(s, r, v)
    {
      if PteV(Pte(s.t, r, v)) {
        MappedPage(s.t, s.o, r, v);
      }
    }
  }

  lemma RemovedMemory(s: Snap, s': Snap, q: nat, lo: nat, hi: nat)
    requires Tree(s.t, s.o) && s.d.Keys == s.o.Keys && Removed(s, s', q, lo, hi)
    ensures SameMemory(s, s', q, lo, hi)
  {
    hide Tree;
    forall r, v | IsRoot(s.o, r) && 0 <= v < TRAPVPN && !(r == q && lo <= v < hi)
      ensures UserPage(s', r, v) == UserPage(s, r, v)
    {
      if PteV(Pte(s.t, r, v)) {
        MappedPage(s.t, s.o, r, v);
      }
    }
  }

  lemma SameMemoryRefl(s: Snap)
    ensures SameMemory(s, s, 0, 0, 0)
  {}

  /** Pages [lo, hi) of root r are mapped with the permissions perm and no others. */
  ghost predicate MappedAs(t: Tables, r: nat, lo: nat, hi: nat, perm: nat) {
    forall v :: lo <= v < hi ==> PteV(Pte(t, r, v)) && Flags(Pte(t, r, v)) == perm / 2 * 2 + 1
  }

  lemma MappedMore(s: Snap, s': Snap, q: nat, lo: nat, v: nat, perm: nat)
    requires MappedAs(s.t, q, lo, v, perm) && Added(s, s', q, v, v + 1) && IsRoot(s.o, q) && v < MAXVPN
    requires PteV(Pte(s'.t, q, v)) && Flags(Pte(s'.t, q, v)) == perm / 2 * 2 + 1
    ensures MappedAs(s'.t, q, lo, v + 1, perm)
  {}

  lemma PagesUpBounds(sz: nat, m: nat)
    ensures m * PGSIZE < sz ==> m < PagesUp(sz)
    ensures sz <= m * PGSIZE ==> PagesUp(sz) <= m
    ensures PagesUp(m * PGSIZE) == m
  {}

  lemma RoundUp(a: nat)
    ensures PagesUp(a) * PGSIZE >= a && (PagesUp(a) * PGSIZE) % PGSIZE == 0
  {}

  lemma PagesUpMono(a: nat, b: nat)
    requires a <= b
    ensures PagesUp(a) <= PagesUp(b)
  {}

  lemma MappedNone(t: Tables, r: nat, lo: nat, perm: nat)
    ensures MappedAs(t, r, lo, lo, perm)
  {}

  /** The next page above the old top is not mapped. */
  lemma GrowSlot(s0: Snap, s: Snap, q: nat, lo: nat, v: nat)
    requires IsRoot(s0.o, q) && Added(s0, s, q, lo, v) && Bounded(s0.t, q, lo) && lo <= v < TRAPVPN
    ensures !PteV(Pte(s.t, q, v))
  {}

  /** A zeroed page where none was changes nothing a process can see. */
  lemma GrowMemory(s0: Snap, s: Snap, s': Snap, q: nat, v: nat)
    requires SameMemory(s0, s, 0, 0, 0) && (forall r :: IsRoot(s0.o, r) ==> IsRoot(s.o, r) && r != 0)
    requires Tree(s.t, s.o) && s.d.Keys == s.o.Keys && Added(s, s', q, v, v + 1)
    requires !PteV(Pte(s.t, q, v)) && UserPage(s', q, v) == ZeroPage()
    ensures SameMemory(s0, s', 0, 0, 0)
  {
    hide Tree, Added;
    AddedMemory(s, s', q, v, v + 1);
  }

  lemma GrowUndone(s0: Snap, s: Snap, s': Snap, q: nat, lo: nat, hi: nat)
    requires Tree(s0.t, s0.o) && s0.d.Keys == s0.o.Keys && IsRoot(s0.o, q) && Bounded(s0.t, q, lo) && hi <= TRAPVPN
    requires Added(s0, s, q, lo, hi) && Removed(s, s', q, lo, hi)
    ensures Quiet(s0, s', q) && SameMemory(s0, s', 0, 0, 0)
  {
    forall v | lo <= v < hi ensures v < TRAPVPN && Pte(s0.t, q, v) == 0 {
      UnmappedIsZero(s0.t, s0.o, q, v);
    }
    hide Tree, Added, Removed, Quiet;
    AddedRemoved(s0, s, s', q, lo, hi);
    QuietIsAdded(s0, s', q, 0);
    AddedMemory(s0, s', q, 0, 0);
  }

  lemma RootsKept(s: Snap, s': Snap, q: nat, lo: nat, hi: nat)
    requires Tree(s.t, s.o) && Added(s, s', q, lo, hi)
    ensures forall r :: IsRoot(s.o, r) ==> IsRoot(s'.o, r) && r != 0
  {}

  lemma AddedSame(s: Snap, q: nat, lo: nat, hi: nat)
    ensures Added(s, s, q, lo, hi)
  {}

  /** The first n pages of b are the same as those of a, mapped or not, with the same permissions. */
  ghost predicate Copied(s: Snap, a: nat, b: nat, n: nat) {
    forall v :: 0 <= v < n ==>
      && UserPage(s, b, v) == UserPage(s, a, v) && PteV(Pte(s.t, b, v)) == PteV(Pte(s.t, a, v))
      && (PteV(Pte(s.t, a, v)) ==> Flags(Pte(s.t, b, v)) == Flags(Pte(s.t, a, v)))
  }

  lemma SeesPage(s: Snap, r: nat, v: nat)
    requires PteV(Pte(s.t, r, v)) && Pa(Pte(s.t, r, v)) in s.d
    ensures UserPage(s, r, v) == s.d[Pa(Pte(s.t, r, v))]
  {}

  lemma CopiedNone(s: Snap, a: nat, b: nat)
    ensures Copied(s, a, b, 0)
  {}

  lemma CopiedSkip(s: Snap, a: nat, b: nat, v: nat)
    requires Copied(s, a, b, v) && !PteV(Pte(s.t, a, v)) && !PteV(Pte(s.t, b, v))
    ensures Copied(s, a, b, v + 1)
  {}

  lemma CopiedMore(s: Snap, s': Snap, a: nat, b: nat, v: nat)
    requires Tree(s.t, s.o) && s.d.Keys == s.o.Keys && IsRoot(s.o, a) && IsRoot(s.o, b) && a != b && v < TRAPVPN
    requires Copied(s, a, b, v) && Added(s, s', b, v, v + 1) && PteV(Pte(s.t, a, v)) && PteV(Pte(s'.t, b, v))
    requires UserPage(s', b, v) == UserPage(s, a, v) && Flags(Pte(s'.t, b, v)) == Flags(Pte(s.t, a, v))
    ensures Copied(s', a, b, v + 1)
  {
    hide Tree, UserPage;
    AddedMemory(s, s', b, v, v + 1);
  }

  /** The flags of a mapped page, as mappages gets them back from uvmcopy. */
  lemma FlagsAgain(e: nat)
    requires PteV(e)
    ensures Flags(e) < 1024 && Flags(e) / 2 * 2 + 1 == Flags(e) && IsLeaf(Flags(e)) == IsLeaf(e)
  {
    var q, f := e / 1024, e % 1024;
    FlagBits(q, f);
    LeafBits(q, f);
  }

  // ---------------------------------------------------------------- all processes

  /** sz gives the size of every address space there is, and bounds what it maps. */
  ghost predicate Sized(s: Snap, sz: map<nat, nat>) {
    && (forall r :: IsRoot(s.o, r) <==> r in sz)
    && (forall r :: r in sz ==> sz[r] <= TRAPVPN * PGSIZE && Bounded(s.t, r, PagesUp(sz[r])))
  }

  lemma SizedAdded(s: Snap, s': Snap, sz: map<nat, nat>, q: nat, lo: nat, hi: nat, n: nat)
    requires Sized(s, sz) && q in sz && Added(s, s', q, lo, hi) && sz[q] <= n <= TRAPVPN * PGSIZE && hi <= PagesUp(n) && hi <= TRAPVPN
    ensures Sized(s', sz[q := n])
  {}

  lemma SizedBuilt(s: Snap, s': Snap, sz: map<nat, nat>, q: nat, a: nat, b: nat)
    requires Sized(s, sz) && Built(s, s', q) && OnlyTop(s'.t, q, a, b) && !PteU(a) && !PteU(b)
    ensures Sized(s', sz[q := 0])
  {
    assert q !in sz;
  }

  lemma SizedTorn(s: Snap, s': Snap, sz: map<nat, nat>, q: nat)
    requires Sized(s, sz) && q in sz && TornDown(s, s', q)
    ensures Sized(s', sz - {q})
  {}

  lemma SizedSame(s: Snap, s': Snap, sz: map<nat, nat>)
    requires Sized(s, sz) && s'.o == s.o && SamePtes(s.o, s.t, s'.t)
    ensures Sized(s', sz)
  {}

  lemma TopPages(t: Tables, q: nat, trapframe: nat, trampoline: nat)
    requires trapframe % PGSIZE == 0 && trampoline % PGSIZE == 0
    ensures !PteU(MkPte(trampoline, PTE_R + PTE_X)) && !PteU(MkPte(trapframe, PTE_R + PTE_W))
  {
    PteRoundTrip(trampoline, PTE_R + PTE_X);
    PteRoundTrip(trapframe, PTE_R + PTE_W);
  }

  /** With no address space left, every page is free or held by someone else: nothing leaks. */
  lemma NoLeak(s: Snap)
    requires Tree(s.t, s.o) && Sized(s, map[])
    ensures forall p :: p in s.o ==> s.o[p].Free? || s.o[p].Held?
  {
    hide Tree;
    forall p | p in s.o ensures s.o[p].Free? || s.o[p].Held? {
      Up(s.t, s.o, p);
      assert s.o[p].Root? ==> IsRoot(s.o, p);
      assert s.o[p].Mid? || s.o[p].Low? || s.o[p].User? ==> IsRoot(s.o, s.o[p].root);
    }
  }

  // ---------------------------------------------------------------- bytes

  function UserByte(s: Snap, r: nat, a: nat): bv8 {
    UserPage(s, r, a / PGSIZE)[a % PGSIZE]
  }

  /** The bytes at dst.. of root q are `bytes`, and no other byte of any process changed. */
  ghost predicate Wrote(s: Snap, s': Snap, q: nat, dst: nat, bytes: seq<bv8>) {
    forall r, a :: IsRoot(s.o, r) && 0 <= a < TRAPVPN * PGSIZE ==>
      UserByte(s', r, a) == if r == q && dst <= a < dst + |bytes| then bytes[a - dst] else UserByte(s, r, a)
  }

  ghost predicate Accessible(t: Tables, r: nat, v: nat) {
    v < TRAPVPN && PteV(Pte(t, r, v)) && PteU(Pte(t, r, v))
  }

  lemma WroteNothing(s: Snap, s': Snap, q: nat, dst: nat)
    requires SameMemory(s, s', 0, 0, 0) && (forall r :: IsRoot(s.o, r) ==> r != 0)
    ensures Wrote(s, s', q, dst, [])
  {}

  /** Page v of root q now holds `page`; the rest of memory is as it was. */
  ghost predicate Poked(s: Snap, s': Snap, q: nat, v: nat, page: Page) {
    forall r, w :: IsRoot(s.o, r) && 0 <= w < TRAPVPN ==>
      UserPage(s', r, w) == if r == q && w == v then page else UserPage(s, r, w)
  }

  /** Overwriting the bytes of the page mapped at v of root q changes that page only. */
  lemma PokePage(s: Snap, q: nat, v: nat, page: Page)
    requires Tree(s.t, s.o) && s.d.Keys == s.o.Keys && IsRoot(s.o, q) && v < TRAPVPN && PteV(Pte(s.t, q, v))
    ensures Pa(Pte(s.t, q, v)) in s.d && s.d[Pa(Pte(s.t, q, v))] == UserPage(s, q, v)
    ensures Poked(s, s.(d := s.d[Pa(Pte(s.t, q, v)) := page]), q, v, page)
  {
    hide Tree;
    MappedPage(s.t, s.o, q, v);
    var s' := s.(d := s.d[Pa(Pte(s.t, q, v)) := page]);
    forall r, w | IsRoot(s.o, r) && 0 <= w < TRAPVPN
      ensures UserPage(s', r, w) == if r == q && w == v then page else UserPage(s, r, w)
    {
      if PteV(Pte(s.t, r, w)) {
        MappedPage(s.t, s.o, r, w);
      }
    }
  }

  /** memmove of `bytes` to offset `off` of a page. */
  function Patched(page: Page, off: nat, bytes: seq<bv8>): Page
    requires off + |bytes| <= PGSIZE
  {
    page[..off] + bytes + page[off + |bytes|..]
  }

  lemma PatchedIs(page: Page, off: nat, bytes: seq<bv8>)
    requires off + |bytes| <= PGSIZE
    ensures Patched(page, off, bytes) == page[..off] + bytes + page[off + |bytes|..]
  {}

  /** Writing one page's share of a copy. */
  lemma WroteChunk(s0: Snap, s: Snap, s': Snap, q: nat, dst: nat, done: seq<bv8>, chunk: seq<bv8>)
    requires Wrote(s0, s, q, dst, done) && (forall r :: IsRoot(s0.o, r) ==> IsRoot(s.o, r))
    requires (dst + |done|) % PGSIZE + |chunk| <= PGSIZE
    requires Poked(s, s', q, (dst + |done|) / PGSIZE, Patched(UserPage(s, q, (dst + |done|) / PGSIZE), (dst + |done|) % PGSIZE, chunk))
    ensures Wrote(s0, s', q, dst, done + chunk)
  {
    hide Patched, UserPage;
    var at := dst + |done|;
    forall r, a | IsRoot(s0.o, r) && 0 <= a < TRAPVPN * PGSIZE
      ensures UserByte(s', r, a) == if r == q && dst <= a < dst + |done + chunk| then (done + chunk)[a - dst] else UserByte(s0, r, a)
    {
      assert IsRoot(s.o, r) && 0 <= a / PGSIZE < TRAPVPN;
      PatchedAt(UserPage(s, r, a / PGSIZE), at, chunk, a);
      assert UserByte(s, r, a) == if r == q && dst <= a < dst + |done| then done[a - dst] else UserByte(s0, r, a);
    }
  }

  lemma PatchedAt(page: Page, at: nat, chunk: seq<bv8>, a: nat)
    requires at % PGSIZE + |chunk| <= PGSIZE
    ensures a / PGSIZE == at / PGSIZE ==>
              Patched(page, at % PGSIZE, chunk)[a % PGSIZE] == if at <= a < at + |chunk| then chunk[a - at] else page[a % PGSIZE]
    ensures at <= a < at + |chunk| ==> a / PGSIZE == at / PGSIZE
  {}

  lemma BlankMemory(s: Snap, q: nat, a: nat, b: nat)
    requires OnlyTop(s.t, q, a, b)
    ensures forall v :: 0 <= v < TRAPVPN ==> UserPage(s, q, v) == ZeroPage()
  {}

  lemma NewSize(s: Snap, s': Snap, sz: map<nat, nat>, q: nat)
    requires Sized(s, sz) && Built(s, s', q)
    ensures q !in sz
  {}

  lemma SizedAt(s: Snap, sz: map<nat, nat>, q: nat)
    requires Sized(s, sz) && q in sz
    ensures IsRoot(s.o, q) && sz[q] <= TRAPVPN * PGSIZE && PagesUp(sz[q]) <= TRAPVPN && Bounded(s.t, q, PagesUp(sz[q]))
  {}

  lemma BelowSize(sz: nat, va: nat)
    requires va < sz
    ensures va / PGSIZE < PagesUp(sz)
  {}

  lemma SameMemoryAll(s: Snap, s': Snap, q: nat, v: nat)
    requires SameMemory(s, s', q, v, v)
    ensures SameMemory(s, s', 0, 0, 0)
  {}

  lemma UserFlags(e: nat)
    requires Flags(e) == (PTE_W + PTE_U + PTE_R) / 2 * 2 + 1
    ensures PteU(e) && PteW(e)
  {
    UserBit(e / 1024, e % 1024);
    WriteBit(e / 1024, e % 1024);
  }

  /** Shrinking: the pages that go are above the new size. */
  lemma ShrinkMemory(s: Snap, s': Snap, sz: map<nat, nat>, q: nat, n: nat)
    requires Sized(s, sz) && q in sz && n <= sz[q] && Tree(s.t, s.o) && s.d.Keys == s.o.Keys
    requires if n == sz[q] then s' == s else Removed(s, s', q, PagesUp(n), PagesUp(sz[q]))
    ensures Sized(s', sz[q := n]) && SameMemory(s, s', q, PagesUp(n), TRAPVPN)
  {
    hide Tree;
    if n == sz[q] {
      assert sz[q := n] == sz;
    } else {
      SizedAt(s, sz, q);
      RemovedMemory(s, s', q, PagesUp(n), PagesUp(sz[q]));
    }
  }

  lemma WroteSame(a: Snap, b: Snap, c: Snap, q: nat, dst: nat, bytes: seq<bv8>)
    requires Wrote(a, b, q, dst, bytes) && SameMemory(b, c, 0, 0, 0)
    requires forall r :: IsRoot(a.o, r) ==> IsRoot(b.o, r) && r != 0
    ensures Wrote(a, c, q, dst, bytes)
  {
    forall r, x | IsRoot(a.o, r) && 0 <= x < TRAPVPN * PGSIZE ensures UserByte(c, r, x) == UserByte(b, r, x) {
      assert 0 <= x / PGSIZE < TRAPVPN;
    }
    hide UserByte;
  }

  ghost predicate AllAccessible(t: Tables, r: nat, at: nat, n: nat) {
    forall a :: at <= a < at + n ==> Accessible(t, r, a / PGSIZE)
  }

  /** A fault elsewhere leaves accessible pages accessible. */
  lemma AccessKept(s: Snap, s': Snap, q: nat, v: nat, at: nat, n: nat)
    requires IsRoot(s.o, q) && AllAccessible(s.t, q, at, n)
    requires Added(s, s', q, v, v) || (Added(s, s', q, v, v + 1) && !PteV(Pte(s.t, q, v)))
    ensures AllAccessible(s'.t, q, at, n)
  {
    forall a | at <= a < at + n ensures Accessible(s'.t, q, a / PGSIZE) {
      assert Accessible(s.t, q, a / PGSIZE);
    }
  }

  lemma AccessMore(t: Tables, r: nat, at: nat, n: nat, m: nat)
    requires AllAccessible(t, r, at, n) && Accessible(t, r, (at + n) / PGSIZE) && (at + n) % PGSIZE + m <= PGSIZE
    ensures AllAccessible(t, r, at, n + m)
  {}

  lemma PageOffset(a: nat)
    ensures a - a / PGSIZE * PGSIZE == a % PGSIZE && a / PGSIZE * PGSIZE / PGSIZE == a / PGSIZE && a / PGSIZE * PGSIZE % PGSIZE == 0
  {}

  lemma SamePage(x: nat, a: nat)
    requires x <= a < x - x % PGSIZE + PGSIZE
    ensures a / PGSIZE == x / PGSIZE && a % PGSIZE == x % PGSIZE + (a - x)
  {}

  lemma AccessPage(t: Tables, o: Owners, q: nat, v: nat)
    requires Tree(t, o) && IsRoot(o, q) && Accessible(t, q, v)
    ensures Pa(Pte(t, q, v)) != 0
  {
    hide Tree;
    Pages(t, o);
    MappedPage(t, o, q, v);
  }

  lemma WroteRoots(s: Snap, sz: map<nat, nat>)
    requires Tree(s.t, s.o) && Sized(s, sz)
    ensures forall r :: IsRoot(s.o, r) ==> r != 0
  {}

  /** The copy a child gets, where the parent's memory ends both read as zeros. */
  lemma ForkMemory(s: Snap, s': Snap, parent: nat, child: nat, n: nat)
    requires Tree(s.t, s.o) && s.d.Keys == s.o.Keys && IsRoot(s.o, parent) && IsRoot(s.o, child) && parent != child
    requires Added(s, s', child, 0, n) && Copied(s', parent, child, n) && Bounded(s.t, parent, n) && Bounded(s.t, child, 0)
    ensures forall v :: 0 <= v < TRAPVPN ==> UserPage(s', child, v) == UserPage(s, parent, v)
  {
    hide Tree;
    AddedMemory(s, s', child, 0, n);
  }

  lemma AccessNone(t: Tables, r: nat, at: nat)
    ensures AllAccessible(t, r, at, 0)
  {}

  lemma AccessAt(t: Tables, r: nat, at: nat, n: nat, a: nat)
    requires AllAccessible(t, r, at, n) && at <= a < at + n
    ensures Accessible(t, r, a / PGSIZE)
  {}

  lemma SameMemoryTrans(a: Snap, b: Snap, c: Snap)
    requires SameMemory(a, b, 0, 0, 0) && SameMemory(b, c, 0, 0, 0) && forall r :: IsRoot(a.o, r) ==> IsRoot(b.o, r) && r != 0
    ensures SameMemory(a, c, 0, 0, 0)
  {}

  /** `bytes` is what memory holds from address `at` of root q on. */
  ghost predicate ReadAs(s: Snap, q: nat, at: nat, bytes: seq<bv8>) {
    forall i :: 0 <= i < |bytes| ==> bytes[i] == UserByte(s, q, at + i)
  }

  lemma ReadChunk(s0: Snap, s: Snap, q: nat, src: nat, n: nat, page: Page)
    requires SameMemory(s0, s, 0, 0, 0) && IsRoot(s0.o, q) && q != 0 && src / PGSIZE < TRAPVPN && src % PGSIZE + n <= PGSIZE
    requires page == UserPage(s, q, src / PGSIZE)
    ensures ReadAs(s0, q, src, page[src % PGSIZE..src % PGSIZE + n])
  {
    var chunk := page[src % PGSIZE..src % PGSIZE + n];
    forall i | 0 <= i < |chunk| ensures chunk[i] == UserByte(s0, q, src + i) {
      SamePage(src, src + i);
    }
  }

  lemma ReadNone(s: Snap, q: nat, at: nat)
    ensures ReadAs(s, q, at, [])
  {}

  lemma ReadMore(s: Snap, q: nat, at: nat, a: seq<bv8>, b: seq<bv8>)
    requires ReadAs(s, q, at, a) && ReadAs(s, q, at + |a|, b)
    ensures ReadAs(s, q, at, a + b)
  {}

  /** What copyout wrote is what copyin reads back. */
  lemma CopyRoundTrip(s: Snap, s': Snap, q: nat, at: nat, src: seq<bv8>, bytes: seq<bv8>)
    requires IsRoot(s.o, q) && Wrote(s, s', q, at, src) && AllAccessible(s'.t, q, at, |src|)
    requires ReadAs(s', q, at, bytes) && |bytes| == |src|
    ensures bytes == src
  {
    forall i | 0 <= i < |src| ensures bytes[i] == src[i] {
      AccessAt(s'.t, q, at, |src|, at + i);
    }
  }
}
