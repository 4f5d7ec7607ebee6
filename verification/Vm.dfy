/** kernel/kalloc.c and the user half of kernel/vm.c: the page allocator and user page tables. */
module VmCode {
  import opened PageTable
  import opened VmState

  class Vm {
    var freelist: seq<nat>          // kmem.freelist
    var tables: Tables              // the pages in use as page tables
    var data: map<nat, Page>        // the bytes of every page
    ghost var owner: Owners

    ghost predicate Alloc()
      reads this
    {
      FreeOk(freelist, owner) && data.Keys == owner.Keys
    }

    ghost predicate Valid()
      reads this
    {
      Tree(tables, owner) && Alloc()
    }

    ghost function Now(): Snap
      reads this
    {
      Snap(owner, tables, data)
    }

    /** kinit and freerange: every whole page of [start, end) goes on the free list. */
    constructor (start: nat, end: nat)
      requires start > 0
      ensures Valid() && tables == map[] && owner.Keys == Managed(start, end, 0).Keys
      ensures forall p :: p in owner ==> owner[p].Free?
    {
      hide FreeOk, Tree, Managed, PagesUp;
      var p := PagesUp(start) * PGSIZE;
      freelist, tables := [], map[];
      data := map q | q in Managed(start, end, 0) :: ZeroPage();
      owner := Managed(start, end, p);
      new;
      RoundUp(start);
      ManagedStart(start, end);
      ManagedKeys(start, end, p);
      while p + PGSIZE <= end
        invariant p % PGSIZE == 0 && p >= start && Alloc() && owner == Managed(start, end, p) && tables == map[]
        decreases end - p
      {
        ManagedStep(start, end, p);
        Kfree(p);
        p := p + PGSIZE;
      }
      ManagedDone(start, end, p);
      ManagedKeys(start, end, p);
    }

    /** One page, filled with junk; 0 if there is none. */
    method Kalloc() returns (pa: nat)
      requires Alloc() && 0 !in owner
      modifies this`freelist, this`data, this`owner
      ensures Alloc()
      ensures old(freelist) == [] ==> pa == 0 && freelist == [] && data == old(data) && owner == old(owner)
      ensures old(freelist) != [] ==>
                && pa == old(freelist)[0] && freelist == old(freelist)[1..]
                && pa in old(owner) && old(owner)[pa].Free? && owner == old(owner)[pa := Held]
      ensures SameBytes(old(owner), old(data), data)
      ensures old(Tree(tables, owner)) ==> Tree(tables, owner)
    {
      hide Tree, FreeOk;
      if freelist == [] {
        return 0;
      }
      pa := freelist[0];
      FreeTake(freelist, owner);
      if Tree(tables, owner) {
        FlipIdle(tables, owner, pa, Held);
      }
      freelist := freelist[1..];
      owner := owner[pa := Held];
      data := data[pa := seq(PGSIZE, _ => 5)];
    }

    /** Give a page back.  That it is a whole page in range and not already free is proved at every call. */
    method Kfree(pa: nat)
      requires Alloc() && pa in owner && !owner[pa].Free?
      modifies this`freelist, this`data, this`owner
      ensures Alloc() && owner == old(owner)[pa := Free] && freelist == [pa] + old(freelist)
      ensures SameBytes(owner, old(data), data)
    {
      FreePut(freelist, owner, pa);
      hide FreeOk;
      data := data[pa := seq(PGSIZE, _ => 1)];
      freelist := [pa] + freelist;
      owner := owner[pa := Free];
    }

    /** One level of walk: the table below entry i of p, created if missing and wanted; 0 on failure. */
    method WalkLevel(p: nat, i: nat, alloc: bool) returns (c: nat)
      requires Valid() && p in tables && p in owner && (owner[p].Root? || owner[p].Mid?) && i < (if owner[p].Root? then NMID else NPTE)
      modifies this
      ensures Valid() && p in owner && owner[p] == old(owner)[p] && Quiet(old(Now()), Now(), RootOf(p, owner[p]))
      ensures c != 0 ==> c in tables && c in owner && owner[c] == Kid(p, owner[p], i) && Next(tables, p, i) == c
      ensures c == 0 || !alloc ==> Now() == old(Now()) && freelist == old(freelist)
      ensures c == 0 ==> Next(tables, p, i) == 0 && (alloc ==> freelist == [])
      ensures |old(freelist)| <= |freelist| + 1
    {
      hide Tree, FreeOk, Linked;
      UpperEntry(tables, owner, p, i);
      if PteV(tables[p][i]) {
        c := Pa(tables[p][i]);
      } else {
        if !alloc {
          return 0;
        }
        c := Kalloc();
        if c == 0 {
          return 0;
        }
        ghost var o := owner;
        AddTable(tables, o, p, i, c, ZeroTable());
        FreeKeep(freelist, o, c, Kid(p, o[p], i));
        tables := Linked(tables, p, i, c, ZeroTable());
        owner := o[c := Kid(p, o[p], i)];
      }
    }

    /**
      walk: the table and index of the last-level entry for va.  Table 0 means that there is none
      and, if `alloc`, that memory has run out.  The "walk" panic is the precondition on va.
     */
    method Walk(root: nat, va: nat, alloc: bool) returns (l: nat, k: nat)
      requires Valid() && IsRoot(owner, root) && va < MAXVPN * PGSIZE
      modifies this
      ensures Valid() && IsRoot(owner, root) && Quiet(old(Now()), Now(), root)
      ensures k == va / PGSIZE % NPTE
      ensures l != 0 ==>
                && l in tables && l in owner && |tables[l]| == NPTE && owner[l] == Low(root, va / PGSIZE / NPTE)
                && Entry(tables, l, k) == Pte(tables, root, va / PGSIZE)
      ensures l == 0 ==> Pte(tables, root, va / PGSIZE) == 0 && (alloc ==> freelist == [])
      ensures !alloc ==> Now() == old(Now()) && freelist == old(freelist)
      ensures |old(freelist)| <= |freelist| + 2 && (l == 0 && alloc ==> |old(freelist)| <= 1)
    {
      hide Tree, FreeOk, Px, Quiet, SamePtes;
      k := Px(0, va);
      PxDigits(va);
      RootIsTable(tables, owner, root);
      QuietSame(Now(), root);
      var p, level := root, 2;
      while level > 0
        invariant 0 <= level <= 2 && Valid() && IsRoot(owner, root) && p in tables && p in owner
        invariant Quiet(old(Now()), Now(), root)
        invariant level == 2 ==> p == root
        invariant level == 1 ==> owner[p] == Mid(root, Px(2, va)) && Next(tables, root, Px(2, va)) == p
        invariant level == 0 ==> owner[p] == Low(root, Px(2, va) * NPTE + Px(1, va))
        invariant !alloc ==> Now() == old(Now()) && freelist == old(freelist)
        invariant |old(freelist)| <= |freelist| + 2 - level
      {
        ghost var mid := Now();
        var c := WalkLevel(p, Px(level, va), alloc);
        QuietTrans(old(Now()), mid, Now(), root);
        QuietKeeps(mid, Now(), root, root);
        if c == 0 {
          NoTable(tables, owner, root, va / PGSIZE);
          return 0, k;
        }
        p, level := c, level - 1;
      }
      TableAt(tables, owner, p);
      return p, k;
    }

    /**
      mappages for one page.  The "remap" panic is the precondition that va is not mapped yet.
      Below TRAPFRAME the page mapped must be one that kalloc handed out; from there up it is the
      trapframe or trampoline page, which the table only borrows.
     */
    method Mappages(root: nat, va: nat, pa: nat, perm: nat) returns (ok: bool)
      requires Valid() && IsRoot(owner, root) && va % PGSIZE == 0 && va < MAXVPN * PGSIZE
      requires !PteV(Pte(tables, root, va / PGSIZE)) && pa % PGSIZE == 0 && perm < 1024 && IsLeaf(perm)
      requires va / PGSIZE < TRAPVPN ==> pa in owner && owner[pa].Held?
      modifies this
      ensures Valid() && IsRoot(owner, root)
      ensures ok ==>
                && OnePte(old(owner), old(tables), tables, root, va / PGSIZE, MkPte(pa, perm))
                && SameBytes(old(owner), old(data), data)
                && Grown(if va / PGSIZE < TRAPVPN then old(owner)[pa := User(root, va / PGSIZE)] else old(owner), owner, root)
      ensures !ok ==> Quiet(old(Now()), Now(), root) && freelist == [] && |old(freelist)| <= 1
      ensures |old(freelist)| <= |freelist| + 2
    {
      hide Tree, FreeOk, Quiet, OnePte, SameBytes, Grown, MkPte;
      var l, k := Walk(root, va, true);
      if l == 0 {
        return false;
      }
      ghost var v, mid := va / PGSIZE, Now();
      assert v == v / NPTE * NPTE + v % NPTE;
      MapFrame(old(Now()), mid, root, v, pa);
      TableAt(tables, owner, l);
      StoreOne(tables, owner, l, k, MkPte(pa, perm));
      if v < TRAPVPN {
        MapPage(tables, owner, l, k, pa, perm);
        FreeKeep(freelist, owner, pa, User(root, v));
        owner := owner[pa := User(root, v)];
      } else {
        PteRoundTrip(pa, perm);
        MapSpecial(tables, owner, l, k, MkPte(pa, perm));
      }
      tables := Stored(tables, l, k, MkPte(pa, perm));
      OnePteAfter(old(Now()), mid, tables, root, v, MkPte(pa, perm));
      return true;
    }

    /** The body of uvmunmap's loop. */
    method UnmapOne(root: nat, va: nat, doFree: bool)
      requires Valid() && IsRoot(owner, root) && va < MAXVPN * PGSIZE && (doFree <==> va / PGSIZE < TRAPVPN)
      modifies this
      ensures Valid() && IsRoot(owner, root) && Removed(old(Now()), Now(), root, va / PGSIZE, va / PGSIZE + 1)
    {
      hide Tree, FreeOk, Removed;
      var l, k := Walk(root, va, false);
      if l == 0 || !PteV(tables[l][k]) {
        RemovedNothing(Now(), root, va / PGSIZE);
        return;
      }
      TableAt(tables, owner, l);
      ghost var s := Now();
      if doFree {
        var pa := Pa(tables[l][k]);
        UnmapPage(tables, owner, l, k, Free);
        Kfree(pa);
        RemovedOne(s, l, k, va / PGSIZE, data);
      } else {
        RemovedSpecial(s, l, k);
      }
      tables := Stored(tables, l, k, 0);
    }

    /** Remove npages mappings from va on; it is fine if some do not exist. */
    method Uvmunmap(root: nat, va: nat, npages: nat, doFree: bool)
      requires Valid() && IsRoot(owner, root) && va % PGSIZE == 0
      requires if doFree then va / PGSIZE + npages <= TRAPVPN else TRAPVPN <= va / PGSIZE && va / PGSIZE + npages <= MAXVPN
      modifies this
      ensures Valid() && IsRoot(owner, root) && Removed(old(Now()), Now(), root, va / PGSIZE, va / PGSIZE + npages)
    {
      hide Tree, FreeOk, Removed;
      ghost var lo, n := va / PGSIZE, 0;
      var a := va;
      RemovedNone(Now(), root, lo);
      while a < va + npages * PGSIZE
        invariant 0 <= n <= npages && a == va + n * PGSIZE
        invariant Valid() && IsRoot(owner, root) && Removed(old(Now()), Now(), root, lo, lo + n)
      {
        PageStep(va, n);
        ghost var mid := Now();
        UnmapOne(root, a, doFree);
        RemovedTrans(old(Now()), mid, Now(), root, lo, lo + n, lo + n + 1);
        a, n := a + PGSIZE, n + 1;
      }
    }

    /**
      freewalk: free table p and every table below it.  The "leaf" panic cannot be reached, because
      no entry of a last-level table is valid any more.
     */
    method Freewalk(p: nat)
      requires Valid() && p in tables && p in owner && NoLeaf(tables, owner, RootOf(p, owner[p]))
      modifies this
      ensures Alloc() && owner == Freed(old(owner), Subtree(old(owner), p))
      ensures tables == old(tables) - Subtree(old(owner), p) && SameBytes(owner, old(data), data)
      decreases if p !in owner then 0 else if owner[p].Root? then 2 else if owner[p].Mid? then 1 else 0
    {
      hide Tree, FreeOk, Walked, NoLeaf, SameBytes, Freed, Cut, Stored, Gone, Below;
      ghost var s0 := Now();
      WalkedStart(s0, p);
      for i := 0 to NPTE
        invariant Valid() && Walked(s0, Now(), p, i) && NoLeaf(tables, owner, RootOf(p, s0.o[p]))
      {
        ghost var s := Now();
        WalkedHas(s0, s, p, i);
        WalkedEntry(s, p, i);
        var e := tables[p][i];
        if PteV(e) && !IsLeaf(e) {
          var c := Pa(e);
          CutTree(tables, owner, p, i, c);
          Freewalk(c);
          tables := Stored(tables, p, i, 0);
          CutIsStored(s.t, Subtree(s.o, c), p, i);
          forall q | q in s0.o
            ensures Gone(s0.o, p, q, i + 1) == (Gone(s0.o, p, q, i) || q in Subtree(s.o, c))
          {
            GoneNext(s0, s, p, i, q);
          }
          WalkedStep(s0, s, p, i, Subtree(s.o, c), data);
          NoLeafAfter(s.t, s.o, Subtree(s.o, c), p, i, RootOf(p, s0.o[p]));
        } else {
          assert !PteV(e);
          WalkedSkip(s0, s, p, i);
        }
      }
      WalkedHas(s0, Now(), p, NPTE);
      WalkedDone(s0, Now(), p);
      ghost var s := Now();
      Kfree(p);
      WalkedBytes(s0, s, p, data);
      tables := tables - {p};
    }

    /** Free the user pages below sz, then all tables. */
    method Uvmfree(root: nat, sz: nat)
      requires Valid() && IsRoot(owner, root) && PagesUp(sz) <= TRAPVPN
      requires forall v :: 0 <= v < MAXVPN && PteV(Pte(tables, root, v)) ==> v < PagesUp(sz)
      modifies this
      ensures Valid() && TornDown(old(Now()), Now(), root)
    {
      hide Tree, FreeOk, Removed, TornDown, SameBytes;
      RemovedNone(Now(), root, 0);
      if sz > 0 {
        Uvmunmap(root, 0, PagesUp(sz), true);
      }
      ghost var s := Now();
      RemovedEmpty(old(Now()), s, root, PagesUp(sz));
      EmptyNoLeaf(tables, owner, root);
      RootIsTable(tables, owner, root);
      Freewalk(root);
      DropTree(s.t, s.o, root);
      TornByFreewalk(s, data, root);
      TornAfter(old(Now()), s, Now(), root, 0, PagesUp(sz));
    }

    /**
      proc_freepagetable: every page of user memory and every table page goes back to the free
      list, once each; the trapframe and trampoline pages do not.
     */
    method ProcFreepagetable(root: nat, sz: nat)
      requires Valid() && IsRoot(owner, root) && PagesUp(sz) <= TRAPVPN && Bounded(tables, root, PagesUp(sz))
      modifies this
      ensures Valid() && TornDown(old(Now()), Now(), root)
    {
      hide Tree, FreeOk, TornDown, Removed, Bounded;
      PageStep(0, TRAPVPN);
      PageStep(0, TRAPVPN + 1);
      Uvmunmap(root, (TRAPVPN + 1) * PGSIZE, 1, false);
      ghost var s1 := Now();
      Uvmunmap(root, TRAPVPN * PGSIZE, 1, false);
      ghost var s2 := Now();
      TopGone(old(Now()), s1, s2, root, PagesUp(sz));
      Uvmfree(root, sz);
      TornAfter(s1, s2, Now(), root, TRAPVPN, TRAPVPN + 1);
      TornAfter(old(Now()), s1, Now(), root, TRAPVPN + 1, TRAPVPN + 2);
    }

    method Uvmcreate() returns (root: nat)
      requires Valid()
      modifies this
      ensures Valid()
      ensures root == 0 ==> Now() == old(Now()) && freelist == [] == old(freelist)
      ensures root != 0 ==> Built(old(Now()), Now(), root) && OnlyTop(tables, root, 0, 0) && |old(freelist)| == |freelist| + 1
    {
      hide Tree, FreeOk, Built, SameBytes, OnlyTop;
      NoPageZero(tables, owner);
      root := Kalloc();
      if root != 0 {
        BuiltRoot(old(Now()), root, data);
        FreeKeep(freelist, owner, root, Root);
        tables := tables[root := ZeroTable()];
        owner := owner[root := Root];
      }
    }

    /** mappages for the trampoline or trapframe of a table under construction. */
    method MapTop(root: nat, vpn: nat, pa: nat, perm: nat, ghost s0: Snap, ghost a: nat, ghost b: nat) returns (ok: bool)
      requires Valid() && Built(s0, Now(), root) && OnlyTop(tables, root, a, b) && pa % PGSIZE == 0 && perm < 1024 && IsLeaf(perm)
      requires (vpn == TRAPVPN + 1 && a == 0) || (vpn == TRAPVPN && b == 0)
      modifies this
      ensures Valid() && Built(s0, Now(), root)
      ensures !ok ==> OnlyTop(tables, root, a, b) && |old(freelist)| <= 1
      ensures |old(freelist)| <= |freelist| + 2
      ensures ok ==> OnlyTop(tables, root, if vpn == TRAPVPN then a else MkPte(pa, perm), if vpn == TRAPVPN then MkPte(pa, perm) else b)
    {
      hide Tree, FreeOk, SameBytes, MkPte, Built, OnlyTop, SamePtes, OnePte;
      ghost var s := Now();
      TopSlot(tables, root, a, b);
      BuiltIsRoot(s0, s, root);
      PageStep(0, vpn);
      ok := Mappages(root, vpn * PGSIZE, pa, perm);
      BuiltMore(s0, s, Now(), root, vpn, MkPte(pa, perm));
      if ok {
        TopStep(s.o, s.t, tables, root, a, b, if vpn == TRAPVPN then a else MkPte(pa, perm), if vpn == TRAPVPN then MkPte(pa, perm) else b);
      } else {
        TopSame(s.o, s.t, tables, root, a, b);
      }
    }

    /**
      proc_pagetable: an address space with no user memory, only the trampoline and trapframe.
      If memory runs out half way, every page taken is given back.
     */
    method ProcPagetable(trapframe: nat, trampoline: nat) returns (root: nat)
      requires Valid() && trapframe % PGSIZE == 0 && trampoline % PGSIZE == 0
      modifies this
      ensures Valid()
      ensures root == 0 ==> owner == old(owner) && SamePtes(old(owner), old(tables), tables) && SameBytes(old(owner), old(data), data)
      ensures root == 0 ==> |old(freelist)| < 5
      ensures root != 0 ==> |old(freelist)| <= |freelist| + 5
      ensures root != 0 ==>
                && Built(old(Now()), Now(), root)
                && OnlyTop(tables, root, MkPte(trampoline, PTE_R + PTE_X), MkPte(trapframe, PTE_R + PTE_W))
    {
      hide Tree, FreeOk, SameBytes, MkPte, Built, TornDown, OnlyTop, SamePtes, Removed;
      ghost var s0 := Now();
      QuietSame(s0, 0);
      root := Uvmcreate();
      if root == 0 {
        return 0;
      }
      var ok := MapTop(root, TRAPVPN + 1, trampoline, PTE_R + PTE_X, s0, 0, 0);
      ghost var s1 := Now();
      BuiltIsRoot(s0, s1, root);
      if !ok {
        TopSlot(tables, root, 0, 0);
        Uvmfree(root, 0);
        BuiltTorn(s0, s1, Now(), root);
        return 0;
      }
      ok := MapTop(root, TRAPVPN, trapframe, PTE_R + PTE_W, s0, MkPte(trampoline, PTE_R + PTE_X), 0);
      if !ok {
        ghost var s2 := Now();
        BuiltIsRoot(s0, s2, root);
        Uvmunmap(root, (TRAPVPN + 1) * PGSIZE, 1, false);
        ghost var s3 := Now();
        TopCleared(s2, s3, root, MkPte(trampoline, PTE_R + PTE_X));
        TopSlot(tables, root, 0, 0);
        Uvmfree(root, 0);
        TornAfter(s2, s3, Now(), root, TRAPVPN + 1, TRAPVPN + 2);
        BuiltTorn(s0, s2, Now(), root);
        return 0;
      }
    }

    /**
      Allocate a page, give it these contents and map it at va; undone if the table cannot grow.
      uvmalloc and vmfault do this with a zeroed page, uvmcopy with a copy of the parent's.
     */
    method AddPage(root: nat, va: nat, perm: nat, contents: Page) returns (mem: nat)
      requires Valid() && IsRoot(owner, root) && va % PGSIZE == 0 && va / PGSIZE < TRAPVPN
      requires !PteV(Pte(tables, root, va / PGSIZE)) && perm < 1024 && IsLeaf(perm)
      modifies this
      ensures Valid() && IsRoot(owner, root)
      ensures mem == 0 ==> Quiet(old(Now()), Now(), root) && |old(freelist)| < 3
      ensures |old(freelist)| <= |freelist| + 3
      ensures mem != 0 ==>
                && mem == Pa(Pte(tables, root, va / PGSIZE)) && Added(old(Now()), Now(), root, va / PGSIZE, va / PGSIZE + 1)
                && PteV(Pte(tables, root, va / PGSIZE)) && Flags(Pte(tables, root, va / PGSIZE)) == perm / 2 * 2 + 1
                && UserPage(Now(), root, va / PGSIZE) == contents
    {
      hide Tree, FreeOk, Quiet, Added, Grown, MkPte, OnePte, SameBytes;
      ghost var s0 := Now();
      NoPageZero(tables, owner);
      QuietSame(s0, root);
      var pa := Kalloc();
      if pa == 0 {
        return 0;
      }
      PageAligned(tables, owner, pa);
      FilledBytes(s0.o, s0.d, data, pa, contents);
      data := data[pa := contents];
      ghost var s1 := Now();
      var ok := Mappages(root, va, pa, perm);
      ghost var s2 := Now();
      if ok {
        AddedOne(s0, s1, s2, root, va / PGSIZE, pa, MkPte(pa, perm));
        AddedAt(s1, s2, root, va / PGSIZE, pa, MkPte(pa, perm));
        PteRoundTrip(pa, perm);
        return pa;
      } else {
        QuietHeld(s1, s2, root, pa);
        FlipIdle(tables, owner, pa, Free);
        Kfree(pa);
        QuietBack(s0, s1, s2, data, root, pa);
        QuietKeeps(s0, Now(), root, root);
        return 0;
      }
    }

    method Uvmdealloc(root: nat, oldsz: nat, newsz: nat) returns (sz: nat)
      requires Valid() && IsRoot(owner, root) && PagesUp(oldsz) <= TRAPVPN
      modifies this
      ensures Valid() && IsRoot(owner, root) && sz == if newsz >= oldsz then oldsz else newsz
      ensures newsz >= oldsz ==> Now() == old(Now())
      ensures newsz < oldsz ==> Removed(old(Now()), Now(), root, PagesUp(newsz), PagesUp(oldsz))
    {
      hide Tree, FreeOk, Removed;
      if newsz >= oldsz {
        return oldsz;
      }
      RemovedNone(Now(), root, PagesUp(newsz));
      if PagesUp(newsz) < PagesUp(oldsz) {
        var npages := PagesUp(oldsz) - PagesUp(newsz);
        PageStep(0, PagesUp(newsz));
        Uvmunmap(root, PagesUp(newsz) * PGSIZE, npages, true);
      }
      return newsz;
    }

    /**
      uvmalloc: grow from oldsz to newsz, page by page; all or nothing.  Whatever happens, no page
      of memory that any process can see changes, for a page not yet mapped reads as zeros.
     */
    method Uvmalloc(root: nat, oldsz: nat, newsz: nat, xperm: nat) returns (sz: nat)
      requires Valid() && IsRoot(owner, root) && PagesUp(newsz) <= TRAPVPN && PagesUp(oldsz) <= TRAPVPN
      requires Bounded(tables, root, PagesUp(oldsz)) && xperm in {0, PTE_W, PTE_X, PTE_W + PTE_X}
      modifies this
      ensures Valid() && IsRoot(owner, root) && SameMemory(old(Now()), Now(), 0, 0, 0)
      ensures sz == oldsz || sz == newsz || sz == 0
      ensures newsz < oldsz ==> sz == oldsz && Now() == old(Now())
      ensures newsz >= oldsz && sz == newsz ==>
                && Added(old(Now()), Now(), root, PagesUp(oldsz), PagesUp(newsz))
                && MappedAs(tables, root, PagesUp(oldsz), PagesUp(newsz), PTE_R + PTE_U + xperm)
      ensures newsz >= oldsz && sz != newsz ==>
                sz == 0 && Quiet(old(Now()), Now(), root) && |old(freelist)| < 3 * (PagesUp(newsz) - PagesUp(oldsz))
    {
      hide Tree, FreeOk, Quiet, Added, Removed, SameMemory, Bounded, PagesUp, UserPage, Pte, ZeroPage, MappedAs;
      ghost var s0, lo, n := Now(), PagesUp(oldsz), 0;
      SameMemoryRefl(s0);
      if newsz < oldsz {
        return oldsz;
      }
      QuietSame(s0, root);
      QuietIsAdded(s0, s0, root, lo);
      MappedNone(tables, root, lo, PTE_R + PTE_U + xperm);
      PagesUpMono(oldsz, newsz);
      var a := PagesUp(oldsz) * PGSIZE;
      while a < newsz
        invariant a == (lo + n) * PGSIZE && lo + n <= PagesUp(newsz)
        invariant Valid() && IsRoot(owner, root) && Added(s0, Now(), root, lo, lo + n) && SameMemory(s0, Now(), 0, 0, 0)
        invariant MappedAs(tables, root, lo, lo + n, PTE_R + PTE_U + xperm) && |old(freelist)| <= |freelist| + 3 * n
        decreases newsz - a
      {
        ghost var s1 := Now();
        PagesUpBounds(newsz, lo + n);
        GrowSlot(s0, s1, root, lo, lo + n);
        PageStep(0, lo + n);
        var mem := AddPage(root, a, PTE_R + PTE_U + xperm, ZeroPage());
        ghost var s2 := Now();
        if mem == 0 {
          QuietIsAdded(s1, s2, root, lo + n);
          AddedTrans(s0, s1, s2, root, lo, lo + n, lo + n);
          RemovedNone(s2, root, lo);
          PagesUpBounds(a, lo);
          PagesUpBounds(a, lo + n);
          var _ := Uvmdealloc(root, a, PagesUp(oldsz) * PGSIZE);
          GrowUndone(s0, s2, Now(), root, lo, lo + n);
          return 0;
        }
        AddedTrans(s0, s1, s2, root, lo, lo + n, lo + n + 1);
        RootsKept(s0, s1, root, lo, lo + n);
        GrowMemory(s0, s1, s2, root, lo + n);
        MappedMore(s1, s2, root, lo, lo + n, PTE_R + PTE_U + xperm);
        a, n := a + PGSIZE, n + 1;
      }
      PagesUpBounds(newsz, lo + n);
      return newsz;
    }

    /**
      uvmcopy: give the child the parent's memory, page by page.  Pages the parent has not touched
      yet stay unmapped.  On failure the child's pages go back.
     */
    method Uvmcopy(parent: nat, child: nat, sz: nat) returns (ok: bool)
      requires Valid() && IsRoot(owner, parent) && IsRoot(owner, child) && parent != child
      requires PagesUp(sz) <= TRAPVPN && Bounded(tables, child, 0)
      modifies this
      ensures Valid() && IsRoot(owner, parent) && IsRoot(owner, child)
      ensures ok ==> Added(old(Now()), Now(), child, 0, PagesUp(sz)) && Copied(Now(), parent, child, PagesUp(sz))
      ensures !ok ==> Quiet(old(Now()), Now(), child) && |old(freelist)| < 3 * PagesUp(sz)
    {
      hide Tree, FreeOk, Quiet, Added, Removed, Bounded, PagesUp, UserPage, Pte, Copied, SameMemory;
      ghost var s0, n := Now(), 0;
      AddedSame(s0, child, 0, 0);
      CopiedNone(s0, parent, child);
      var i := 0;
      while i < sz
        invariant i == n * PGSIZE && n <= PagesUp(sz)
        invariant Valid() && IsRoot(owner, parent) && IsRoot(owner, child)
        invariant Added(s0, Now(), child, 0, n) && Copied(Now(), parent, child, n) && |old(freelist)| <= |freelist| + 3 * n
        decreases sz - i
      {
        ghost var s1 := Now();
        PagesUpBounds(sz, n);
        PageStep(0, n);
        GrowSlot(s0, s1, child, 0, n);
        var l, k := Walk(parent, i, false);
        if l == 0 || !PteV(tables[l][k]) {
          CopiedSkip(s1, parent, child, n);
          AddedSame(s1, child, n, n + 1);
        } else {
          var e := tables[l][k];
          MappedPage(tables, owner, parent, n);
          FlagsAgain(e);
          SeesPage(s1, parent, n);
          var mem := AddPage(child, i, Flags(e), data[Pa(e)]);
          ghost var s2 := Now();
          if mem == 0 {
            QuietIsAdded(s1, s2, child, n);
            AddedTrans(s0, s1, s2, child, 0, n, n);
            Uvmunmap(child, 0, i / PGSIZE, true);
            GrowUndone(s0, s2, Now(), child, 0, n);
            QuietKeeps(s0, Now(), child, child);
            QuietKeeps(s0, Now(), child, parent);
            return false;
          }
          CopiedMore(s1, s2, parent, child, n);
          AddedRoot(s1, s2, child, n, n + 1);
        }
        AddedTrans(s0, s1, Now(), child, 0, n, n + 1);
        i, n := i + PGSIZE, n + 1;
      }
      PagesUpBounds(sz, n);
      return true;
    }

    /** walkaddr: the page of a user-accessible mapping, or 0. */
    method Walkaddr(root: nat, va: nat) returns (pa: nat)
      requires Valid() && IsRoot(owner, root)
      modifies this
      ensures Now() == old(Now()) && freelist == old(freelist)
      ensures pa == if va < MAXVPN * PGSIZE && PteV(Pte(tables, root, va / PGSIZE)) && PteU(Pte(tables, root, va / PGSIZE))
                    then Pa(Pte(tables, root, va / PGSIZE)) else 0
    {
      hide Tree, FreeOk, Quiet, Pte;
      if va >= MAXVPN * PGSIZE {
        return 0;
      }
      var l, k := Walk(root, va, false);
      if l == 0 || !PteV(tables[l][k]) || !PteU(tables[l][k]) {
        return 0;
      }
      return Pa(tables[l][k]);
    }

    /** memmove into the page mapped at virtual page v of root. */
    method Memmove(pa: nat, off: nat, bytes: seq<bv8>, ghost root: nat, ghost v: nat)
      requires Valid() && IsRoot(owner, root) && v < TRAPVPN && PteV(Pte(tables, root, v)) && pa == Pa(Pte(tables, root, v))
      requires off + |bytes| <= PGSIZE
      modifies this`data
      ensures Valid() && owner == old(owner) && tables == old(tables)
      ensures Poked(old(Now()), Now(), root, v, Patched(UserPage(old(Now()), root, v), off, bytes))
    {
      hide Tree, FreeOk, Pte, UserPage, Poked, Patched;
      PokePage(Now(), root, v, Patched(UserPage(Now(), root, v), off, bytes));
      var page: Page := data[pa][..off] + bytes + data[pa][off + |bytes|..];
      PatchedIs(data[pa], off, bytes);
      data := data[pa := page];
    }
  }
}
