/**
  The address spaces of all processes: proc_pagetable and its callers in kernel/proc.c, sbrk in
  kernel/sysproc.c, lazy allocation and the copies between kernel and user in kernel/vm.c.
 */
module ProcMemory {
  import opened PageTable
  import opened VmState
  import opened VmCode

  const TRAPFRAME := TRAPVPN * PGSIZE

  class Procs {
    const vm: Vm
    const trampoline: nat       // the page with the code of trampoline.S
    var sz: map<nat, nat>       // p->sz, by the root of p->pagetable
    var frames: map<nat, nat>   // p->trapframe, likewise

    constructor (vm: Vm, trampoline: nat)
      requires vm.Valid() && trampoline % PGSIZE == 0 && forall p :: p in vm.owner ==> vm.owner[p].Free? || vm.owner[p].Held?
      ensures Valid() && this.vm == vm && this.trampoline == trampoline && sz == map[] && frames == map[]
    {
      this.vm, this.trampoline, sz, frames := vm, trampoline, map[], map[];
    }

    ghost predicate Valid()
      reads this, vm
    {
      vm.Valid() && Sized(vm.Now(), sz) && Framed(vm.owner, vm.tables, frames, trampoline) && frames.Keys == sz.Keys && trampoline % PGSIZE == 0
    }

    ghost function Now(): Snap
      reads this, vm
    {
      vm.Now()
    }

    /** allocproc's trapframe page and page table; nothing is lost when memory runs out. */
    method Create() returns (root: nat)
      requires Valid()
      modifies this, vm
      ensures Valid() && SameMemory(old(Now()), Now(), 0, 0, 0)
      ensures root == 0 ==> sz == old(sz) && frames == old(frames) && Now().o == old(Now().o) && |old(vm.freelist)| < 6
      ensures root != 0 ==> |old(vm.freelist)| <= |vm.freelist| + 6
      ensures root != 0 ==> root !in old(sz) && sz == old(sz)[root := 0] && root in frames && frames == old(frames)[root := frames[root]]
      ensures root != 0 ==> Created(old(Now()), Now(), root, frames[root])
      ensures root != 0 ==> forall v :: 0 <= v < TRAPVPN ==> UserPage(Now(), root, v) == ZeroPage()
    {
      hide Tree, FreeOk, Sized, SamePtes, SameBytes, Built, OnlyTop, PteU, MkPte, UserPage, SameMemory, Framed, Created;
      ghost var s := Now();
      NoPageZero(vm.tables, vm.owner);
      var trapframe := vm.Kalloc();
      if trapframe == 0 {
        SameMemoryRefl(s);
        return 0;
      }
      ghost var s1 := Now();
      PageAligned(vm.tables, vm.owner, trapframe);
      SizedHeld(s, s1, sz, trapframe);
      root := vm.ProcPagetable(trapframe, trampoline);
      if root == 0 {
        ghost var s2 := Now();
        FlipIdle(vm.tables, vm.owner, trapframe, Free);
        vm.Kfree(trapframe);
        CreateUndone(s, s1, s2, Now(), sz, trapframe);
        FramedSame(s, Now(), frames, trampoline);
        return 0;
      }
      TopPages(vm.tables, root, trapframe, trampoline);
      SizedBuilt(s1, Now(), sz, root, MkPte(trampoline, PTE_R + PTE_X), MkPte(trapframe, PTE_R + PTE_W));
      BlankMemory(Now(), root, MkPte(trampoline, PTE_R + PTE_X), MkPte(trapframe, PTE_R + PTE_W));
      NewSize(s1, Now(), sz, root);
      CreateDone(s, s1, Now(), root, trapframe);
      CreatedFramed(s, Now(), root, trapframe, frames, trampoline);
      sz, frames := sz[root := 0], frames[root := trapframe];
    }

    /** freeproc's memory: exactly the pages of this process are freed, and no other process sees a change. */
    method Destroy(root: nat)
      requires Valid() && root in sz
      modifies this, vm
      ensures Valid() && sz == old(sz) - {root} && frames == old(frames) - {root}
      ensures Destroyed(old(Now()), Now(), root, old(frames)[root]) && SameMemory(old(Now()), Now(), root, 0, TRAPVPN)
    {
      hide Tree, FreeOk, Sized, TornDown, Bounded, PagesUp, Framed, Destroyed, SameMemory, SameBytes;
      ghost var s := Now();
      FrameAt(s, frames, trampoline, root);
      FlipIdle(vm.tables, vm.owner, frames[root], Free);
      vm.Kfree(frames[root]);
      ghost var s1 := Now();
      SizedFreed(s, s1, sz, frames[root]);
      SizedAt(s1, sz, root);
      vm.ProcFreepagetable(root, sz[root]);
      SizedTorn(s1, Now(), sz, root);
      DestroyDone(s, s1, Now(), root, frames[root]);
      DestroyedFramed(s, Now(), root, frames, trampoline);
      sz, frames := sz - {root}, frames - {root};
    }

    /** Grow or shrink by n bytes.  sz + n wraps in 64 bits, so shrinking by more than sz does nothing. */
    method Growproc(root: nat, n: int) returns (ok: bool)
      requires Valid() && root in sz && -0x8000_0000 <= n < 0x8000_0000
      modifies `sz, vm
      ensures Valid() && sz.Keys == old(sz.Keys)
      ensures n >= 0 ==> SameMemory(old(Now()), Now(), 0, 0, 0) && sz == if ok then old(sz)[root := old(sz)[root] + n] else old(sz)
      ensures n > 0 && old(sz)[root] + n > TRAPFRAME ==> !ok
      ensures !ok ==> n > 0
      ensures n > 0 && !ok ==> old(sz)[root] + n > TRAPFRAME || |old(vm.freelist)| < 3 * (PagesUp(old(sz)[root] + n) - PagesUp(old(sz)[root]))
      ensures n >= 0 && ok ==> MappedAs(Now().t, root, PagesUp(old(sz)[root]), PagesUp(sz[root]), PTE_R + PTE_U + PTE_W)
      ensures n < 0 ==> ok && sz == old(sz)[root := if old(sz)[root] + n < 0 then old(sz)[root] else old(sz)[root] + n]
      ensures n < 0 ==> SameMemory(old(Now()), Now(), root, PagesUp(sz[root]), TRAPVPN)
    {
      hide Tree, FreeOk, Sized, Bounded, PagesUp, Added, Removed, SameMemory, Quiet, MappedAs, Framed;
      ghost var s := Now();
      var size := sz[root];
      SizedAt(s, sz, root);
      SameMemoryRefl(s);
      MappedNone(s.t, root, PagesUp(size), PTE_R + PTE_U + PTE_W);
      if n > 0 {
        if size + n > TRAPFRAME {
          return false;
        }
        PagesUpBounds(size + n, TRAPVPN);
        var r := vm.Uvmalloc(root, size, size + n, PTE_W);
        if r == 0 {
          QuietIsAdded(s, Now(), root, 0);
          SizedAdded(s, Now(), sz, root, 0, 0, size);
          FramedAdded(s, Now(), root, 0, 0, frames, trampoline);
          assert sz[root := size] == sz;
          return false;
        }
        SizedAdded(s, Now(), sz, root, PagesUp(size), PagesUp(size + n), size + n);
        FramedAdded(s, Now(), root, PagesUp(size), PagesUp(size + n), frames, trampoline);
        size := size + n;
      } else if n < 0 {
        var newsz := (size + n) % 0x1_0000_0000_0000_0000;
        assert size + n < 0 ==> newsz == size + n + 0x1_0000_0000_0000_0000;
        size := vm.Uvmdealloc(root, size, newsz);
        ShrinkMemory(s, Now(), sz, root, size);
        FramedShrunk(s, Now(), root, size, sz[root], frames, trampoline);
      }
      assert n == 0 ==> sz[root := size] == sz;
      sz := sz[root := size];
      return true;
    }

    /** sys_sbrk: the old size, or -1.  Eager and lazy growth leave the same memory to be seen. */
    method Sbrk(root: nat, n: int, eager: bool) returns (addr: int)
      requires Valid() && root in sz && -0x8000_0000 <= n < 0x8000_0000
      modifies `sz, vm
      ensures Valid() && sz.Keys == old(sz.Keys) && (addr == -1 || addr == old(sz)[root])
      ensures n >= 0 ==> SameMemory(old(Now()), Now(), 0, 0, 0)
      ensures n >= 0 ==> sz == if addr == -1 then old(sz) else old(sz)[root := old(sz)[root] + n]
      ensures n >= 0 && !eager ==> (addr == -1 <==> old(sz)[root] + n > TRAPFRAME) && Now() == old(Now())
      ensures n > 0 && old(sz)[root] + n > TRAPFRAME ==> addr == -1
      ensures addr == -1 ==>
                n > 0 && (old(sz)[root] + n > TRAPFRAME || |old(vm.freelist)| < 3 * (PagesUp(old(sz)[root] + n) - PagesUp(old(sz)[root])))
      ensures n >= 0 && eager && addr != -1 ==> MappedAs(Now().t, root, PagesUp(old(sz)[root]), PagesUp(sz[root]), PTE_R + PTE_U + PTE_W)
      ensures n >= 0 && addr != -1 ==>
                forall v :: PagesUp(old(sz)[root]) <= v < PagesUp(sz[root]) ==> Usable(Now(), sz[root], root, v, true)
      ensures n < 0 ==> sz == old(sz)[root := if old(sz)[root] + n < 0 then old(sz)[root] else old(sz)[root] + n]
      ensures n < 0 ==> SameMemory(old(Now()), Now(), root, PagesUp(sz[root]), TRAPVPN)
    {
      hide Tree, FreeOk, Sized, SameMemory, PagesUp, Framed, MappedAs, Usable;
      addr := sz[root];
      ghost var s := Now();
      SizedAt(s, sz, root);
      if eager || n < 0 {
        var ok := Growproc(root, n);
        if !ok {
          return -1;
        }
        if n >= 0 {
          SizedAt(Now(), sz, root);
          GrantedUsable(Now(), sz[root], root, PagesUp(old(sz)[root]), PagesUp(sz[root]));
        }
      } else {
        SameMemoryRefl(Now());
        if addr + n > TRAPFRAME {
          return -1;
        }
        SizedAt(Now(), sz, root);
        AddedSame(Now(), root, 0, 0);
        SizedAdded(Now(), Now(), sz, root, 0, 0, sz[root] + n);
        LazyUsable(s, sz[root], sz[root] + n, root);
        sz := sz[root := sz[root] + n];
      }
    }

    /**
      vmfault: map a zeroed page at an address below sz that has none.  0 if the address is not
      below sz, is mapped already, or memory has run out.  No process can see the difference.
     */
    method Vmfault(root: nat, va: nat) returns (mem: nat)
      requires Valid() && root in sz
      modifies vm
      ensures Valid() && SameMemory(old(Now()), Now(), 0, 0, 0)
      ensures forall r :: IsRoot(old(Now()).o, r) ==> IsRoot(Now().o, r)
      ensures va >= sz[root] || PteV(Pte(old(Now()).t, root, va / PGSIZE)) ==> mem == 0
      ensures mem == 0 ==> Quiet(old(Now()), Now(), root)
      ensures mem == 0 ==> va >= sz[root] || PteV(Pte(old(Now()).t, root, va / PGSIZE)) || |old(vm.freelist)| < 3
      ensures |old(vm.freelist)| <= |vm.freelist| + 3
      ensures mem != 0 ==>
                && Added(old(Now()), Now(), root, va / PGSIZE, va / PGSIZE + 1)
                && Accessible(Now().t, root, va / PGSIZE) && PteW(Pte(Now().t, root, va / PGSIZE))
                && mem == Pa(Pte(Now().t, root, va / PGSIZE)) && Flags(Pte(Now().t, root, va / PGSIZE)) == PTE_W + PTE_U + PTE_R + 1
    {
      hide Tree, FreeOk, Sized, SameMemory, PagesUp, Quiet, Added, Bounded, UserPage, Pte, Framed;
      ghost var s, v := Now(), va / PGSIZE;
      SameMemoryRefl(s);
      QuietSame(s, root);
      if va >= sz[root] {
        return 0;
      }
      SizedAt(s, sz, root);
      var va0 := va / PGSIZE * PGSIZE;
      PageStep(0, v);
      var l, k := vm.Walk(root, va0, false);
      if l != 0 && PteV(vm.tables[l][k]) {
        return 0;
      }
      BelowSize(sz[root], va);
      mem := vm.AddPage(root, va0, PTE_W + PTE_U + PTE_R, ZeroPage());
      if mem == 0 {
        QuietIsAdded(s, Now(), root, v);
        SizedAdded(s, Now(), sz, root, v, v, sz[root]);
        AddedMemory(s, Now(), root, v, v);
        SameMemoryAll(s, Now(), root, v);
        AddedRoot(s, Now(), root, v, v);
        FramedAdded(s, Now(), root, v, v, frames, trampoline);
      } else {
        SizedAdded(s, Now(), sz, root, v, v + 1, sz[root]);
        RootsKept(s, s, root, v, v) by { AddedSame(s, root, v, v); }
        GrowMemory(s, s, Now(), root, v);
        AddedRoot(s, Now(), root, v, v + 1);
        FramedAdded(s, Now(), root, v, v + 1, frames, trampoline);
        UserFlags(Pte(Now().t, root, v));
      }
      assert sz[root := sz[root]] == sz;
    }

    /** The page copyout and copyin use for va0: walkaddr, or else vmfault. */
    method PageFor(root: nat, va0: nat) returns (pa: nat)
      requires Valid() && root in sz && va0 % PGSIZE == 0
      modifies vm
      ensures Valid() && SameMemory(old(Now()), Now(), 0, 0, 0)
      ensures forall r :: IsRoot(old(Now()).o, r) ==> IsRoot(Now().o, r)
      ensures pa != 0 ==> Accessible(Now().t, root, va0 / PGSIZE) && pa == Pa(Pte(Now().t, root, va0 / PGSIZE))
      ensures Accessible(old(Now()).t, root, va0 / PGSIZE) ==> pa != 0 && Now() == old(Now())
      ensures forall at, n :: AllAccessible(old(Now()).t, root, at, n) ==> AllAccessible(Now().t, root, at, n)
      ensures if Usable(old(Now()), sz[root], root, va0 / PGSIZE, false) then pa == 0 ==> |old(vm.freelist)| < 3 else pa == 0
      ensures SameUse(old(Now()), Now(), sz[root], root) && |old(vm.freelist)| <= |vm.freelist| + 3
    {
      hide Tree, FreeOk, Sized, SameMemory, Quiet, Added, Pte, Bounded, PagesUp, Framed, SameUse;
      ghost var s, v := Now(), va0 / PGSIZE;
      SizedAt(s, sz, root);
      SameMemoryRefl(s);
      pa := vm.Walkaddr(root, va0);
      if v < MAXVPN && PteV(Pte(s.t, root, v)) && PteU(Pte(s.t, root, v)) {
        AccessPage(s.t, s.o, root, v);
      }
      UseSame(s, sz[root], root);
      if pa == 0 {
        pa := Vmfault(root, va0);
        if pa == 0 {
          QuietIsAdded(s, Now(), root, v);
        }
        UseKept(s, Now(), sz[root], root, v);
        forall at, n | AllAccessible(s.t, root, at, n) ensures AllAccessible(Now().t, root, at, n) {
          AccessKept(s, Now(), root, v, at, n);
        }
      }
    }

    /** The page copyout may write at dst: that of PageFor, if it is mapped writable. */
    method PageToWrite(root: nat, dst: nat) returns (pa: nat)
      requires Valid() && root in sz
      modifies vm
      ensures Valid() && SameMemory(old(Now()), Now(), 0, 0, 0)
      ensures forall r :: IsRoot(old(Now()).o, r) ==> IsRoot(Now().o, r)
      ensures pa != 0 ==> Accessible(Now().t, root, dst / PGSIZE) && PteW(Pte(Now().t, root, dst / PGSIZE)) && pa == Pa(Pte(Now().t, root, dst / PGSIZE))
      ensures forall at, n :: AllAccessible(old(Now()).t, root, at, n) ==> AllAccessible(Now().t, root, at, n)
      ensures if Usable(old(Now()), sz[root], root, dst / PGSIZE, true) then pa == 0 ==> |old(vm.freelist)| < 3 else pa == 0
      ensures SameUse(old(Now()), Now(), sz[root], root) && |old(vm.freelist)| <= |vm.freelist| + 3
      ensures Accessible(old(Now()).t, root, dst / PGSIZE) && PteW(Pte(old(Now()).t, root, dst / PGSIZE)) ==> pa != 0 && Now() == old(Now())
    {
      hide Tree, FreeOk, Sized, SameMemory, Pte, AllAccessible, Quiet, Framed, Usable, SameUse;
      ghost var s := Now();
      SizedAt(s, sz, root);
      SameMemoryRefl(s);
      UseSame(s, sz[root], root);
      UsableIs(s, sz[root], root, dst / PGSIZE);
      var va0 := dst / PGSIZE * PGSIZE;
      PageOffset(dst);
      if va0 >= MAXVPN * PGSIZE {
        NotUsable(s, sz[root], root, dst / PGSIZE);
        return 0;
      }
      pa := PageFor(root, va0);
      if pa == 0 {
        return 0;
      }
      SizedAt(Now(), sz, root);
      UsableIs(Now(), sz[root], root, dst / PGSIZE);
      UseAt(s, Now(), sz[root], root, dst / PGSIZE);
      var l, k := vm.Walk(root, va0, false);
      if !PteW(vm.tables[l][k]) {
        return 0;
      }
    }

    /**
      copyout.  On success the bytes are at dstva and every other byte of every process is as it
      was; on failure that holds for the bytes before the first page that cannot be written.
     */
    method Copyout(root: nat, dstva: nat, src: seq<bv8>) returns (ok: bool)
      requires Valid() && root in sz
      modifies vm
      ensures Valid()
      ensures ok ==> Wrote(old(Now()), Now(), root, dstva, src) && AllAccessible(Now().t, root, dstva, |src|)
      ensures ok ==> AllUsable(old(Now()), sz[root], root, dstva, |src|, true) && AllWritable(Now().t, root, dstva, |src|)
      ensures AllWritable(old(Now()).t, root, dstva, |src|) ==> ok && Now().t == old(Now()).t
      ensures !ok ==> exists m :: 0 <= m < |src| && Wrote(old(Now()), Now(), root, dstva, src[..m])
                                  && Stopped(old(Now()), sz[root], root, dstva, m, |old(vm.freelist)|, true)
    {
      hide Tree, FreeOk, Sized, SameMemory, Wrote, Pte, Poked, Patched, UserPage, AllAccessible, Quiet, Framed, Usable, AllUsable, SameUse, Copying;
      hide Stopped, AllWritable;
      ghost var s0 := Now();
      WroteRoots(s0, sz);
      SameMemoryRefl(s0);
      WroteNothing(s0, s0, root, dstva);
      AccessNone(s0.t, root, dstva);
      CopyStart(s0, sz[root], root, dstva, |src|, |vm.freelist|, true);
      var i := 0;
      while i < |src|
        invariant 0 <= i <= |src| && Valid() && Wrote(s0, Now(), root, dstva, src[..i])
        invariant Copying(s0, Now(), sz[root], root, dstva, i, |src|, |old(vm.freelist)|, |vm.freelist|, true)
        invariant AllAccessible(Now().t, root, dstva, i)
        invariant forall r :: IsRoot(s0.o, r) ==> IsRoot(Now().o, r) && r != 0
        invariant AllWritable(s0.t, root, dstva, |src|) ==> Now().t == s0.t
      {
        ghost var s1, f1 := Now(), |vm.freelist|;
        var dst := dstva + i;
        WritableAt(s0.t, root, dstva, |src|, dst);
        var pa0 := PageToWrite(root, dst);
        ghost var s2 := Now();
        WroteSame(s0, s1, s2, root, dstva, src[..i]) by { SameMemoryRefl(s1); }
        if pa0 == 0 {
          CopyFails(s0, s1, sz[root], root, dstva, i, |src|, |old(vm.freelist)|, f1, true);
          return false;
        }
        SizedAt(s2, sz, root);
        UsableIs(s2, sz[root], root, dst / PGSIZE);
        PageOffset(dst);
        var n := PGSIZE - (dst - dst / PGSIZE * PGSIZE);
        if n > |src| - i {
          n := |src| - i;
        }
        vm.Memmove(pa0, dst - dst / PGSIZE * PGSIZE, src[i..i + n], root, dst / PGSIZE);
        WroteChunk(s0, s2, Now(), root, dstva, src[..i], src[i..i + n]);
        assert src[..i] + src[i..i + n] == src[..i + n];
        AccessMore(Now().t, root, dstva, i, n);
        SizedSame(s2, Now(), sz) by { QuietSame(s2, root); }
        CopyGoes(s0, s1, s2, Now(), sz[root], root, dstva, i, n, |src|, |old(vm.freelist)|, f1, |vm.freelist|, true);
        i := i + n;
      }
      CopyEnds(s0, Now(), sz[root], root, dstva, |src|, |old(vm.freelist)|, |vm.freelist|, true);
      NowWritable(s0, Now(), sz[root], root, dstva, |src|, |old(vm.freelist)|, |vm.freelist|);
      assert src[..i] == src;
      return true;
    }

    /**
      Memory obtained by sbrk can be used: what is copied out to it is copied in from it, and no other byte of any
      process changes.
     */
    method SbrkAndUse(root: nat, n: nat, src: seq<bv8>) returns (addr: int, ok: bool, bytes: seq<bv8>)
      requires Valid() && root in sz && |src| <= n < 0x8000_0000 && sz[root] % PGSIZE == 0
      modifies `sz, vm
      ensures Valid() && sz.Keys == old(sz.Keys)
      ensures addr != -1 ==> addr == old(sz)[root] && ok && bytes == src && Wrote(old(Now()), Now(), root, addr, src)
    {
      hide Tree, FreeOk, Sized, SameMemory, Wrote, AllAccessible, Framed, Usable, AllUsable, Stopped, AllWritable, MappedAs, PagesUp, ReadAs, UserPage;
      ghost var s0 := Now();
      ok, bytes := false, [];
      addr := Sbrk(root, n, true);
      if addr != -1 {
        ghost var s1 := Now();
        SizedAt(s1, sz, root);
        SameRoots(s0, s1, old(sz), sz);
        GrownWritable(s1.t, root, addr, n);
        FirstWritable(s1.t, root, addr, n, |src|);
        ok := Copyout(root, addr, src);
        WroteLater(s0, s1, Now(), root, addr, src);
        ghost var s2 := Now();
        var ok2, bs := Copyin(root, addr, |src|);
        ok, bytes := ok && ok2, bs;
        SameRoots(s0, s2, old(sz), sz);
        CopyRoundTrip(s1, s2, root, addr, src, bytes);
        WroteSame(s0, s2, Now(), root, addr, src);
      }
    }

    /** copyin.  It may fault pages in, which no process can see; it fails at the first page that cannot be read. */
    method Copyin(root: nat, srcva: nat, len: nat) returns (ok: bool, bytes: seq<bv8>)
      requires Valid() && root in sz
      modifies vm
      ensures Valid() && SameMemory(old(Now()), Now(), 0, 0, 0)
      ensures ReadAs(old(Now()), root, srcva, bytes)
      ensures AllAccessible(old(Now()).t, root, srcva, len) ==> ok
      ensures ok ==> |bytes| == len && AllUsable(old(Now()), sz[root], root, srcva, len, false)
      ensures !ok ==> |bytes| < len && Stopped(old(Now()), sz[root], root, srcva, |bytes|, |old(vm.freelist)|, false)
    {
      hide Tree, FreeOk, Sized, SameMemory, Pte, UserPage, AllAccessible, ReadAs, Framed, Usable, AllUsable, SameUse, Copying, Stopped;
      ghost var s0 := Now();
      SizedAt(s0, sz, root);
      ReadNone(s0, root, srcva);
      WroteRoots(s0, sz);
      SameMemoryRefl(s0);
      CopyStart(s0, sz[root], root, srcva, len, |vm.freelist|, false);
      bytes := [];
      while |bytes| < len
        invariant |bytes| <= len && Valid() && SameMemory(s0, Now(), 0, 0, 0)
        invariant Copying(s0, Now(), sz[root], root, srcva, |bytes|, len, |old(vm.freelist)|, |vm.freelist|, false)
        invariant ReadAs(s0, root, srcva, bytes)
        invariant forall r :: IsRoot(s0.o, r) ==> IsRoot(Now().o, r) && r != 0
        invariant AllAccessible(s0.t, root, srcva, len) ==> AllAccessible(Now().t, root, srcva, len)
      {
        ghost var s1, f1 := Now(), |vm.freelist|;
        var src := srcva + |bytes|;
        var va0 := src / PGSIZE * PGSIZE;
        PageOffset(src);
        if AllAccessible(s1.t, root, srcva, len) {
          AccessAt(s1.t, root, srcva, len, src);
        }
        var pa0 := PageFor(root, va0);
        ghost var s2 := Now();
        SameMemoryTrans(s0, s1, s2);
        if pa0 == 0 {
          CopyFails(s0, s1, sz[root], root, srcva, |bytes|, len, |old(vm.freelist)|, f1, false);
          return false, bytes;
        }
        SizedAt(s2, sz, root);
        MappedPage(vm.tables, vm.owner, root, src / PGSIZE);
        SeesPage(s2, root, src / PGSIZE);
        var n := PGSIZE - (src - va0);
        if n > len - |bytes| {
          n := len - |bytes|;
        }
        var chunk := vm.data[pa0][src - va0..src - va0 + n];
        ReadChunk(s0, s2, root, src, n, vm.data[pa0]);
        ReadMore(s0, root, srcva, bytes, chunk);
        UsableIs(s2, sz[root], root, src / PGSIZE);
        CopyGoes(s0, s1, s2, s2, sz[root], root, srcva, |bytes|, n, len, |old(vm.freelist)|, f1, |vm.freelist|, false);
        bytes := bytes + chunk;
      }
      CopyEnds(s0, Now(), sz[root], root, srcva, len, |old(vm.freelist)|, |vm.freelist|, false);
      return true, bytes;
    }

    /**
      kfork's memory: the child sees exactly what the parent sees, or nothing has changed hands.  Either way the
      memory of every process is as it was.
     */
    method Fork(parent: nat) returns (child: nat)
      requires Valid() && parent in sz
      modifies this, vm
      ensures Valid() && SameMemory(old(Now()), Now(), 0, 0, 0)
      ensures child == 0 ==> sz == old(sz) && frames == old(frames) && Now().o == old(Now().o)
      ensures child == 0 ==> |old(vm.freelist)| < 6 + 3 * PagesUp(sz[parent])
      ensures child != 0 ==> child !in old(sz) && sz == old(sz)[child := old(sz)[parent]] && Copied(Now(), parent, child, PagesUp(sz[parent]))
      ensures child != 0 ==> forall v :: 0 <= v < TRAPVPN ==> UserPage(Now(), child, v) == UserPage(old(Now()), parent, v)
    {
      hide Tree, FreeOk, Sized, SameMemory, UserPage, Created, Destroyed, Added, Quiet, Copied, Bounded, PagesUp, Pte, Framed;
      ghost var s0 := Now();
      SizedAt(s0, sz, parent);
      child := Create();
      if child == 0 {
        return 0;
      }
      ghost var s1, frame := Now(), frames[child];
      var ok := CopyTo(parent, child);
      if !ok {
        ghost var s2 := Now();
        Destroy(child);
        ForkUndone(s0, s1, s2, Now(), child, frame);
        assert sz == old(sz) && frames == old(frames);
        return 0;
      }
      ForkDone(s0, s1, Now(), child, frame, PagesUp(sz[parent]), parent);
    }

    /** uvmcopy to a new process, whose size is then the parent's. */
    method CopyTo(parent: nat, child: nat) returns (ok: bool)
      requires Valid() && parent in sz && child in sz && parent != child && sz[child] == 0
      modifies `sz, vm
      ensures Valid() && sz == if ok then old(sz)[child := sz[parent]] else old(sz)
      ensures !ok ==> Quiet(old(Now()), Now(), child) && |old(vm.freelist)| < 3 * PagesUp(sz[parent])
      ensures ok ==> Added(old(Now()), Now(), child, 0, PagesUp(sz[parent])) && Copied(Now(), parent, child, PagesUp(sz[parent]))
      ensures ok ==> forall v :: 0 <= v < TRAPVPN ==> UserPage(Now(), child, v) == UserPage(old(Now()), parent, v)
    {
      hide Tree, FreeOk, Sized, UserPage, Added, Quiet, Copied, Bounded, PagesUp, Pte, Framed;
      ghost var s1 := Now();
      SizedAt(s1, sz, parent);
      SizedAt(s1, sz, child);
      PagesUpBounds(0, 0);
      ok := vm.Uvmcopy(parent, child, sz[parent]);
      if !ok {
        QuietIsAdded(s1, Now(), child, 0);
        SizedAdded(s1, Now(), sz, child, 0, 0, 0);
        FramedAdded(s1, Now(), child, 0, 0, frames, trampoline);
        assert sz[child := 0] == sz;
        return;
      }
      SizedAdded(s1, Now(), sz, child, 0, PagesUp(sz[parent]), sz[parent]);
      FramedAdded(s1, Now(), child, 0, PagesUp(sz[parent]), frames, trampoline);
      ForkMemory(s1, Now(), parent, child, PagesUp(sz[parent]));
      sz := sz[child := sz[parent]];
    }

    /**
      However the address spaces got to be as they are, destroying them all puts every page on the
      free list, once each, but those that were handed out for something else than a process.
     */
    method DestroyAll()
      requires Valid()
      modifies this, vm
      ensures Valid() && sz == map[] && frames == map[] && Now().o.Keys == old(Now().o.Keys)
      ensures forall p :: p in Now().o ==> Now().o[p] == if old(Now().o[p]).Held? && p !in old(frames).Values then Held else Free
    {
      hide Tree, FreeOk, Sized, Destroyed, SameMemory, Framed;
      ghost var s0, f0 := Now(), frames;
      while sz != map[]
        invariant Valid() && OthersHeld(s0.o, f0, Now().o, frames)
        decreases |sz|
      {
        var root :| root in sz;
        ghost var s, f := Now(), frames;
        SizedAt(s, sz, root);
        FrameAt(s, f, trampoline, root);
        Destroy(root);
        DestroyedHeld(s0.o, f0, s, f, trampoline, Now(), root);
      }
      assert frames == map[];
      NoLeak(Now());
    }
  }

  // ---------------------------------------------------------------- which addresses can be copied

  /** Page v of a process of size sz can be read, or written: it is mapped for the user, or it can be faulted in. */
  ghost predicate Usable(s: Snap, sz: nat, r: nat, v: nat, write: bool) {
    || (Accessible(s.t, r, v) && (write ==> PteW(Pte(s.t, r, v))))
    || (v * PGSIZE < sz && !PteV(Pte(s.t, r, v)))
  }

  ghost predicate AllUsable(s: Snap, sz: nat, r: nat, at: nat, n: nat, write: bool) {
    forall a :: at <= a < at + n ==> Usable(s, sz, r, a / PGSIZE, write)
  }

  ghost predicate AllWritable(t: Tables, r: nat, at: nat, n: nat) {
    forall a :: at <= a < at + n ==> Accessible(t, r, a / PGSIZE) && PteW(Pte(t, r, a / PGSIZE))
  }

  lemma WritableAt(t: Tables, r: nat, at: nat, n: nat, a: nat)
    requires at <= a < at + n
    ensures AllWritable(t, r, at, n) ==> Accessible(t, r, a / PGSIZE) && PteW(Pte(t, r, a / PGSIZE))
  {}

  lemma FirstWritable(t: Tables, r: nat, at: nat, n: nat, m: nat)
    requires AllWritable(t, r, at, n) && m <= n
    ensures AllWritable(t, r, at, m) && AllAccessible(t, r, at, m)
  {}

  /** Memory just grown by n bytes from a page boundary. */
  lemma GrownWritable(t: Tables, r: nat, at: nat, n: nat)
    requires at % PGSIZE == 0 && at + n <= TRAPVPN * PGSIZE && MappedAs(t, r, PagesUp(at), PagesUp(at + n), PTE_R + PTE_U + PTE_W)
    ensures AllWritable(t, r, at, n)
  {
    forall a | at <= a < at + n ensures Accessible(t, r, a / PGSIZE) && PteW(Pte(t, r, a / PGSIZE)) {
      assert PagesUp(at) <= a / PGSIZE < PagesUp(at + n) && a / PGSIZE < TRAPVPN;
      UserFlags(Pte(t, r, a / PGSIZE));
    }
  }

  lemma SameRoots(s: Snap, s': Snap, sz: map<nat, nat>, sz': map<nat, nat>)
    requires Tree(s.t, s.o) && Sized(s, sz) && Sized(s', sz') && sz.Keys == sz'.Keys
    ensures forall r :: IsRoot(s.o, r) ==> IsRoot(s'.o, r) && r != 0
  {
    hide Tree;
    WroteRoots(s, sz);
  }

  lemma WroteLater(s0: Snap, s1: Snap, s2: Snap, q: nat, dst: nat, bytes: seq<bv8>)
    requires SameMemory(s0, s1, 0, 0, 0) && Wrote(s1, s2, q, dst, bytes) && forall r :: IsRoot(s0.o, r) ==> IsRoot(s1.o, r) && r != 0
    ensures Wrote(s0, s2, q, dst, bytes)
  {}

  /** How many pages the n bytes at `at` lie in. */
  function Spans(at: nat, n: nat): nat { if n == 0 then 0 else (at + n - 1) / PGSIZE - at / PGSIZE + 1 }

  /** Faulting pages in does not change what can be used. */
  ghost predicate SameUse(s: Snap, s': Snap, sz: nat, r: nat) {
    forall v: nat, w: bool :: Usable(s', sz, r, v, w) == Usable(s, sz, r, v, w)
  }

  lemma UseSame(s: Snap, sz: nat, r: nat)
    ensures SameUse(s, s, sz, r)
  {}

  lemma UseKept(s: Snap, s': Snap, sz: nat, q: nat, v: nat)
    requires IsRoot(s.o, q) && sz <= TRAPVPN * PGSIZE
    requires || Added(s, s', q, v, v)
             || (Added(s, s', q, v, v + 1) && v * PGSIZE < sz && !PteV(Pte(s.t, q, v)) && Accessible(s'.t, q, v) && PteW(Pte(s'.t, q, v)))
    ensures SameUse(s, s', sz, q)
  {
    forall u: nat, w: bool ensures Usable(s', sz, q, u, w) == Usable(s, sz, q, u, w) {
      if u < TRAPVPN && u != v {
        assert Pte(s'.t, q, u) == Pte(s.t, q, u);
      }
    }
  }

  lemma UsableIs(s: Snap, sz: nat, r: nat, v: nat)
    ensures Accessible(s.t, r, v) ==> Usable(s, sz, r, v, false) && Usable(s, sz, r, v, true) == PteW(Pte(s.t, r, v))
    ensures Usable(s, sz, r, v, true) ==> Usable(s, sz, r, v, false)
  {}

  lemma NotUsable(s: Snap, sz: nat, r: nat, v: nat)
    requires v >= TRAPVPN && sz <= TRAPVPN * PGSIZE
    ensures !Usable(s, sz, r, v, false)
  {}

  lemma GrantedUsable(s: Snap, sz: nat, r: nat, lo: nat, hi: nat)
    requires MappedAs(s.t, r, lo, hi, PTE_R + PTE_U + PTE_W) && hi <= TRAPVPN
    ensures forall v :: lo <= v < hi ==> Usable(s, sz, r, v, true)
  {
    forall v | lo <= v < hi ensures Usable(s, sz, r, v, true) {
      UserFlags(Pte(s.t, r, v));
    }
  }

  lemma LazyUsable(s: Snap, was: nat, sz: nat, r: nat)
    requires Bounded(s.t, r, PagesUp(was)) && was <= sz <= TRAPVPN * PGSIZE
    ensures forall v :: PagesUp(was) <= v < PagesUp(sz) ==> Usable(s, sz, r, v, true)
  {}

  /** Where a copy of n bytes at `at` has come after i of them: free pages were f0 and are f. */
  ghost predicate Copying(s0: Snap, s: Snap, sz: nat, r: nat, at: nat, i: nat, n: nat, f0: nat, f: nat, write: bool) {
    && SameUse(s0, s, sz, r) && AllUsable(s0, sz, r, at, i, write)
    && (i < n ==> f0 <= f + 3 * ((at + i) / PGSIZE - at / PGSIZE))
  }

  lemma CopyStart(s: Snap, sz: nat, r: nat, at: nat, n: nat, f: nat, write: bool)
    ensures Copying(s, s, sz, r, at, 0, n, f, f, write)
  {}

  lemma CopyEnds(s0: Snap, s: Snap, sz: nat, r: nat, at: nat, n: nat, f0: nat, f: nat, write: bool)
    requires Copying(s0, s, sz, r, at, n, n, f0, f, write)
    ensures AllUsable(s0, sz, r, at, n, write)
  {}

  lemma NowWritable(s0: Snap, s: Snap, sz: nat, r: nat, at: nat, n: nat, f0: nat, f: nat)
    requires Copying(s0, s, sz, r, at, n, n, f0, f, true) && AllAccessible(s.t, r, at, n)
    ensures AllWritable(s.t, r, at, n)
  {
    forall a | at <= a < at + n ensures Accessible(s.t, r, a / PGSIZE) && PteW(Pte(s.t, r, a / PGSIZE)) {
      assert Usable(s0, sz, r, a / PGSIZE, true);
      assert Usable(s, sz, r, a / PGSIZE, true) == Usable(s0, sz, r, a / PGSIZE, true);
    }
  }

  /** A copy stops after m bytes because the next page cannot be used or because memory runs out before it is faulted in. */
  ghost predicate Stopped(s: Snap, sz: nat, r: nat, at: nat, m: nat, f: nat, write: bool) {
    AllUsable(s, sz, r, at, m, write) && (!Usable(s, sz, r, (at + m) / PGSIZE, write) || f < 3 * Spans(at, m + 1))
  }

  lemma CopyFails(s0: Snap, s1: Snap, sz: nat, r: nat, at: nat, i: nat, n: nat, f0: nat, f1: nat, write: bool)
    requires Copying(s0, s1, sz, r, at, i, n, f0, f1, write) && i < n && (!Usable(s1, sz, r, (at + i) / PGSIZE, write) || f1 < 3)
    ensures Stopped(s0, sz, r, at, i, f0, write)
  {
    assert Usable(s1, sz, r, (at + i) / PGSIZE, write) == Usable(s0, sz, r, (at + i) / PGSIZE, write);
  }

  /** A page that can be used stays usable, so that a copy over such pages fails only for want of memory. */
  lemma StoppedOnly(s: Snap, sz: nat, r: nat, at: nat, m: nat, n: nat, f: nat, write: bool)
    requires m < n && Stopped(s, sz, r, at, m, f, write) && AllUsable(s, sz, r, at, n, write)
    ensures f < 3 * Spans(at, n)
  {
    assert Usable(s, sz, r, (at + m) / PGSIZE, write);
    assert (at + m) / PGSIZE <= (at + n - 1) / PGSIZE;
  }

  lemma UseAt(s: Snap, s': Snap, sz: nat, r: nat, v: nat)
    requires SameUse(s, s', sz, r)
    ensures Usable(s', sz, r, v, true) == Usable(s, sz, r, v, true)
  {}

  lemma CopyGoes(s0: Snap, s1: Snap, s2: Snap, s3: Snap, sz: nat, r: nat, at: nat, i: nat, m: nat, n: nat, f0: nat, f1: nat, f: nat, write: bool)
    requires Copying(s0, s1, sz, r, at, i, n, f0, f1, write) && i < n && SameUse(s1, s2, sz, r) && s3.t == s2.t && f1 <= f + 3
    requires m == (if PGSIZE - (at + i) % PGSIZE > n - i then n - i else PGSIZE - (at + i) % PGSIZE) && Usable(s2, sz, r, (at + i) / PGSIZE, write)
    ensures Copying(s0, s3, sz, r, at, i + m, n, f0, f, write)
  {
    var v := (at + i) / PGSIZE;
    assert Usable(s0, sz, r, v, write);
    forall a | at <= a < at + (i + m) ensures Usable(s0, sz, r, a / PGSIZE, write) {
      if a >= at + i {
        assert a / PGSIZE == v;
      }
    }
    if i + m < n {
      assert (at + (i + m)) / PGSIZE == v + 1;
    }
    assert forall u: nat, w: bool :: Usable(s3, sz, r, u, w) == Usable(s2, sz, r, u, w);
  }

  // ---------------------------------------------------------------- trapframe pages

  /**
    Each process has a trapframe page of its own, which is in no page table below the trapframe.  The top of its address
    space maps that page for the kernel to read and write, and the trampoline to read and execute.
   */
  ghost predicate Framed(o: Owners, t: Tables, frames: map<nat, nat>, trampoline: nat) {
    && (forall r :: r in frames ==> frames[r] in o && o[frames[r]].Held?)
    && (forall r, q :: r in frames && q in frames && frames[r] == frames[q] ==> r == q)
    && forall r :: r in frames ==> IsRoot(o, r) && TopIs(t, r, frames[r], trampoline)
  }

  ghost predicate TopIs(t: Tables, r: nat, frame: nat, trampoline: nat) {
    Pte(t, r, TRAPVPN) == MkPte(frame, PTE_R + PTE_W) && Pte(t, r, TRAPVPN + 1) == MkPte(trampoline, PTE_R + PTE_X)
  }

  lemma FrameAt(s: Snap, frames: map<nat, nat>, trampoline: nat, r: nat)
    requires Framed(s.o, s.t, frames, trampoline) && r in frames
    ensures frames[r] in s.o && s.o[frames[r]].Held? && TopIs(s.t, r, frames[r], trampoline)
  {}

  lemma FramedAdded(s: Snap, s': Snap, q: nat, lo: nat, hi: nat, frames: map<nat, nat>, trampoline: nat)
    requires Framed(s.o, s.t, frames, trampoline) && Added(s, s', q, lo, hi) && (lo == hi || hi <= TRAPVPN)
    ensures Framed(s'.o, s'.t, frames, trampoline)
  {
    hide MkPte;
  }

  lemma FramedShrunk(s: Snap, s': Snap, q: nat, n: nat, m: nat, frames: map<nat, nat>, trampoline: nat)
    requires Framed(s.o, s.t, frames, trampoline) && PagesUp(m) <= TRAPVPN && if n == m then s' == s else Removed(s, s', q, PagesUp(n), PagesUp(m))
    ensures Framed(s'.o, s'.t, frames, trampoline)
  {
    hide MkPte;
  }

  // ---------------------------------------------------------------- creating and destroying

  /** From s to s' the pages of an empty address space q, and its trapframe page, have been taken, and nothing else. */
  ghost predicate Created(s: Snap, s': Snap, q: nat, frame: nat) {
    && q in s.o && s.o[q].Free? && IsRoot(s'.o, q) && frame in s.o && s.o[frame].Free? && s'.o.Keys == s.o.Keys && s'.o[frame].Held?
    && (forall p :: p in s.o && p != q && p != frame ==>
          s'.o[p] == s.o[p] || (s.o[p].Free? && (s'.o[p].Mid? || s'.o[p].Low?) && s'.o[p].root == q))
    && SamePtes(s.o, s.t, s'.t) && SameBytes(s.o, s.d, s'.d)
  }

  /** From s to s' the pages of address space q and its trapframe page have become free, and no others. */
  ghost predicate Destroyed(s: Snap, s': Snap, q: nat, frame: nat) {
    && s'.o.Keys == s.o.Keys
    && (forall p :: p in s.o ==> s'.o[p] == if Rooted(p, s.o[p], q) || p == frame then Free else s.o[p])
    && (forall r, v :: IsRoot(s.o, r) && r != q && 0 <= v < MAXVPN ==> Pte(s'.t, r, v) == Pte(s.t, r, v))
    && SameBytes(s'.o, s.d, s'.d)
  }

  lemma SizedHeld(s: Snap, s': Snap, sz: map<nat, nat>, pa: nat)
    requires Sized(s, sz) && pa in s.o && s.o[pa].Free? && s'.o == s.o[pa := Held] && s'.t == s.t
    ensures Sized(s', sz)
  {}

  lemma SizedFreed(s: Snap, s': Snap, sz: map<nat, nat>, pa: nat)
    requires Sized(s, sz) && pa in s.o && s.o[pa].Held? && s'.o == s.o[pa := Free] && s'.t == s.t
    ensures Sized(s', sz)
  {}

  /** Where mappings and the bytes of pages in use are the same, so is the memory of every process. */
  lemma UnchangedMemory(s: Snap, s': Snap)
    requires Tree(s.t, s.o) && s.d.Keys == s.o.Keys && SamePtes(s.o, s.t, s'.t) && SameBytes(s.o, s.d, s'.d)
    ensures SameMemory(s, s', 0, 0, 0)
  {
    hide Tree;
    forall r, v | IsRoot(s.o, r) && 0 <= v < TRAPVPN ensures UserPage(s', r, v) == UserPage(s, r, v) {
      if PteV(Pte(s.t, r, v)) {
        MappedPage(s.t, s.o, r, v);
      }
    }
  }

  lemma PtesAfter(o: Owners, pa: nat, t: Tables, t': Tables)
    requires pa in o && o[pa].Free? && SamePtes(o[pa := Held], t, t')
    ensures SamePtes(o, t, t')
  {}

  lemma BytesAfter(o: Owners, pa: nat, d: map<nat, Page>, d1: map<nat, Page>, d2: map<nat, Page>)
    requires pa in o && o[pa].Free? && SameBytes(o, d, d1) && SameBytes(o[pa := Held], d1, d2)
    ensures SameBytes(o, d, d2)
  {}

  lemma BytesTrans(o: Owners, d: map<nat, Page>, d1: map<nat, Page>, d2: map<nat, Page>)
    requires SameBytes(o, d, d1) && SameBytes(o, d1, d2)
    ensures SameBytes(o, d, d2)
  {}

  lemma CreateUndone(s: Snap, s1: Snap, s2: Snap, s3: Snap, sz: map<nat, nat>, pa: nat)
    requires Tree(s.t, s.o) && s.d.Keys == s.o.Keys && Sized(s, sz) && pa in s.o && s.o[pa].Free?
    requires s1.o == s.o[pa := Held] && s1.t == s.t && SameBytes(s.o, s.d, s1.d)
    requires s2.o == s1.o && SamePtes(s1.o, s1.t, s2.t) && SameBytes(s1.o, s1.d, s2.d)
    requires s3.o == s2.o[pa := Free] && s3.t == s2.t && SameBytes(s3.o, s2.d, s3.d)
    ensures s3.o == s.o && Sized(s3, sz) && SameMemory(s, s3, 0, 0, 0) && SamePtes(s.o, s.t, s3.t)
  {
    hide Tree, Sized, SameMemory, SamePtes, SameBytes;
    assert s3.o == s.o;
    PtesAfter(s.o, pa, s.t, s3.t);
    BytesAfter(s.o, pa, s.d, s1.d, s2.d);
    BytesTrans(s.o, s.d, s2.d, s3.d);
    UnchangedMemory(s, s3);
    SizedSame(s, s3, sz);
  }

  lemma CreateDone(s: Snap, s1: Snap, s2: Snap, q: nat, pa: nat)
    requires Tree(s.t, s.o) && s.d.Keys == s.o.Keys && pa in s.o && s.o[pa].Free?
    requires s1.o == s.o[pa := Held] && s1.t == s.t && SameBytes(s.o, s.d, s1.d) && Built(s1, s2, q)
    ensures Created(s, s2, q, pa) && SameMemory(s, s2, 0, 0, 0)
  {
    hide Tree, SameMemory, SamePtes, SameBytes;
    PtesAfter(s.o, pa, s.t, s2.t);
    BytesAfter(s.o, pa, s.d, s1.d, s2.d);
    UnchangedMemory(s, s2);
  }

  lemma CreatedFramed(s: Snap, s': Snap, q: nat, pa: nat, frames: map<nat, nat>, trampoline: nat)
    requires Created(s, s', q, pa) && Framed(s.o, s.t, frames, trampoline)
    requires OnlyTop(s'.t, q, MkPte(trampoline, PTE_R + PTE_X), MkPte(pa, PTE_R + PTE_W))
    ensures Framed(s'.o, s'.t, frames[q := pa], trampoline)
  {
    hide MkPte, SameBytes, OnlyTop;
    var f := frames[q := pa];
    TopSlot(s'.t, q, MkPte(trampoline, PTE_R + PTE_X), MkPte(pa, PTE_R + PTE_W));
    forall r | r in f ensures IsRoot(s'.o, r) && TopIs(s'.t, r, f[r], trampoline) {
      if r != q {
        assert IsRoot(s.o, r) && TopIs(s.t, r, frames[r], trampoline);
      }
    }
  }

  lemma FramedSame(s: Snap, s': Snap, frames: map<nat, nat>, trampoline: nat)
    requires Framed(s.o, s.t, frames, trampoline) && s'.o == s.o && SamePtes(s.o, s.t, s'.t)
    ensures Framed(s'.o, s'.t, frames, trampoline)
  {
    hide MkPte;
  }

  lemma DestroyedFramed(s: Snap, s': Snap, q: nat, frames: map<nat, nat>, trampoline: nat)
    requires q in frames && Destroyed(s, s', q, frames[q]) && IsRoot(s.o, q) && Framed(s.o, s.t, frames, trampoline)
    ensures Framed(s'.o, s'.t, frames - {q}, trampoline)
  {
    hide MkPte, SameBytes;
    var f := frames - {q};
    forall r | r in f ensures IsRoot(s'.o, r) && TopIs(s'.t, r, f[r], trampoline) {
      assert IsRoot(s.o, r) && TopIs(s.t, r, frames[r], trampoline);
    }
  }

  lemma DestroyDone(s: Snap, s1: Snap, s2: Snap, q: nat, frame: nat)
    requires Tree(s.t, s.o) && s.d.Keys == s.o.Keys && frame in s.o && s.o[frame].Held? && IsRoot(s.o, q)
    requires s1.o == s.o[frame := Free] && s1.t == s.t && SameBytes(s1.o, s.d, s1.d) && TornDown(s1, s2, q)
    ensures Destroyed(s, s2, q, frame) && SameMemory(s, s2, q, 0, TRAPVPN)
  {
    hide Tree, SameMemory;
    assert Destroyed(s, s2, q, frame);
    DestroyedMemory(s, s2, q, frame);
  }

  lemma DestroyedMemory(s: Snap, s': Snap, q: nat, frame: nat)
    requires Tree(s.t, s.o) && s.d.Keys == s.o.Keys && IsRoot(s.o, q) && frame in s.o && s.o[frame].Held? && Destroyed(s, s', q, frame)
    ensures SameMemory(s, s', q, 0, TRAPVPN)
  {
    hide Tree, Destroyed, UserPage;
    forall r, v | IsRoot(s.o, r) && 0 <= v < TRAPVPN && r != q ensures UserPage(s', r, v) == UserPage(s, r, v) {
      DestroyedPage(s, s', q, frame, r, v);
    }
  }

  lemma DestroyedPage(s: Snap, s': Snap, q: nat, frame: nat, r: nat, v: nat)
    requires Tree(s.t, s.o) && s.d.Keys == s.o.Keys && IsRoot(s.o, q) && frame in s.o && s.o[frame].Held? && Destroyed(s, s', q, frame)
    requires IsRoot(s.o, r) && v < TRAPVPN && r != q
    ensures UserPage(s', r, v) == UserPage(s, r, v)
  {
    hide Tree, Pte;
    assert Pte(s'.t, r, v) == Pte(s.t, r, v);
    if PteV(Pte(s.t, r, v)) {
      MappedPage(s.t, s.o, r, v);
      var pa := Pa(Pte(s.t, r, v));
      assert !Rooted(pa, s.o[pa], q) && s'.o[pa] == s.o[pa];
      assert pa in s.d && s'.d[pa] == s.d[pa];
    }
  }

  /** A fork that runs out of memory is undone. */
  lemma ForkUndone(s0: Snap, s1: Snap, s2: Snap, s3: Snap, q: nat, frame: nat)
    requires Tree(s0.t, s0.o) && s0.d.Keys == s0.o.Keys && Created(s0, s1, q, frame) && Quiet(s1, s2, q) && Destroyed(s2, s3, q, frame)
    ensures s3.o == s0.o && SameMemory(s0, s3, 0, 0, 0)
  {
    hide Tree, SameMemory;
    CreatedMore(s0, s1, s2, q, frame);
    hide Quiet;
    CreatedDestroyed(s0, s2, s3, q, frame);
    UnchangedMemory(s0, s3);
  }

  lemma CreatedMore(s0: Snap, s1: Snap, s2: Snap, q: nat, frame: nat)
    requires Created(s0, s1, q, frame) && Quiet(s1, s2, q)
    ensures Created(s0, s2, q, frame)
  {}

  lemma CreatedDestroyed(s0: Snap, s2: Snap, s3: Snap, q: nat, frame: nat)
    requires Tree(s0.t, s0.o) && Created(s0, s2, q, frame) && Destroyed(s2, s3, q, frame)
    ensures s3.o == s0.o && SamePtes(s0.o, s0.t, s3.t) && SameBytes(s0.o, s0.d, s3.d)
  {
    hide Tree;
    forall p | p in s0.o ensures !Rooted(p, s0.o[p], q) || p == q {
      Up(s0.t, s0.o, p);
    }
    assert forall r :: IsRoot(s0.o, r) ==> IsRoot(s2.o, r) && r != q;
  }

  lemma ForkDone(s0: Snap, s1: Snap, s2: Snap, child: nat, frame: nat, n: nat, parent: nat)
    requires SameMemory(s0, s1, 0, 0, 0) && Created(s0, s1, child, frame) && IsRoot(s0.o, parent)
    requires Tree(s1.t, s1.o) && s1.d.Keys == s1.o.Keys && Added(s1, s2, child, 0, n)
    ensures SameMemory(s0, s2, 0, 0, 0) && forall v :: 0 <= v < TRAPVPN ==> UserPage(s1, parent, v) == UserPage(s0, parent, v)
  {
    hide Tree, Added;
    AddedMemory(s1, s2, child, 0, n);
    assert forall r :: IsRoot(s0.o, r) ==> IsRoot(s1.o, r) && r != child;
  }

  /** The pages held that are no trapframe pages are the same. */
  ghost predicate OthersHeld(o: Owners, f: map<nat, nat>, o': Owners, f': map<nat, nat>) {
    o'.Keys == o.Keys && forall p :: p in o ==> (o'[p].Held? && p !in f'.Values <==> o[p].Held? && p !in f.Values)
  }

  lemma DestroyedHeld(o: Owners, f: map<nat, nat>, s: Snap, f1: map<nat, nat>, trampoline: nat, s': Snap, q: nat)
    requires OthersHeld(o, f, s.o, f1) && q in f1 && Destroyed(s, s', q, f1[q]) && IsRoot(s.o, q) && Framed(s.o, s.t, f1, trampoline)
    ensures OthersHeld(o, f, s'.o, f1 - {q})
  {
    var f2 := f1 - {q};
    forall p | p in o ensures s'.o[p].Held? && p !in f2.Values <==> s.o[p].Held? && p !in f1.Values {
      if p in f1.Values {
        var r :| r in f1 && f1[r] == p;
        if r != q {
          assert r in f2 && f2[r] == p;
        }
      }
    }
  }
}
