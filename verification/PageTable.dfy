/**
  Sv39 page tables (section 4.4 of the RISC-V Privileged Architecture) as trees of physical pages.
  A page table entry is a number, as in kernel/riscv.h: ten flag bits below a page number.
  `Role` says what each physical page is in use for; the invariant `Tree` ties the roles to the
  entries in both directions, so that no page has two uses and no table page is unreachable.
 */
module PageTable {

  const PGSIZE := 4096
  const NPTE := 512
  const MAXVPN := 0x400_0000        // MAXVA / PGSIZE
  const NLOW := MAXVPN / NPTE       // last-level tables under one root
  const NMID := NLOW / NPTE         // middle tables under one root
  const TRAPVPN := MAXVPN - 2       // TRAPFRAME / PGSIZE; the trampoline is the page above
  const PTE_R := 2
  const PTE_W := 4
  const PTE_X := 8
  const PTE_U := 16

  predicate PteV(e: nat) { e % 2 == 1 }
  predicate IsLeaf(e: nat) { e / 2 % 8 != 0 }   // any of R, W, X
  predicate PteW(e: nat) { e / 4 % 2 == 1 }
  predicate PteU(e: nat) { e / 16 % 2 == 1 }
  function Pa(e: nat): nat { e / 1024 * PGSIZE }
  function Flags(e: nat): nat { e % 1024 }

  /** PA2PTE(pa) | perm | PTE_V */
  function MkPte(pa: nat, perm: nat): nat { pa / PGSIZE * 1024 + perm / 2 * 2 + 1 }

  lemma FlagBits(q: nat, f: nat)
    requires f < 1024
    ensures (q * 1024 + f) / 1024 == q && (q * 1024 + f) % 1024 == f && (q * 1024 + f) % 2 == f % 2
  {}

  lemma Halve(k: nat, r: nat)
    ensures r < 2 ==> (2 * k + r) / 2 == k
    ensures r < 4 ==> (4 * k + r) / 4 == k
    ensures r < 16 ==> (16 * k + r) / 16 == k
  {}

  lemma DropHigh(k: nat, m: nat)
    ensures (2 * k + m) % 2 == m % 2 && (8 * k + m) % 8 == m % 8
  {}

  lemma LeafBits(q: nat, f: nat)
    ensures (q * 1024 + f) / 2 % 8 == f / 2 % 8
  {
    assert q * 1024 + f == 2 * (q * 512 + f / 2) + f % 2;
    Halve(q * 512 + f / 2, f % 2);
    DropHigh(q * 64, f / 2);
  }

  lemma WriteBit(q: nat, f: nat)
    ensures (q * 1024 + f) / 4 % 2 == f / 4 % 2
  {
    assert q * 1024 + f == 4 * (q * 256 + f / 4) + f % 4;
    Halve(q * 256 + f / 4, f % 4);
    DropHigh(q * 128, f / 4);
  }

  lemma UserBit(q: nat, f: nat)
    ensures (q * 1024 + f) / 16 % 2 == f / 16 % 2
  {
    assert q * 1024 + f == 16 * (q * 64 + f / 16) + f % 16;
    Halve(q * 64 + f / 16, f % 16);
    DropHigh(q * 32, f / 16);
  }

  lemma SetValid(perm: nat)
    ensures (perm / 2 * 2 + 1) / 2 == perm / 2 && (perm / 2 * 2 + 1) / 4 == perm / 4 && (perm / 2 * 2 + 1) / 16 == perm / 16
    ensures (perm / 2 * 2 + 1) % 2 == 1 && (perm < 1024 ==> perm / 2 * 2 + 1 < 1024)
  {}

  /** Encoding an entry and decoding it. */
  lemma PteRoundTrip(pa: nat, perm: nat)
    requires pa % PGSIZE == 0 && perm < 1024
    ensures PteV(MkPte(pa, perm)) && Pa(MkPte(pa, perm)) == pa && Flags(MkPte(pa, perm)) == perm / 2 * 2 + 1
    ensures IsLeaf(MkPte(pa, perm)) == IsLeaf(perm)
    ensures PteW(MkPte(pa, perm)) == PteW(perm) && PteU(MkPte(pa, perm)) == PteU(perm)
  {
    var q, f := pa / PGSIZE, perm / 2 * 2 + 1;
    SetValid(perm);
    FlagBits(q, f);
    LeafBits(q, f);
    WriteBit(q, f);
    UserBit(q, f);
  }

  type Tables = map<nat, seq<nat>>

  datatype Role =
    | Free                       // on the free list
    | Held                       // handed out by kalloc, in no page table
    | Root                       // a top-level table
    | Mid(root: nat, x: nat)     // the table for index x of that root
    | Low(root: nat, b: nat)     // the last-level table of virtual pages [512 * b, 512 * b + 512)
    | User(root: nat, v: nat)    // mapped at virtual page v
  {
    predicate IsTable() { Root? || Mid? || Low? }
  }

  type Owners = map<nat, Role>

  /** The role of what entry idx of page p points to. */
  function Kid(p: nat, role: Role, idx: nat): Role {
    match role
    case Root => Mid(p, idx)
    case Mid(r, x) => Low(r, x * NPTE + idx)
    case Low(r, b) => User(r, b * NPTE + idx)
    case _ => Free
  }

  function Entry(t: Tables, p: nat, i: nat): nat {
    if p in t && i < |t[p]| then t[p][i] else 0
  }

  /** The page that entry i of p points to, or 0. */
  function Next(t: Tables, p: nat, i: nat): nat {
    if PteV(Entry(t, p, i)) then Pa(Entry(t, p, i)) else 0
  }

  function LowPage(t: Tables, r: nat, b: nat): nat {
    Next(t, Next(t, r, b / NPTE), b % NPTE)
  }

  /** The last-level entry for virtual page v, 0 where there is no table for it. */
  function Pte(t: Tables, r: nat, v: nat): nat {
    Entry(t, LowPage(t, r, v / NPTE), v % NPTE)
  }

  // ---------------------------------------------------------------- the invariant

  ghost predicate PagesOk(t: Tables, o: Owners) {
    && (forall p :: p in o ==> p % PGSIZE == 0 && p > 0)
    && (forall p :: p in t <==> p in o && o[p].IsTable())
    && (forall p :: p in t ==> |t[p]| == NPTE)
  }

  /** What entry i of table p says agrees with the roles. */
  ghost predicate DownOk(t: Tables, o: Owners, p: nat, i: nat)
    requires PagesOk(t, o) && p in t && i < NPTE
  {
    if PteV(t[p][i]) then
      && (IsLeaf(t[p][i]) <==> o[p].Low?)
      && ((o[p].Low? && o[p].b * NPTE + i >= TRAPVPN) ||
          (Pa(t[p][i]) in o && o[Pa(t[p][i])] == Kid(p, o[p], i)))
    else t[p][i] == 0
  }

  /** A page with a role in a tree is where the tree says. */
  ghost predicate UpOk(t: Tables, o: Owners, p: nat)
    requires p in o
  {
    match o[p]
    case Mid(r, x) => r in o && o[r] == Root && x < NMID && Next(t, r, x) == p
    case Low(r, b) =>
      && b < NLOW && r in o && o[r] == Root && LowPage(t, r, b) == p
      && Next(t, r, b / NPTE) in o && o[Next(t, r, b / NPTE)] == Mid(r, b / NPTE)
    case User(r, v) =>
      && v < TRAPVPN && r in o && o[r] == Root && PteV(Pte(t, r, v)) && Pa(Pte(t, r, v)) == p
      && LowPage(t, r, v / NPTE) in o && o[LowPage(t, r, v / NPTE)] == Low(r, v / NPTE)
    case _ => true
  }

  /** The page tables are trees, and the roles say so. */
  ghost predicate Tree(t: Tables, o: Owners) {
    && PagesOk(t, o)
    && (forall p, i :: p in t && 0 <= i < NPTE ==> DownOk(t, o, p, i))
    && (forall p :: p in o ==> UpOk(t, o, p))
  }

  ghost predicate IsRoot(o: Owners, r: nat) { r in o && o[r] == Root }

  // Tree is a large predicate; the proofs below keep it folded and use these.

  lemma Pages(t: Tables, o: Owners)
    requires Tree(t, o)
    ensures PagesOk(t, o) && 0 !in o && 0 !in t
  {}

  lemma Down(t: Tables, o: Owners, p: nat, i: nat)
    requires Tree(t, o) && p in t && i < NPTE
    ensures PagesOk(t, o) && DownOk(t, o, p, i)
  {}

  lemma Up(t: Tables, o: Owners, p: nat)
    requires Tree(t, o) && p in o
    ensures UpOk(t, o, p)
  {}

  lemma TreeIntro(t: Tables, o: Owners)
    requires PagesOk(t, o)
    requires forall p, i :: p in t && 0 <= i < NPTE ==> DownOk(t, o, p, i)
    requires forall p :: p in o ==> UpOk(t, o, p)
    ensures Tree(t, o)
  {}

  // ---------------------------------------------------------------- walking down

  lemma RootIsTable(t: Tables, o: Owners, r: nat)
    requires Tree(t, o) && IsRoot(o, r)
    ensures r in t && |t[r]| == NPTE && 0 !in o && 0 !in t
  {}

  /** A missing upper table leaves the page unmapped. */
  lemma NoTable(t: Tables, o: Owners, r: nat, v: nat)
    requires Tree(t, o)
    requires Next(t, r, v / NPTE / NPTE) == 0 || LowPage(t, r, v / NPTE) == 0
    ensures Pte(t, r, v) == 0
  {}

  lemma TableAt(t: Tables, o: Owners, l: nat)
    requires Tree(t, o) && l in o && o[l].Low?
    ensures l in t && l != 0 && |t[l]| == NPTE && LowPage(t, o[l].root, o[l].b) == l && o[l].b < NLOW
  {
    hide Tree;
    Pages(t, o);
    Up(t, o, l);
  }

  /** What an entry of an upper table can be. */
  lemma UpperEntry(t: Tables, o: Owners, p: nat, i: nat)
    requires Tree(t, o) && p in t && p in o && (o[p].Root? || o[p].Mid?) && i < NPTE
    ensures |t[p]| == NPTE && 0 !in o
    ensures PteV(t[p][i]) ==>
              !IsLeaf(t[p][i]) && Pa(t[p][i]) in t && Pa(t[p][i]) in o && o[Pa(t[p][i])] == Kid(p, o[p], i)
  {
    hide Tree;
    Pages(t, o);
    Down(t, o, p, i);
  }

  /** The tables on the way to virtual page v have the roles of their positions. */
  lemma WalkRoles(t: Tables, o: Owners, r: nat, b: nat)
    requires Tree(t, o) && IsRoot(o, r) && b < NLOW
    ensures var m := Next(t, r, b / NPTE);
            && (m == 0 || (m in t && o[m] == Mid(r, b / NPTE)))
            && (LowPage(t, r, b) == 0 || (LowPage(t, r, b) in t && o[LowPage(t, r, b)] == Low(r, b)))
  {
    hide Tree;
    Pages(t, o);
    var m := Next(t, r, b / NPTE);
    Down(t, o, r, b / NPTE);
    if m != 0 {
      Down(t, o, m, b % NPTE);
    }
  }

  lemma UnmappedIsZero(t: Tables, o: Owners, r: nat, v: nat)
    requires Tree(t, o) && IsRoot(o, r) && v < MAXVPN && !PteV(Pte(t, r, v))
    ensures Pte(t, r, v) == 0
  {
    hide Tree;
    Pages(t, o);
    WalkRoles(t, o, r, v / NPTE);
    if LowPage(t, r, v / NPTE) != 0 {
      Down(t, o, LowPage(t, r, v / NPTE), v % NPTE);
    }
  }

  /** Distinct virtual pages have distinct slots: only position b of root r leads to its table. */
  lemma SlotUnique(t: Tables, o: Owners, l: nat, r: nat, b: nat)
    requires Tree(t, o) && l in o && o[l].Low? && IsRoot(o, r) && b < NLOW
    ensures LowPage(t, r, b) == l <==> o[l] == Low(r, b)
  {
    hide Tree;
    Pages(t, o);
    WalkRoles(t, o, r, b);
    Up(t, o, l);
  }

  // ---------------------------------------------------------------- changing a tree

  ghost predicate SamePtes(o: Owners, t: Tables, t': Tables) {
    forall r, v :: IsRoot(o, r) && 0 <= v < MAXVPN ==> Pte(t', r, v) == Pte(t, r, v)
  }

  /** Only the entry for virtual page w of root q differs, and it is e now. */
  ghost predicate OnePte(o: Owners, t: Tables, t': Tables, q: nat, w: nat, e: nat) {
    forall r, v :: IsRoot(o, r) && 0 <= v < MAXVPN ==> Pte(t', r, v) == if r == q && v == w then e else Pte(t, r, v)
  }

  /** Only free pages changed role, and they became tables of root q. */
  ghost predicate Grown(o: Owners, o': Owners, q: nat) {
    && o'.Keys == o.Keys
    && forall p :: p in o ==> o'[p] == o[p] || (o[p].Free? && (o'[p].Mid? || o'[p].Low?) && o'[p].root == q)
  }

  lemma IndexSplit(x: nat, i: nat)
    requires i < NPTE
    ensures (x * NPTE + i) / NPTE == x && (x * NPTE + i) % NPTE == i
  {}

  ghost predicate Zeroed(z: seq<nat>) {
    |z| == NPTE && forall k :: 0 <= k < NPTE ==> z[k] == 0
  }

  /** The tables after page c, zeroed, is linked as a lower table at entry i of p. */
  function Linked(t: Tables, p: nat, i: nat, c: nat, zero: seq<nat>): Tables
    requires p in t && i < |t[p]|
  {
    t[c := zero][p := t[p][i := MkPte(c, 0)]]
  }

  lemma LinkedNext(t: Tables, p: nat, i: nat, c: nat, zero: seq<nat>, q: nat, k: nat)
    requires p in t && i < |t[p]| && !PteV(t[p][i]) && c !in t && Zeroed(zero) && c % PGSIZE == 0 && c > 0
    ensures Next(Linked(t, p, i, c, zero), q, k) == if (q, k) == (p, i) then c else Next(t, q, k)
    ensures q != p ==> Entry(Linked(t, p, i, c, zero), q, k) == Entry(t, q, k)
  {
    PteRoundTrip(c, 0);
  }

  lemma LinkedPte(t: Tables, p: nat, i: nat, c: nat, zero: seq<nat>, r: nat, v: nat)
    requires p in t && i < |t[p]| && !PteV(t[p][i]) && c !in t && Zeroed(zero) && c % PGSIZE == 0 && c > 0
    requires 0 !in t && LowPage(t, r, v / NPTE) != p
    ensures LowPage(Linked(t, p, i, c, zero), r, v / NPTE) == LowPage(t, r, v / NPTE) ||
            (LowPage(t, r, v / NPTE) == 0 && LowPage(Linked(t, p, i, c, zero), r, v / NPTE) == c)
    ensures Pte(Linked(t, p, i, c, zero), r, v) == Pte(t, r, v)
  {
    var t', b := Linked(t, p, i, c, zero), v / NPTE;
    LinkedNext(t, p, i, c, zero, r, b / NPTE);
    LinkedNext(t, p, i, c, zero, Next(t', r, b / NPTE), b % NPTE);
    LinkedNext(t, p, i, c, zero, LowPage(t', r, b), v % NPTE);
  }

  lemma LinkedUp(t: Tables, o: Owners, p: nat, i: nat, c: nat, zero: seq<nat>, q: nat)
    requires Tree(t, o) && p in t && (o[p].Root? || o[p].Mid?) && i < (if o[p].Root? then NMID else NPTE) && !PteV(t[p][i])
    requires c in o && o[c].Held? && Zeroed(zero) && q in o && q != c
    ensures UpOk(Linked(t, p, i, c, zero), o[c := Kid(p, o[p], i)], q)
  {
    hide Tree;
    Pages(t, o);
    Up(t, o, q);
    match o[q]
    case Mid(r, x) => LinkedNext(t, p, i, c, zero, r, x);
    case Low(r, b) =>
      LinkedNext(t, p, i, c, zero, r, b / NPTE);
      LinkedNext(t, p, i, c, zero, Next(t, r, b / NPTE), b % NPTE);
    case User(r, v) =>
      WalkRoles(t, o, r, v / NPTE);
      LinkedPte(t, p, i, c, zero, r, v);
    case _ =>
  }

  lemma LinkedNew(t: Tables, o: Owners, p: nat, i: nat, c: nat, zero: seq<nat>)
    requires Tree(t, o) && p in t && (o[p].Root? || o[p].Mid?) && i < (if o[p].Root? then NMID else NPTE) && !PteV(t[p][i])
    requires c in o && o[c].Held? && Zeroed(zero)
    ensures UpOk(Linked(t, p, i, c, zero), o[c := Kid(p, o[p], i)], c)
  {
    hide Tree;
    Pages(t, o);
    Up(t, o, p);
    LinkedNext(t, p, i, c, zero, p, i);
    if o[p].Mid? {
      IndexSplit(o[p].x, i);
      LinkedNext(t, p, i, c, zero, o[p].root, o[p].x);
    }
  }

  /** Linking a zeroed page as a lower table keeps the trees sound and changes no mapping. */
  lemma AddTable(t: Tables, o: Owners, p: nat, i: nat, c: nat, zero: seq<nat>)
    requires Tree(t, o) && p in t && (o[p].Root? || o[p].Mid?) && i < (if o[p].Root? then NMID else NPTE) && !PteV(t[p][i])
    requires c in o && o[c].Held? && Zeroed(zero)
    ensures Tree(Linked(t, p, i, c, zero), o[c := Kid(p, o[p], i)])
    ensures Next(Linked(t, p, i, c, zero), p, i) == c
    ensures SamePtes(o, t, Linked(t, p, i, c, zero)) && c in Linked(t, p, i, c, zero)
  {
    hide Tree;
    Pages(t, o);
    var t', o' := Linked(t, p, i, c, zero), o[c := Kid(p, o[p], i)];
    PteRoundTrip(c, 0);
    assert PagesOk(t', o');
    forall q, k | q in t' && 0 <= k < NPTE ensures DownOk(t', o', q, k) {
      if q in t {
        Down(t, o, q, k);
      }
    }
    forall q | q in o' ensures UpOk(t', o', q) {
      if q == c {
        LinkedNew(t, o, p, i, c, zero);
      } else {
        LinkedUp(t, o, p, i, c, zero, q);
      }
    }
    forall r, v | IsRoot(o, r) && 0 <= v < MAXVPN ensures Pte(t', r, v) == Pte(t, r, v) {
      WalkRoles(t, o, r, v / NPTE);
      LinkedPte(t, p, i, c, zero, r, v);
    }
    TreeIntro(t', o');
  }

  /** The tables after the last-level entry k of table l is overwritten. */
  function Stored(t: Tables, l: nat, k: nat, e: nat): Tables
    requires l in t && k < |t[l]|
  {
    var row: seq<nat> := t[l][k := e];
    t[l := row]
  }

  /** Overwriting a last-level entry changes the mapping of exactly one virtual page of one root. */
  lemma StoredPte(t: Tables, o: Owners, l: nat, k: nat, e: nat, r: nat, v: nat)
    requires Tree(t, o) && l in t && o[l].Low? && k < NPTE && IsRoot(o, r) && v < MAXVPN
    ensures LowPage(Stored(t, l, k, e), r, v / NPTE) == LowPage(t, r, v / NPTE)
    ensures Pte(Stored(t, l, k, e), r, v) ==
            if o[l].root == r && v == o[l].b * NPTE + k then e else Pte(t, r, v)
  {
    hide Tree;
    Pages(t, o);
    var b := v / NPTE;
    WalkRoles(t, o, r, b);
    SlotUnique(t, o, l, r, b);
    IndexSplit(o[l].b, k);
  }

  /** o' gives every table page the role it has in o. */
  ghost predicate SameTables(o: Owners, o': Owners) {
    forall q :: q in o ==> q in o' && (o[q].IsTable() ==> o'[q] == o[q])
  }

  lemma StoredUp(t: Tables, o: Owners, l: nat, k: nat, e: nat, o': Owners, q: nat)
    requires Tree(t, o) && l in t && o[l].Low? && k < NPTE && q in o && SameTables(o, o') && o'[q] == o[q]
    requires o[q] != User(o[l].root, o[l].b * NPTE + k)
    ensures UpOk(Stored(t, l, k, e), o', q)
  {
    hide Tree;
    Pages(t, o);
    Up(t, o, q);
    match o[q]
    case User(r, v) => StoredPte(t, o, l, k, e, r, v);
    case _ =>
  }

  lemma StoreOne(t: Tables, o: Owners, l: nat, k: nat, e: nat)
    requires Tree(t, o) && l in t && o[l].Low? && k < NPTE
    ensures OnePte(o, t, Stored(t, l, k, e), o[l].root, o[l].b * NPTE + k, e)
  {
    hide Tree;
    Pages(t, o);
    forall r, v | IsRoot(o, r) && 0 <= v < MAXVPN
      ensures Pte(Stored(t, l, k, e), r, v) == if r == o[l].root && v == o[l].b * NPTE + k then e else Pte(t, r, v)
    {
      StoredPte(t, o, l, k, e, r, v);
    }
  }

  lemma StoredDown(t: Tables, o: Owners, l: nat, k: nat, e: nat, o': Owners)
    requires Tree(t, o) && l in t && o[l].Low? && k < NPTE && PagesOk(Stored(t, l, k, e), o')
    requires forall q :: q in o ==> q in o' && (o'[q] == o[q] || o[q].Held? || o[q] == User(o[l].root, o[l].b * NPTE + k))
    requires DownOk(Stored(t, l, k, e), o', l, k)
    ensures forall q, j :: q in t && 0 <= j < NPTE ==> DownOk(Stored(t, l, k, e), o', q, j)
  {
    hide Tree;
    Pages(t, o);
    forall q, j | q in t && 0 <= j < NPTE ensures DownOk(Stored(t, l, k, e), o', q, j) {
      Down(t, o, q, j);
      if PteV(t[q][j]) && (q, j) != (l, k) {
        var c := Pa(t[q][j]);
        if o[q].Low? && c in o && o[c] == User(o[l].root, o[l].b * NPTE + k) && o[c] == Kid(q, o[q], j) {
          IndexSplit(o[l].b, k);
          IndexSplit(o[q].b, j);
          Up(t, o, q); Up(t, o, l);
        }
      }
    }
  }

  lemma MapPageUp(t: Tables, o: Owners, l: nat, k: nat, pa: nat, perm: nat, q: nat)
    requires Tree(t, o) && l in t && o[l].Low? && k < NPTE && !PteV(t[l][k])
    requires o[l].b * NPTE + k < TRAPVPN && pa in o && o[pa].Held? && perm < 1024 && q in o
    ensures UpOk(Stored(t, l, k, MkPte(pa, perm)), o[pa := User(o[l].root, o[l].b * NPTE + k)], q)
  {
    hide Tree;
    Pages(t, o);
    var v, e := o[l].b * NPTE + k, MkPte(pa, perm);
    TableAt(t, o, l);
    IndexSplit(o[l].b, k);
    Up(t, o, l); Up(t, o, q);
    if q == pa {
      PteRoundTrip(pa, perm);
      StoredPte(t, o, l, k, e, o[l].root, v);
    } else {
      StoredUp(t, o, l, k, e, o[pa := User(o[l].root, v)], q);
    }
  }

  /** Mapping page pa at a free slot. */
  lemma MapPage(t: Tables, o: Owners, l: nat, k: nat, pa: nat, perm: nat)
    requires Tree(t, o) && l in t && o[l].Low? && k < NPTE && !PteV(t[l][k])
    requires o[l].b * NPTE + k < TRAPVPN && pa in o && o[pa].Held? && perm < 1024 && IsLeaf(perm)
    ensures Tree(Stored(t, l, k, MkPte(pa, perm)), o[pa := User(o[l].root, o[l].b * NPTE + k)])
  {
    hide Tree, UpOk, MkPte;
    Pages(t, o);
    var v, e := o[l].b * NPTE + k, MkPte(pa, perm);
    var t', o' := Stored(t, l, k, e), o[pa := User(o[l].root, v)];
    PteRoundTrip(pa, perm);
    StoredDown(t, o, l, k, e, o');
    forall q | q in o' ensures UpOk(t', o', q) {
      MapPageUp(t, o, l, k, pa, perm, q);
    }
    TreeIntro(t', o');
  }

  /** A page mapped at v of root q is the one its entry says. */
  lemma MappedOnce(t: Tables, o: Owners, p: nat)
    requires Tree(t, o) && p in o && o[p].User?
    ensures PteV(Pte(t, o[p].root, o[p].v)) && p == Pa(Pte(t, o[p].root, o[p].v)) && o[p].v < TRAPVPN
  {
    hide Tree;
    Pages(t, o);
    Up(t, o, p);
  }

  lemma SlotPte(t: Tables, o: Owners, l: nat, k: nat)
    requires Tree(t, o) && l in t && o[l].Low? && k < NPTE
    ensures |t[l]| == NPTE && t[l][k] == Pte(t, o[l].root, o[l].b * NPTE + k)
  {
    hide Tree;
    Pages(t, o);
    TableAt(t, o, l);
    IndexSplit(o[l].b, k);
  }

  /** Clearing a slot; the page it mapped gets role `to`. */
  lemma UnmapPage(t: Tables, o: Owners, l: nat, k: nat, to: Role)
    requires Tree(t, o) && l in t && o[l].Low? && k < NPTE && PteV(t[l][k])
    requires o[l].b * NPTE + k < TRAPVPN && (to.Free? || to.Held?)
    ensures Pa(t[l][k]) in o && o[Pa(t[l][k])] == User(o[l].root, o[l].b * NPTE + k)
    ensures Tree(Stored(t, l, k, 0), o[Pa(t[l][k]) := to])
  {
    hide Tree, UpOk;
    Pages(t, o);
    var v, pa := o[l].b * NPTE + k, Pa(t[l][k]);
    Down(t, o, l, k);
    var t', o' := Stored(t, l, k, 0), o[pa := to];
    StoredDown(t, o, l, k, 0, o');
    SlotPte(t, o, l, k);
    forall q | q in o' ensures UpOk(t', o', q) {
      if q == pa {
        Idle(t', o', q);
      } else {
        if o[q].User? { MappedOnce(t, o, q); }
        StoredUp(t, o, l, k, 0, o', q);
      }
    }
    TreeIntro(t', o');
  }

  lemma Idle(t: Tables, o: Owners, p: nat)
    requires p in o && (o[p].Free? || o[p].Held?)
    ensures UpOk(t, o, p)
  {}

  /** Setting or clearing one of the two slots at the top, whose pages no table owns. */
  lemma MapSpecial(t: Tables, o: Owners, l: nat, k: nat, e: nat)
    requires Tree(t, o) && l in t && o[l].Low? && k < NPTE && (if PteV(e) then IsLeaf(e) else e == 0)
    requires o[l].b * NPTE + k >= TRAPVPN
    ensures Tree(Stored(t, l, k, e), o)
  {
    hide Tree;
    Pages(t, o);
    var t' := Stored(t, l, k, e);
    StoredDown(t, o, l, k, e, o);
    forall q | q in o ensures UpOk(t', o, q) {
      Up(t, o, q);
      StoredUp(t, o, l, k, e, o, q);
    }
    TreeIntro(Stored(t, l, k, e), o);
  }

  lemma ZeroRow(t: Tables, r: nat, zero: seq<nat>, p: nat, v: nat)
    requires r !in t && Zeroed(zero)
    ensures Entry(t[r := zero], p, v) == Entry(t, p, v) && Next(t[r := zero], p, v) == Next(t, p, v)
    ensures LowPage(t[r := zero], p, v) == LowPage(t, p, v) && Pte(t[r := zero], p, v) == Pte(t, p, v)
  {
    assert forall q, i :: Entry(t[r := zero], q, i) == Entry(t, q, i);
  }

  lemma NewRoot(t: Tables, o: Owners, r: nat, zero: seq<nat>)
    requires Tree(t, o) && r in o && o[r].Held? && Zeroed(zero)
    ensures Tree(t[r := zero], o[r := Root])
  {
    hide Tree;
    Pages(t, o);
    var t', o' := t[r := zero], o[r := Root];
    forall p, i | p in t' && 0 <= i < NPTE ensures DownOk(t', o', p, i) {
      if p != r { Down(t, o, p, i); }
    }
    forall p | p in o' ensures UpOk(t', o', p) {
      Up(t, o, p);
      match o[p]
      case Mid(q, x) => ZeroRow(t, r, zero, q, x);
      case Low(q, b) => ZeroRow(t, r, zero, q, b / NPTE); ZeroRow(t, r, zero, q, b);
      case User(q, v) => ZeroRow(t, r, zero, q, v / NPTE); ZeroRow(t, r, zero, q, v);
      case _ =>
    }
    TreeIntro(t', o');
  }

  /** A page in no tree may be handed out or taken back. */
  lemma FlipIdle(t: Tables, o: Owners, p: nat, to: Role)
    requires Tree(t, o) && p in o && (o[p].Free? || o[p].Held?) && (to.Free? || to.Held?)
    ensures Tree(t, o[p := to])
  {
    hide Tree;
    Pages(t, o);
    var o' := o[p := to];
    assert PagesOk(t, o');
    forall q, i | q in t && 0 <= i < NPTE ensures DownOk(t, o', q, i) {
      Down(t, o, q, i);
    }
    forall q | q in o' ensures UpOk(t, o', q) {
      Up(t, o, q);
    }
    TreeIntro(t, o[p := to]);
  }

  // ---------------------------------------------------------------- taking a tree down

  /** q is c or a table below c. */
  predicate Below(o: Owners, c: nat, q: nat)
    requires c in o && q in o
  {
    || q == c
    || (o[c].Root? && ((o[q].Mid? || o[q].Low?) && o[q].root == c))
    || (o[c].Mid? && o[q].Low? && o[q].root == o[c].root && o[q].b / NPTE == o[c].x)
  }

  function Subtree(o: Owners, c: nat): set<nat>
    requires c in o
  {
    set q | q in o && Below(o, c, q)
  }

  /** Owners after a set of pages has gone back to the free list. */
  function Freed(o: Owners, s: set<nat>): Owners {
    map q | q in o :: if q in s then Free else o[q]
  }

  /** Tables after the pages in s are gone and entry i of p is cleared. */
  function Cut(t: Tables, s: set<nat>, p: nat, i: nat): Tables
    requires p in t && i < |t[p]|
  {
    Stored(t, p, i, 0) - s
  }

  ghost predicate NoLeaf(t: Tables, o: Owners, r: nat) {
    forall l, k :: l in t && l in o && o[l].Low? && o[l].root == r && 0 <= k < |t[l]| ==> !PteV(t[l][k])
  }

  function RootOf(p: nat, role: Role): nat {
    if role.Mid? || role.Low? || role.User? then role.root else p
  }

  /** No other entry leads into the subtree of the page at entry i of p. */
  lemma SubtreeClosed(t: Tables, o: Owners, p: nat, i: nat, c: nat, q: nat, k: nat)
    requires Tree(t, o) && p in t && (o[p].Root? || o[p].Mid?) && i < NPTE && PteV(t[p][i]) && c == Pa(t[p][i])
    requires q in t && k < NPTE && PteV(t[q][k]) && Pa(t[q][k]) in o && o[Pa(t[q][k])] == Kid(q, o[q], k)
    ensures c in o && c != 0 && o[c] == Kid(p, o[p], i) && p !in Subtree(o, c)
    ensures q !in Subtree(o, c) && Pa(t[q][k]) in Subtree(o, c) ==> (q, k) == (p, i)
  {
    hide Tree;
    Pages(t, o);
    Down(t, o, p, i);
    Up(t, o, p); Up(t, o, q); Up(t, o, c);
    if o[p].Mid? { IndexSplit(o[p].x, i); }
    if o[q].Mid? { IndexSplit(o[q].x, k); }
  }

  lemma CutNext(t: Tables, s: set<nat>, p: nat, i: nat, q: nat, k: nat)
    requires p in t && i < |t[p]|
    ensures Next(Cut(t, s, p, i), q, k) == if q in s || (q, k) == (p, i) then 0 else Next(t, q, k)
    ensures q !in s && (q, k) != (p, i) ==> Entry(Cut(t, s, p, i), q, k) == Entry(t, q, k)
  {}

  lemma CutUp(t: Tables, o: Owners, p: nat, i: nat, c: nat, q: nat)
    requires Tree(t, o) && p in t && (o[p].Root? || o[p].Mid?) && i < NPTE && PteV(t[p][i]) && c == Pa(t[p][i])
    requires c in o && NoLeaf(t, o, RootOf(p, o[p])) && q in o && q !in Subtree(o, c)
    ensures UpOk(Cut(t, Subtree(o, c), p, i), Freed(o, Subtree(o, c)), q)
  {
    hide Tree;
    Pages(t, o);
    var s := Subtree(o, c);
    Down(t, o, p, i); Up(t, o, p); Up(t, o, q); Up(t, o, c);
    if o[p].Mid? { IndexSplit(o[p].x, i); }
    match o[q]
    case Mid(r, x) => CutNext(t, s, p, i, r, x);
    case Low(r, b) =>
      CutNext(t, s, p, i, r, b / NPTE);
      CutNext(t, s, p, i, Next(t, r, b / NPTE), b % NPTE);
    case User(r, v) =>
      var b := v / NPTE;
      WalkRoles(t, o, r, b);
      assert r != RootOf(p, o[p]);
      CutNext(t, s, p, i, r, b / NPTE);
      CutNext(t, s, p, i, Next(t, r, b / NPTE), b % NPTE);
      CutNext(t, s, p, i, LowPage(t, r, b), v % NPTE);
    case _ =>
  }

  /** Freeing the subtree at entry i of p and clearing the entry keeps the trees sound. */
  lemma CutTree(t: Tables, o: Owners, p: nat, i: nat, c: nat)
    requires Tree(t, o) && p in t && (o[p].Root? || o[p].Mid?) && i < NPTE && PteV(t[p][i]) && c == Pa(t[p][i])
    requires NoLeaf(t, o, RootOf(p, o[p]))
    ensures c in o && p !in Subtree(o, c)
    ensures Tree(Cut(t, Subtree(o, c), p, i), Freed(o, Subtree(o, c)))
  {
    hide Tree;
    Pages(t, o);
    Down(t, o, p, i);
    SubtreeClosed(t, o, p, i, c, p, i);
    var s := Subtree(o, c);
    var t', o' := Cut(t, s, p, i), Freed(o, s);
    Up(t, o, c);
    assert PagesOk(t', o');
    forall q, k | q in t' && 0 <= k < NPTE ensures DownOk(t', o', q, k) {
      Down(t, o, q, k);
      if PteV(t'[q][k]) && Pa(t[q][k]) in o && o[Pa(t[q][k])] == Kid(q, o[q], k) {
        SubtreeClosed(t, o, p, i, c, q, k);
      }
    }
    forall q | q in o' ensures UpOk(t', o', q) {
      if q in s {
        assert o'[q].Free?;
      } else {
        CutUp(t, o, p, i, c, q);
      }
    }
    TreeIntro(t', o');
  }

  /** The entry of a table at which a page below it hangs. */
  function SlotIn(table: Role, page: Role): nat {
    if table.Root? then (if page.Mid? then page.x else if page.Low? then page.b / NPTE else 0)
    else if page.Low? then page.b % NPTE else 0
  }

  /** q hangs below p, at entry i. */
  predicate HangsAt(o: Owners, p: nat, q: nat, i: nat)
    requires p in o && q in o
  {
    q != p && Below(o, p, q) && SlotIn(o[p], o[q]) == i
  }

  lemma HangsBelow(t: Tables, o: Owners, p: nat, q: nat)
    requires Tree(t, o) && p in t && q in o && q != p && Below(o, p, q)
    ensures q in t && SlotIn(o[p], o[q]) < NPTE && PteV(t[p][SlotIn(o[p], o[q])])
  {
    hide Tree;
    Pages(t, o);
    Up(t, o, q); Up(t, o, p);
    if o[p].Mid? { IndexSplit(o[p].x, o[q].b % NPTE); }
  }

  /** The subtree at entry i of p is what hangs there. */
  lemma SubtreeAt(t: Tables, o: Owners, p: nat, i: nat, q: nat)
    requires Tree(t, o) && p in t && (o[p].Root? || o[p].Mid?) && i < NPTE && PteV(t[p][i]) && q in o
    ensures Pa(t[p][i]) in o && o[Pa(t[p][i])] == Kid(p, o[p], i)
    ensures Below(o, Pa(t[p][i]), q) <==> HangsAt(o, p, q, i)
  {
    hide Tree;
    Pages(t, o);
    Down(t, o, p, i);
    var c := Pa(t[p][i]);
    Up(t, o, q); Up(t, o, p); Up(t, o, c);
    if o[p].Mid? { IndexSplit(o[p].x, i); }
  }

  /** p is root q, one of its tables, or a page it maps. */
  predicate Rooted(p: nat, role: Role, q: nat) {
    p == q || ((role.Mid? || role.Low? || role.User?) && role.root == q)
  }

  lemma NoLeafNoPage(t: Tables, o: Owners, r: nat, q: nat)
    requires Tree(t, o) && NoLeaf(t, o, r) && q in o
    ensures !(o[q].User? && o[q].root == r)
  {
    hide Tree;
    Pages(t, o);
    Up(t, o, q);
  }

  lemma DropNext(t: Tables, s: set<nat>, q: nat, k: nat)
    ensures q !in s ==> Entry(t - s, q, k) == Entry(t, q, k) && Next(t - s, q, k) == Next(t, q, k)
  {}

  /** The other trees do not go through the tables of r. */
  lemma DropPte(t: Tables, o: Owners, r: nat, q: nat, v: nat)
    requires Tree(t, o) && IsRoot(o, r) && IsRoot(o, q) && q != r && v < MAXVPN
    ensures LowPage(t - Subtree(o, r), q, v / NPTE) == LowPage(t, q, v / NPTE)
    ensures Pte(t - Subtree(o, r), q, v) == Pte(t, q, v)
  {
    hide Tree;
    Pages(t, o);
    var s, b := Subtree(o, r), v / NPTE;
    WalkRoles(t, o, q, b);
    RootIsTable(t, o, q);
    assert 0 !in o;
    DropNext(t, s, q, b / NPTE);
    DropNext(t, s, Next(t, q, b / NPTE), b % NPTE);
    DropNext(t, s, LowPage(t, q, b), v % NPTE);
  }

  lemma DropUp(t: Tables, o: Owners, r: nat, q: nat)
    requires Tree(t, o) && IsRoot(o, r) && NoLeaf(t, o, r) && q in o && q !in Subtree(o, r)
    ensures UpOk(t - Subtree(o, r), Freed(o, Subtree(o, r)), q)
  {
    hide Tree;
    Pages(t, o);
    Up(t, o, q);
    NoLeafNoPage(t, o, r, q);
    match o[q]
    case Mid(w, x) => DropNext(t, Subtree(o, r), w, x);
    case Low(w, b) =>
      DropNext(t, Subtree(o, r), w, b / NPTE);
      DropNext(t, Subtree(o, r), Next(t, w, b / NPTE), b % NPTE);
    case User(w, v) => DropPte(t, o, r, w, v);
    case _ =>
  }

  /** Freeing a root and all its tables leaves the other trees sound. */
  lemma DropTree(t: Tables, o: Owners, r: nat)
    requires Tree(t, o) && IsRoot(o, r) && NoLeaf(t, o, r)
    ensures Tree(t - Subtree(o, r), Freed(o, Subtree(o, r)))
  {
    hide Tree;
    Pages(t, o);
    var s := Subtree(o, r);
    var t', o' := t - s, Freed(o, s);
    assert PagesOk(t', o');
    forall q, k | q in t' && 0 <= k < NPTE ensures DownOk(t', o', q, k) {
      Down(t, o, q, k); Up(t, o, q);
    }
    forall q | q in o' ensures UpOk(t', o', q) {
      if q in s {
        assert o'[q].Free?;
      } else {
        DropUp(t, o, r, q);
      }
    }
    TreeIntro(t', o');
  }
}
