/** What every step of the log keeps, and what that gives over every run with crashes. */
module LogSafety {
  import opened LogProtocol

  // ---------------------------------------------------------------- one step

  lemma HeadFrame(d: Disk, e: Disk, start: nat)
    requires WfHead(d, start) && |e| == |d| && e[start] == d[start]
    ensures WfHead(e, start) && Head(e, start) == Head(d, start)
  {}

  lemma HeadWrite(d: Disk, start: nat, lh: seq<nat>)
    requires start + LOGBLOCKS < |d| && WfList(start, |d|, lh)
    ensures var e := d[start := HeadBlock(d[start], lh)];
            WfHead(e, start) && Head(e, start) == lh
  {}

  lemma EmptyHeadRecovers(d: Disk, start: nat)
    requires WfHead(d, start) && Head(d, start) == []
    ensures EqHome(start, Recover(d, start), d)
  {}

  /** A block write of install_trans does not change what the disk recovers to. */
  lemma InstallKeepsRecovery(d: Disk, start: nat, t: nat)
    requires WfHead(d, start) && t < |Head(d, start)|
    ensures var e := InstallOne(d, start, Head(d, start), t);
            WfHead(e, start) && Head(e, start) == Head(d, start) && EqHome(start, Recover(e, start), Recover(d, start))
  {
    var lh := Head(d, start);
    var e := InstallOne(d, start, lh, t);
    HeadFrame(d, e, start);
    forall b | IsHome(start, |d|, b) ensures Recover(e, start)[b] == Recover(d, start)[b] {
      RecoverAt(d, start, b);
      RecoverAt(e, start, b);
      if b in lh {
        var i :| 0 <= i < |lh| && lh[i] == b;
      }
    }
  }

  /** Erasing the header once every listed block is at home. */
  lemma EraseHead(d: Disk, start: nat)
    requires WfHead(d, start)
    requires forall i :: 0 <= i < |Head(d, start)| ==> d[Head(d, start)[i]] == d[start + 1 + i]
    ensures var e := d[start := HeadBlock(d[start], [])];
            WfHead(e, start) && Head(e, start) == [] && EqHome(start, Recover(e, start), Recover(d, start))
            && EqHome(start, Recover(d, start), d)
  {
    var e := d[start := HeadBlock(d[start], [])];
    HeadWrite(d, start, []);
    EmptyHeadRecovers(e, start);
    forall b | IsHome(start, |d|, b) ensures Recover(d, start)[b] == d[b] {
      RecoverAt(d, start, b);
      var lh := Head(d, start);
      if b in lh {
        var i :| 0 <= i < |lh| && lh[i] == b;
      }
    }
  }

  lemma BeginInv(s: State, op: nat)
    requires Inv(s) && Enabled(s, Begin(op)) && op !in s.book.used
    ensures Inv(Do(s, Begin(op)))
  {
    var s' := Do(s, Begin(op));
    UnspentRemove(s'.book.used, op);
    assert s'.book.used - {op} == s.book.used;
    UnspentBound(s.book.used);
  }

  lemma {:induction false} UnspentBound(used: map<nat, nat>)
    requires forall op :: op in used ==> used[op] <= MAXOPBLOCKS
    ensures 0 <= Unspent(used) <= |used| * MAXOPBLOCKS
    decreases |used|
  {
    if used != map[] {
      var op :| op in used;
      UnspentRemove(used, op);
      UnspentBound(used - {op});
      assert (used - {op}).Keys == used.Keys - {op};
    }
  }

  lemma AppendHome(start: nat, size: nat, lh: seq<nat>, b: nat)
    requires WfList(start, size, lh) && |lh| < LOGBLOCKS && IsHome(start, size, b) && b !in lh
    ensures WfList(start, size, lh + [b])
  {}

  /** A log_write changes the buffered view of one block and adds it to the header. */
  lemma WriteView(start: nat, d: Disk, cache: map<nat, Block>, lh: seq<nat>, lh': seq<nat>, e: Disk, us: seq<Update>, u: Update)
    requires IsHome(start, |d|, u.blk) && |e| == |d| && lh' == if u.blk in lh then lh else lh + [u.blk]
    requires forall i :: 0 <= i < |us| ==> us[i].blk < |d|
    requires Clean(start, d, cache, lh) && ViewIs(start, d, cache, Apply(e, us))
    ensures Clean(start, d, cache[u.blk := u.data], lh')
    ensures ViewIs(start, d, cache[u.blk := u.data], Apply(e, us + [u]))
  {}

  lemma WriteInv(s: State, op: nat, b: nat, data: Block)
    requires Inv(s) && Enabled(s, LogWrite(op, b, data))
    ensures Inv(Do(s, LogWrite(op, b, data)))
  {
    hide Clean, ViewIs, Logged, AtHome, EqHome, WfList, Head, WfHead, Recover, Apply;
    var used := Do(s, LogWrite(op, b, data)).book.used;
    var lh' := if b in s.lh then s.lh else s.lh + [b];
    WriteView(s.start, s.disk, s.cache, s.lh, lh', Committed(s), s.book.pending, Update(op, b, data));
    if b !in s.lh {
      AppendHome(s.start, |s.disk|, s.lh, b);
      UnspentRemove(s.book.used, op);
      UnspentRemove(used, op);
      assert s.book.used - {op} == used - {op};
    }
  }

  lemma EndInv(s: State, op: nat)
    requires Inv(s) && Enabled(s, End(op)) && !Commits(s, End(op))
    ensures Inv(Do(s, End(op)))
  {
    UnspentRemove(s.book.used, op);
    assert (s.book.used - {op}).Keys == s.book.used.Keys - {op};
    if |s.book.used| != 1 {
      assert |(s.book.used - {op}).Keys| != 0;
    } else {
      assert s.book.used - {op} == map[];
    }
  }

  lemma CommitHist(b: Book)
    ensures Flatten(CommitBook(b).hist) == Flatten(b.hist) + b.pending
  {}

  lemma LastOne(used: map<nat, nat>, op: nat)
    requires op in used && |used| == 1
    ensures used - {op} == map[]
  {
    assert |used.Keys - {op}| == 0;
  }

  /** The last operation of a group that wrote nothing. */
  lemma EndEmptyInv(s: State, op: nat)
    requires Inv(s) && Enabled(s, End(op)) && Commits(s, End(op))
    ensures Inv(Do(s, End(op)))
  {
    hide Clean, ViewIs, EqHome, WfList, Head, WfHead, Recover;
    LastOne(s.book.used, op);
    assert s.book.pending == [];
  }

  lemma WriteLogBlock(start: nat, d: Disk, cache: map<nat, Block>, lh: seq<nat>, t: nat, e: Disk, c: Disk)
    requires WfHead(d, start) && WfList(start, |d|, lh) && t < |lh| && |e| == |d| && Head(d, start) == []
    requires Clean(start, d, cache, lh) && ViewIs(start, d, cache, e) && Logged(start, d, cache, lh, t)
    requires EqHome(start, Recover(d, start), c)
    ensures var d' := d[start + 1 + t := View(d, cache, lh[t])];
            && WfHead(d', start) && Head(d', start) == [] && EqHome(start, Recover(d', start), c)
            && Clean(start, d', cache, lh) && ViewIs(start, d', cache, e) && Logged(start, d', cache, lh, t + 1)
  {}

  lemma WriteLogInv(s: State)
    requires Inv(s) && s.pc.WriteLog? && s.pc.tail < |s.lh|
    ensures Inv(Do(s, CommitStep))
  {
    hide Clean, ViewIs, Logged, AtHome, EqHome, Head, WfHead, Recover, Apply;
    WriteLogBlock(s.start, s.disk, s.cache, s.lh, s.pc.tail, Apply(Committed(s), s.book.pending), Committed(s));
  }

  /** Once the log holds the group, writing the header makes the disk recover to the buffered view. */
  lemma CommitPoint(start: nat, d: Disk, cache: map<nat, Block>, lh: seq<nat>, e: Disk)
    requires WfHead(d, start) && WfList(start, |d|, lh) && Clean(start, d, cache, lh)
    requires ViewIs(start, d, cache, e) && Logged(start, d, cache, lh, |lh|)
    ensures var d' := d[start := HeadBlock(d[start], lh)];
            && WfHead(d', start) && Head(d', start) == lh && EqHome(start, Recover(d', start), e)
            && Clean(start, d', cache, lh) && ViewIs(start, d', cache, e) && Logged(start, d', cache, lh, |lh|)
            && AtHome(start, d', lh, 0)
  {
    var d' := d[start := HeadBlock(d[start], lh)];
    HeadWrite(d, start, lh);
    forall b | IsHome(start, |d|, b) ensures Recover(d', start)[b] == e[b] {
      RecoverAt(d', start, b);
      if b in lh {
        var i :| 0 <= i < |lh| && lh[i] == b;
      }
    }
  }

  lemma CommitPointInv(s: State)
    requires Inv(s) && s.pc.WriteLog? && s.pc.tail == |s.lh|
    ensures Inv(Do(s, CommitStep))
  {
    hide Clean, ViewIs, Logged, AtHome, EqHome, WfList, Head, WfHead, Recover, Apply, Flatten;
    CommitHist(s.book);
    ApplyAppend(s.origin, Flatten(s.book.hist), s.book.pending);
    CommitPoint(s.start, s.disk, s.cache, s.lh, Apply(Committed(s), s.book.pending));
  }

  lemma InstallBlock(start: nat, d: Disk, cache: map<nat, Block>, lh: seq<nat>, t: nat, e: Disk)
    requires WfHead(d, start) && WfList(start, |d|, lh) && Head(d, start) == lh && t < |lh|
    requires Clean(start, d, cache, lh) && ViewIs(start, d, cache, e)
    requires Logged(start, d, cache, lh, |lh|) && AtHome(start, d, lh, t) && EqHome(start, Recover(d, start), e)
    ensures var d' := InstallOne(d, start, lh, t);
            && WfHead(d', start) && Head(d', start) == lh && EqHome(start, Recover(d', start), e)
            && Clean(start, d', cache, lh) && ViewIs(start, d', cache, e)
            && Logged(start, d', cache, lh, |lh|) && AtHome(start, d', lh, t + 1)
  {
    InstallKeepsRecovery(d, start, t);
  }

  lemma InstallInv(s: State)
    requires Inv(s) && s.pc.Install? && s.pc.tail < |s.lh|
    ensures Inv(Do(s, CommitStep))
  {
    hide Clean, ViewIs, Logged, AtHome, EqHome, WfList, Head, WfHead, Recover, Apply;
    InstallBlock(s.start, s.disk, s.cache, s.lh, s.pc.tail, Committed(s));
  }

  lemma Installed(start: nat, d: Disk, cache: map<nat, Block>, lh: seq<nat>, e: Disk)
    requires WfHead(d, start) && WfList(start, |d|, lh) && Head(d, start) == lh
    requires Clean(start, d, cache, lh) && ViewIs(start, d, cache, e)
    requires Logged(start, d, cache, lh, |lh|) && AtHome(start, d, lh, |lh|) && EqHome(start, Recover(d, start), e)
    ensures var d' := d[start := HeadBlock(d[start], [])];
            && WfHead(d', start) && Head(d', start) == [] && EqHome(start, Recover(d', start), e)
            && Clean(start, d', cache, []) && ViewIs(start, d', cache, e) && WfList(start, |d|, [])
  {}

  lemma EraseInv(s: State)
    requires Inv(s) && s.pc.Install? && s.pc.tail == |s.lh|
    ensures Inv(Do(s, CommitStep))
  {
    hide Clean, ViewIs, Logged, AtHome, EqHome, WfList, Head, WfHead, Recover, Apply;
    Installed(s.start, s.disk, s.cache, s.lh, Committed(s));
  }

  lemma RecoverBlock(start: nat, d: Disk, lh: seq<nat>, t: nat, e: Disk)
    requires WfHead(d, start) && WfList(start, |d|, lh) && lh == Head(d, start) && t < |lh| && AtHome(start, d, lh, t)
    requires EqHome(start, Recover(d, start), e)
    ensures var d' := InstallOne(d, start, lh, t);
            && WfHead(d', start) && Head(d', start) == lh && EqHome(start, Recover(d', start), e)
            && AtHome(start, d', lh, t + 1)
  {
    InstallKeepsRecovery(d, start, t);
  }

  lemma ReadHeadInv(s: State)
    requires Inv(s) && s.pc.Crashed?
    ensures Inv(Do(s, RecoverStep))
  {}

  lemma RecInstallInv(s: State)
    requires Inv(s) && s.pc.RecInstall? && s.pc.tail < |s.lh|
    ensures Inv(Do(s, RecoverStep))
  {
    hide Clean, ViewIs, Logged, AtHome, EqHome, WfList, Head, WfHead, Recover, Apply;
    RecoverBlock(s.start, s.disk, s.lh, s.pc.tail, Committed(s));
  }

  lemma RecDoneInv(s: State)
    requires Inv(s) && s.pc.RecInstall? && s.pc.tail == |s.lh|
    ensures Inv(Do(s, RecoverStep))
  {
    var d' := Do(s, RecoverStep).disk;
    EraseHead(s.disk, s.start);
    EmptyHeadRecovers(d', s.start);
    assert ViewIs(s.start, d', map[], Committed(s));
  }

  lemma FinishInv(s: State)
    requires Inv(s) && s.pc.Finish?
    ensures Inv(Do(s, CommitStep))
  {}

  lemma EvictView(start: nat, d: Disk, cache: map<nat, Block>, lh: seq<nat>, b: nat, e: Disk)
    requires start + LOGBLOCKS < |d| && WfList(start, |d|, lh) && b !in lh
    requires Clean(start, d, cache, lh) && ViewIs(start, d, cache, e)
    ensures Clean(start, d, cache - {b}, lh) && ViewIs(start, d, cache - {b}, e)
    ensures forall t | Logged(start, d, cache, lh, t) :: Logged(start, d, cache - {b}, lh, t)
  {}

  lemma EvictInv(s: State, b: nat)
    requires Inv(s) && b !in s.lh
    ensures Inv(Do(s, Evict(b)))
  {
    hide Clean, ViewIs, Logged, AtHome, EqHome, WfList, Head, WfHead, Recover, Apply;
    if s.pc.Running? || s.pc.WriteLog? {
      EvictView(s.start, s.disk, s.cache, s.lh, b, Apply(Committed(s), s.book.pending));
    } else if s.pc.Install? || s.pc.Finish? {
      EvictView(s.start, s.disk, s.cache, s.lh, b, Committed(s));
    } else {
      assert s.cache - {b} == s.cache;
    }
  }

  lemma CrashInv(s: State)
    requires Inv(s)
    ensures Inv(Do(s, Crash))
  {}

  lemma StepInv(s: State, e: Step)
    requires Inv(s) && Enabled(s, e) && s.book.used.Keys <= s.book.seen
    ensures Inv(Do(s, e))
  {
    match e
    case Begin(op) => BeginInv(s, op);
    case LogWrite(op, b, data) => WriteInv(s, op, b, data);
    case End(op) => if Commits(s, e) { EndEmptyInv(s, op); } else { EndInv(s, op); }
    case CommitStep =>
      if s.pc.WriteLog? && s.pc.tail < |s.lh| { WriteLogInv(s); }
      else if s.pc.WriteLog? { CommitPointInv(s); }
      else if s.pc.Install? && s.pc.tail < |s.lh| { InstallInv(s); }
      else if s.pc.Install? { EraseInv(s); }
      else { FinishInv(s); }
    case RecoverStep =>
      if s.pc.Crashed? { ReadHeadInv(s); }
      else if s.pc.tail < |s.lh| { RecInstallInv(s); }
      else { RecDoneInv(s); }
    case Evict(b) => EvictInv(s, b);
    case Crash => CrashInv(s);
  }

  // ---------------------------------------------------------------- every run

  lemma {:induction false} RunInv(s: State, es: seq<Step>)
    requires Legal(s, es)
    ensures Inv(Exec(s, es)) && Exec(s, es).book.used.Keys <= Exec(s, es).book.seen
  {
    if es == [] {
      EmptyHeadRecovers(s.disk, s.start);
    } else {
      var pre, e := es[..|es| - 1], es[|es| - 1];
      RunInv(s, pre);
      StepInv(Exec(s, pre), e);
    }
  }

  /** The updates operation `op` issued in a run, in order. */
  function Issued(es: seq<Step>, op: nat): seq<Update> {
    if es == [] then []
    else
      var (e, rest) := (es[|es| - 1], Issued(es[..|es| - 1], op));
      if e.LogWrite? && e.op == op then rest + [Update(op, e.blk, e.data)] else rest
  }

  /** The updates of `op` among `us`, in order. */
  function Of(us: seq<Update>, op: nat): seq<Update> {
    if us == [] then []
    else
      var (u, rest) := (us[|us| - 1], Of(us[..|us| - 1], op));
      if u.op == op then rest + [u] else rest
  }

  lemma {:induction false} OfAppend(us: seq<Update>, vs: seq<Update>, op: nat)
    ensures Of(us + vs, op) == Of(us, op) + Of(vs, op)
  {
    if vs == [] {
      assert us + vs == us;
    } else {
      OfAppend(us, vs[..|vs| - 1], op);
      assert (us + vs)[..|us + vs| - 1] == us + vs[..|vs| - 1];
    }
  }

  ghost predicate Partition(b: Book) {
    && b.seen == b.used.Keys + b.ended + b.durable + b.lost
    && b.used.Keys !! b.ended && b.used.Keys + b.ended !! b.durable && b.used.Keys + b.ended + b.durable !! b.lost
  }

  /** Where the updates of one operation are. */
  ghost predicate Fate(b: Book, es: seq<Step>, op: nat) {
    && Of(Flatten(b.hist), op) == (if op in b.durable then Issued(es, op) else [])
    && Of(b.pending, op) == (if op in b.used || op in b.ended then Issued(es, op) else [])
    && (op !in b.seen ==> Issued(es, op) == [])
  }

  /** What the code guarantees about a step, as far as the books are concerned. */
  predicate BookGuard(b: Book, e: Step, commits: bool) {
    && (e.Begin? ==> e.op !in b.seen)
    && (e.LogWrite? || e.End? ==> e.op in b.used)
    && (commits && e.CommitStep? ==> b.used == map[])
    && (commits && e.End? ==> b.used.Keys == {e.op})
  }

  lemma CommitFate(b: Book, es: seq<Step>, op: nat)
    requires Partition(b) && Fate(b, es, op) && b.used == map[]
    ensures Partition(CommitBook(b)) && Fate(CommitBook(b), es, op)
  {
    CommitHist(b);
    OfAppend(Flatten(b.hist), b.pending, op);
    hide Flatten, Issued;
  }

  lemma LeaveFate(b: Book, es: seq<Step>, op: nat, leaver: nat)
    requires Partition(b) && Fate(b, es, op) && leaver in b.used
    ensures var c := b.(used := b.used - {leaver}, ended := b.ended + {leaver});
            Partition(c) && Fate(c, es, op) && c.used.Keys == b.used.Keys - {leaver}
  {}

  lemma WriteFate(b: Book, es: seq<Step>, e: Step, appends: bool, op: nat)
    requires Partition(b) && Fate(b, es, op) && e.LogWrite? && e.op in b.used
    ensures Partition(BookDo(b, e, appends, false)) && Fate(BookDo(b, e, appends, false), es + [e], op)
  {
    var u := Update(e.op, e.blk, e.data);
    assert (es + [e])[..|es|] == es;
    assert (b.pending + [u])[..|b.pending|] == b.pending;
  }

  lemma StepFate(b: Book, es: seq<Step>, e: Step, appends: bool, commits: bool, op: nat)
    requires Partition(b) && Fate(b, es, op) && BookGuard(b, e, commits)
    ensures Partition(BookDo(b, e, appends, commits)) && Fate(BookDo(b, e, appends, commits), es + [e], op)
  {
    hide Flatten;
    if e.LogWrite? {
      WriteFate(b, es, e, appends, op);
    } else {
      assert (es + [e])[..|es|] == es;
      assert Issued(es + [e], op) == Issued(es, op);
      if e.End? {
        var c := b.(used := b.used - {e.op}, ended := b.ended + {e.op});
        LeaveFate(b, es, op, e.op);
        if commits {
          assert c.used == map[];
          CommitFate(c, es, op);
        }
      } else if e.CommitStep? && commits {
        CommitFate(b, es, op);
      }
    }
  }

  lemma StepGuard(s: State, e: Step)
    requires Inv(s) && Enabled(s, e)
    ensures BookGuard(s.book, e, Commits(s, e))
  {
    if e.End? && |s.book.used| == 1 {
      assert |s.book.used.Keys - {e.op}| == 0;
    }
  }

  lemma LastStep(s: State, es: seq<Step>)
    requires Legal(s, es) && es != []
    ensures var (pre, e) := (es[..|es| - 1], es[|es| - 1]);
            var t := Exec(s, pre);
            && Legal(s, pre) && BookGuard(t.book, e, Commits(t, e))
            && Exec(s, es).book == BookDo(t.book, e, e.LogWrite? && e.blk !in t.lh, Commits(t, e))
  {
    RunInv(s, es[..|es| - 1]);
    StepGuard(Exec(s, es[..|es| - 1]), es[|es| - 1]);
  }

  lemma {:induction false} RunFate(s: State, es: seq<Step>, op: nat)
    requires Legal(s, es)
    ensures Partition(Exec(s, es).book) && Fate(Exec(s, es).book, es, op)
  {
    if es == [] {
      assert Exec(s, es) == s;
    } else {
      var pre, e := es[..|es| - 1], es[|es| - 1];
      assert es == pre + [e];
      var t := Exec(s, pre);
      LastStep(s, es);
      RunFate(s, pre, op);
      StepFate(t.book, pre, e, e.LogWrite? && e.blk !in t.lh, Commits(t, e), op);
    }
  }

  /**
    Crash atomicity.  Whatever the run (any interleaving of operations, commits, crashes and
    half-done recoveries), recovering its disk gives the file system after the groups committed so
    far, and of each operation that file system contains every update or none.
   */
  lemma CrashAtomicity(s: State, es: seq<Step>, op: nat)
    requires Legal(s, es)
    ensures var t := Exec(s, es);
            && WfHead(t.disk, t.start) && BlocksOk(t)
            && EqHome(t.start, Recover(t.disk, t.start), Apply(t.origin, Flatten(t.book.hist)))
            && (Of(Flatten(t.book.hist), op) == Issued(es, op) || Of(Flatten(t.book.hist), op) == [])
            && (op in t.book.durable ==> Of(Flatten(t.book.hist), op) == Issued(es, op))
  {
    RunInv(s, es);
    RunFate(s, es, op);
  }

  ghost predicate Grows(t: State, u: State) {
    && t.book.hist <= u.book.hist && t.book.durable <= u.book.durable
    && t.origin == u.origin && t.start == u.start
  }

  lemma GrowStep(t: State, e: Step)
    requires Shape(t) && Enabled(t, e)
    ensures Grows(t, Do(t, e))
  {}

  lemma {:induction false} RunGrows(s: State, es: seq<Step>, k: nat)
    requires k <= |es|
    ensures Grows(Exec(s, es[..k]), Exec(s, es))
  {
    hide Shape, Enabled, Do;
    if k == |es| {
      assert es[..k] == es;
    } else {
      var pre, e := es[..|es| - 1], es[|es| - 1];
      RunGrows(s, pre, k);
      assert pre[..k] == es[..k];
      var t := Exec(s, pre);
      if Shape(t) && Enabled(t, e) {
        GrowStep(t, e);
      }
    }
  }

  /**
    Durability.  Nothing committed is ever taken back, and once a committing end_op has returned
    (no operation active, no commit running) every operation begun is in, save those lost to a crash.
   */
  lemma Durability(s: State, es: seq<Step>, k: nat)
    requires k <= |es| && Legal(s, es[..k])
    ensures var (t, u) := (Exec(s, es[..k]), Exec(s, es));
            && Grows(t, u)
            && (t.pc.Finish? || (t.pc.Running? && t.book.used == map[]) ==> t.book.seen == t.book.durable + t.book.lost)
  {
    RunGrows(s, es, k);
    hide Grows, Exec, Legal, Fate;
    RunFate(s, es[..k], 0);
    RunInv(s, es[..k]);
  }

  // ---------------------------------------------------------------- log space

  /**
    Log space suffices.  In every run whose operations add at most MAXOPBLOCKS blocks each, the log
    and the unspent reservations fit in LOGBLOCKS, and an operation with a slot left never panics.
   */
  lemma LogSpace(s: State, es: seq<Step>, op: nat)
    requires Legal(s, es)
    ensures var t := Exec(s, es);
            && |t.lh| + Unspent(t.book.used) <= LOGBLOCKS
            && (op in t.book.used && t.book.used[op] < MAXOPBLOCKS ==> !LogWritePanics(t))
  {
    RunInv(s, es);
    var t := Exec(s, es);
    if op in t.book.used {
      UnspentRemove(t.book.used, op);
      UnspentBound(t.book.used - {op});
    }
  }

  // A log_write that would be absorbed can still panic: three operations fill the log exactly.

  function Zero(): Block {
    seq(BWORDS, _ => 0)
  }

  ghost function Blank(): State {
    var d := seq(100, _ => Zero());
    State(2, d, map[], [], Crashed, d, Book(map[], [], [], {}, {}, {}, {}))
  }

  lemma Snoc(s: State, es: seq<Step>, e: Step)
    requires Legal(s, es) && Enabled(Exec(s, es), e)
    ensures Legal(s, es + [e]) && Shape(Exec(s, es)) && Exec(s, es + [e]) == Do(Exec(s, es), e)
  {
    assert (es + [e])[..|es|] == es;
    RunInv(s, es);
  }

  ghost predicate Filled(t: State, k: nat) {
    && t.pc.Running? && t.start == 2 && |t.disk| == 100
    && |t.lh| == k && (forall i :: 0 <= i < k ==> t.lh[i] == 40 + i)
    && t.book.used == map[0 := Share(k, 0), 1 := Share(k, 1), 2 := Share(k, 2)]
  }

  function Share(k: nat, j: nat): nat {
    if k <= 10 * j then 0 else if k <= 10 * j + 10 then k - 10 * j else 10
  }

  lemma FillStart() returns (es: seq<Step>)
    ensures Legal(Blank(), es) && Filled(Exec(Blank(), es), 0)
  {
    var s := Blank();
    assert Init(s);
    es := [];
    Snoc(s, es, RecoverStep);
    es := es + [RecoverStep];
    Snoc(s, es, RecoverStep);
    es := es + [RecoverStep];
    assert Exec(s, es).book == s.book && Exec(s, es).lh == [] && Exec(s, es).pc == Running;
    Snoc(s, es, Begin(0));
    es := es + [Begin(0)];
    Snoc(s, es, Begin(1));
    es := es + [Begin(1)];
    Snoc(s, es, Begin(2));
    es := es + [Begin(2)];
  }

  lemma FillStep(t: State, k: nat)
    requires Filled(t, k) && k < LOGBLOCKS
    ensures Enabled(t, LogWrite(k / 10, 40 + k, Zero()))
    ensures Shape(t) ==> Filled(Do(t, LogWrite(k / 10, 40 + k, Zero())), k + 1)
  {
    hide WfList, WfHead, Head;
    var op := k / 10;
    assert op in {0, 1, 2} && Share(k, op) < 10 && Share(k + 1, op) == Share(k, op) + 1;
    assert 40 + k !in t.lh;
  }

  lemma {:induction false} Fill(k: nat) returns (es: seq<Step>)
    requires k <= LOGBLOCKS
    ensures Legal(Blank(), es) && Filled(Exec(Blank(), es), k)
  {
    if k == 0 {
      es := FillStart();
    } else {
      es := Fill(k - 1);
      var e := LogWrite((k - 1) / 10, 40 + (k - 1), Zero());
      FillStep(Exec(Blank(), es), k - 1);
      Snoc(Blank(), es, e);
      es := es + [e];
    }
  }

  /** There is a run in which an active operation re-writes a block already in the log and panics. */
  lemma AbsorbedWritePanics()
    ensures exists es, op, b ::
              var t := Exec(Blank(), es);
              Legal(Blank(), es) && op in t.book.used && b in t.lh && LogWritePanics(t)
  {
    var es := Fill(LOGBLOCKS);
    var t := Exec(Blank(), es);
    assert 2 in t.book.used && t.lh[0] in t.lh;
  }
}
