/** kernel/log.c: the log over its in-memory header, the buffer contents and the disk. */
module LogCode {
  import opened LogProtocol
  import opened LogSafety

  datatype WriteResult = Recorded | PanicTooBig | PanicOutside

  /** The run so far is legal and `now` is where it leads. */
  ghost predicate Reached(first: State, run: seq<Step>, now: State) {
    Legal(first, run) && now == Exec(first, run) && Inv(now)
  }

  /** The run has gone on with steps e only. */
  ghost predicate Extends(was: seq<Step>, run: seq<Step>, e: Step) {
    was <= run && forall j :: |was| <= j < |run| ==> run[j] == e
  }

  lemma ReachedStep(first: State, run: seq<Step>, now: State, e: Step)
    requires Reached(first, run, now) && Enabled(now, e)
    ensures Reached(first, run + [e], Next(now, e)) && Inv(Next(now, e))
  {
    Snoc(first, run, e);
    RunInv(first, run + [e]);
  }

  // The steps the code takes, as changes of the state's fields.

  lemma BeginStep(first: State, run: seq<Step>, s: State, op: nat)
    requires Reached(first, run, s) && Enabled(s, Begin(op))
    ensures Next(s, Begin(op)) == s.(book := Next(s, Begin(op)).book)
    ensures |Next(s, Begin(op)).book.used| == |s.book.used| + 1
  {
    RunInv(first, run);
    hide Inv;
  }

  lemma WriteStep(s: State, op: nat, b: nat, data: Block)
    requires Inv(s) && Enabled(s, LogWrite(op, b, data))
    ensures var s' := Next(s, LogWrite(op, b, data));
            && s' == s.(cache := s.cache[b := data], lh := if b in s.lh then s.lh else s.lh + [b], book := s'.book)
            && s'.book.used.Keys == s.book.used.Keys
  {}

  lemma EndStep(s: State, op: nat)
    requires Inv(s) && s.pc.Running? && op in s.book.used
    ensures var s' := Next(s, End(op));
            && s' == s.(book := s'.book, pc := if |s.book.used| > 1 then Running else if s.lh == [] then Finish else Pc.WriteLog(0))
            && |s'.book.used| == |s.book.used| - 1
            && s'.book == (if |s.book.used| == 1 && s.lh == [] then CommitBook(Left(s.book, op)) else Left(s.book, op))
  {}

  /** Operation op is over. */
  function Left(b: Book, op: nat): Book { b.(used := b.used - {op}, ended := b.ended + {op}) }

  lemma LogBlockStep(s: State)
    requires Inv(s) && s.pc.WriteLog? && s.pc.tail < |s.lh|
    ensures s.start + 1 + s.pc.tail < |s.disk| && s.lh[s.pc.tail] < |s.disk|
    ensures Next(s, CommitStep) ==
              s.(disk := s.disk[s.start + 1 + s.pc.tail := View(s.disk, s.cache, s.lh[s.pc.tail])], pc := Pc.WriteLog(s.pc.tail + 1))
  {
    hide SpaceInv, EqHome, WfHead, Clean, ViewIs;
  }

  /** The commit point. */
  lemma HeadStep(s: State)
    requires Inv(s) && s.pc.WriteLog? && s.pc.tail == |s.lh|
    ensures s.start < |s.disk| && WfList(s.start, |s.disk|, s.lh) && s.book.used == map[]
    ensures Next(s, CommitStep) ==
              s.(disk := s.disk[s.start := HeadBlock(s.disk[s.start], s.lh)], pc := Install(0), book := CommitBook(s.book))
  {}

  /** While a group is installed, a buffered block has the contents of its log copy. */
  lemma InstallSees(s: State)
    requires Inv(s) && s.pc.Install? && s.pc.tail < |s.lh|
    ensures s.start + 1 + s.pc.tail < |s.disk|
    ensures s.lh[s.pc.tail] in s.cache ==> s.cache[s.lh[s.pc.tail]] == s.disk[s.start + 1 + s.pc.tail]
  {
    hide ViewIs, EqHome, WfHead;
  }

  lemma RecInstallSees(s: State)
    requires Inv(s) && s.pc.RecInstall?
    ensures s.cache == map[]
  {}

  lemma InstallStep(s: State)
    requires Inv(s) && s.pc.Install? && s.pc.tail < |s.lh|
    ensures s.start + LOGBLOCKS < |s.disk| && WfList(s.start, |s.disk|, s.lh)
    ensures Next(s, CommitStep) ==
              s.(disk := InstallOne(s.disk, s.start, s.lh, s.pc.tail), pc := Install(s.pc.tail + 1))
  {}

  lemma RecInstallStep(s: State)
    requires Inv(s) && s.pc.RecInstall? && s.pc.tail < |s.lh|
    ensures s.start + LOGBLOCKS < |s.disk| && WfList(s.start, |s.disk|, s.lh)
    ensures Next(s, RecoverStep) ==
              s.(disk := InstallOne(s.disk, s.start, s.lh, s.pc.tail), pc := RecInstall(s.pc.tail + 1))
  {}

  /** Erasing the header, after a commit or after recovery. */
  lemma EraseStep(s: State)
    requires Inv(s) && (s.pc.Install? || s.pc.RecInstall?) && s.pc.tail == |s.lh|
    ensures s.start < |s.disk|
    ensures var d := s.disk[s.start := HeadBlock(s.disk[s.start], [])];
            && (s.pc.Install? ==> Next(s, CommitStep) == s.(disk := d, lh := [], pc := Finish))
            && (s.pc.RecInstall? ==> Next(s, RecoverStep) == s.(disk := d, lh := [], pc := Running))
  {}

  lemma ReadHeadStep(s: State)
    requires Inv(s) && s.pc.Crashed?
    ensures WfHead(s.disk, s.start)
    ensures Next(s, RecoverStep) == s.(lh := Head(s.disk, s.start), pc := RecInstall(0))
  {}

  /** A finished commit leaves the disk itself equal to the committed file system. */
  lemma FinishStep(s: State)
    requires Inv(s) && s.pc.Finish?
    ensures var s' := Next(s, CommitStep);
            && s' == s.(pc := Running) && s.lh == [] && s.book.used == map[]
            && BlocksOk(s') && EqHome(s'.start, s'.disk, Committed(s'))
  {}

  /**
    `disk` is the device, `cache` the buffers that may differ from it.  The other real fields are
    those of `struct log`.  `run` records the atomic steps taken since `first`: every block write
    of the code appends one, so a crash between any two writes is a prefix of it.
   */
  class Log {
    const start: nat
    var disk: Disk
    var cache: map<nat, Block>
    var n: nat
    const block: array<nat>
    var outstanding: nat
    var committing: bool

    ghost const first: State
    ghost var run: seq<Step>
    ghost var now: State

    ghost predicate Agrees()
      reads this, block
    {
      && now.start == start && now.disk == disk && now.cache == cache
      && n <= LOGBLOCKS == block.Length && now.lh == block[..n]
      && start + LOGBLOCKS < |disk|
      && |now.book.used| == outstanding
      && (now.pc.WriteLog? || now.pc.Install? || now.pc.Finish? <==> committing)
    }

    ghost predicate Valid()
      reads this, block
    {
      Reached(first, run, now) && Inv(now) && Agrees()
    }

    /** A device as mkfs leaves it, before the first boot: an empty log header. */
    constructor (start: nat, disk: Disk)
      requires start + LOGBLOCKS < |disk| && disk[start][0] == 0
      ensures Valid() && now.pc.Crashed? && this.disk == disk && this.start == start && fresh(block)
    {
      this.start, this.disk, cache, n, outstanding, committing := start, disk, map[], 0, 0, false;
      block := new nat[LOGBLOCKS](i => 0);
      first := State(start, disk, map[], [], Crashed, disk, Book(map[], [], [], {}, {}, {}, {}));
      run := [];
      now := first;
      new;
      RunInv(first, run);
    }

    /** Record an atomic step. */
    ghost method Tick(e: Step)
      requires Reached(first, run, now) && Enabled(now, e)
      modifies this`run, this`now
      ensures Reached(first, run, now) && Inv(now) && run == old(run) + [e] && now == Next(old(now), e)
    {
      hide Next, Reached, Inv, Enabled;
      ReachedStep(first, run, now, e);
      run := run + [e];
      now := Next(now, e);
    }

    /** Power loss: only the disk survives. */
    method PowerLoss()
      requires Valid()
      modifies this
      ensures Valid() && disk == old(disk) && now.pc.Crashed? && run == old(run) + [Crash]
    {
      hide PcInv, SpaceInv, EqHome, WfHead;
      assert Next(now, Crash) == Do(now, Crash);
      hide Reached, Inv, Next;
      Tick(Crash);
      cache, n, outstanding, committing := map[], 0, 0, false;
    }

    /** One pass of begin_op's loop; false means that the caller goes to sleep and retries. */
    method BeginOp(ghost op: nat) returns (ok: bool)
      requires Valid() && !now.pc.Crashed? && !now.pc.RecInstall? && op !in now.book.seen
      modifies this
      ensures Valid() && disk == old(disk)
      ensures ok <==> !old(committing) && old(n) + (old(outstanding) + 1) * MAXOPBLOCKS <= LOGBLOCKS
      ensures run == if ok then old(run) + [Begin(op)] else old(run)
    {
      hide Reached, Inv, Next;
      if committing {
        ok := false;
      } else if n + (outstanding + 1) * MAXOPBLOCKS > LOGBLOCKS {
        ok := false;
      } else {
        BeginStep(first, run, now, op);
        Tick(Begin(op));
        outstanding := outstanding + 1;
        ok := true;
      }
    }

    /** log_write by operation `op`, whose buffer for block b now holds `data`. */
    method LogWrite(ghost op: nat, b: nat, data: Block) returns (r: WriteResult)
      requires Valid() && now.pc.Running? && IsHome(start, |disk|, b)
      requires outstanding >= 1 ==> op in now.book.used
      requires outstanding >= 1 && b !in block[..n] ==> now.book.used[op] < MAXOPBLOCKS
      modifies this, block
      ensures Valid() && disk == old(disk)
      ensures r.PanicTooBig? <==> old(n) >= LOGBLOCKS
      ensures r.PanicOutside? <==> old(n) < LOGBLOCKS && old(outstanding) < 1
      ensures r.Recorded? ==> run == old(run) + [Step.LogWrite(op, b, data)]
      ensures !r.Recorded? ==> run == old(run)
    {
      hide Reached, Inv, Next;
      if n >= LOGBLOCKS {
        return PanicTooBig;
      }
      if outstanding < 1 {
        return PanicOutside;
      }
      var i := 0;
      while i < n && block[i] != b
        invariant 0 <= i <= n && b !in block[..i]
      {
        i := i + 1;
      }
      ghost var was := block[..n];
      assert i < n <==> b in was;
      WriteStep(now, op, b, data);
      Tick(Step.LogWrite(op, b, data));
      cache := cache[b := data];
      block[i] := b;
      if i == n {
        n := n + 1;
        assert block[..n] == was + [b];
      } else {
        assert block[..n] == was;
      }
      return Recorded;
    }

    /** Copy the in-memory header into a header block and write it; this is step e of the run. */
    method WriteHead(ghost e: Step)
      requires n <= LOGBLOCKS == block.Length && start < |disk| && Reached(first, run, now) && Enabled(now, e)
      modifies this`disk, this`run, this`now
      ensures disk == old(disk)[start := HeadBlock(old(disk)[start], block[..n])]
      ensures Reached(first, run, now) && Inv(now) && run == old(run) + [e] && now == Next(old(now), e)
    {
      hide Reached, Inv, Next, Enabled;
      ghost var was := disk[start];
      var hb: Block := disk[start][0 := n];
      for i := 0 to n
        invariant |hb| == BWORDS && hb[0] == n
        invariant forall j :: 0 <= j < i ==> hb[1 + j] == block[j]
        invariant forall j :: 1 + i <= j < BWORDS ==> hb[j] == was[j]
      {
        hb := hb[1 + i := block[i]];
      }
      assert hb == HeadBlock(was, block[..n]);
      disk := disk[start := hb];
      Tick(e);
    }

    /** Copy the modified blocks from the cache to the log. */
    method WriteLog()
      requires Valid() && now.pc == Pc.WriteLog(0)
      modifies this`disk, this`run, this`now
      ensures Valid() && now.pc == Pc.WriteLog(n) && Extends(old(run), run, CommitStep) && now.book == old(now.book)
    {
      hide Reached, Inv, Next;
      for tail := 0 to n
        invariant Valid() && now.pc == Pc.WriteLog(tail) && Extends(old(run), run, CommitStep) && now.book == old(now.book)
      {
        LogBlockStep(now);
        var from := if block[tail] in cache then cache[block[tail]] else disk[block[tail]];
        Tick(CommitStep);
        disk := disk[start + tail + 1 := from];
      }
    }

    /** The body of install_trans's loop. */
    method InstallBlock(recovering: bool, tail: nat)
      requires Valid() && tail < n && now.pc == if recovering then RecInstall(tail) else Install(tail)
      modifies this`disk, this`cache, this`run, this`now
      ensures Valid() && now.pc == if recovering then RecInstall(tail + 1) else Install(tail + 1)
      ensures Extends(old(run), run, if recovering then RecoverStep else CommitStep) && cache == old(cache) && now.book == old(now.book)
      ensures WfList(start, |old(disk)|, block[..n]) && disk == InstallOne(old(disk), start, block[..n], tail)
    {
      hide Reached, Inv, Next;
      if recovering {
        RecInstallStep(now);
        RecInstallSees(now);
        Tick(RecoverStep);
      } else {
        InstallStep(now);
        InstallSees(now);
        Tick(CommitStep);
      }
      var lbuf, dst := disk[start + tail + 1], block[tail];
      if dst in cache {
        cache := cache[dst := lbuf];
      }
      disk := disk[dst := lbuf];
    }

    method InstallTrans(recovering: bool)
      requires Valid() && now.pc == if recovering then RecInstall(0) else Install(0)
      requires WfList(start, |disk|, block[..n])
      modifies this`disk, this`cache, this`run, this`now
      ensures Valid() && now.pc == (if recovering then RecInstall(n) else Install(n))
      ensures Extends(old(run), run, if recovering then RecoverStep else CommitStep) && now.book == old(now.book)
      ensures disk == InstallFrom(old(disk), start, block[..n], 0) && cache == old(cache)
    {
      hide Reached, Inv;
      for tail := 0 to n
        invariant Valid() && now.pc == (if recovering then RecInstall(tail) else Install(tail))
        invariant Extends(old(run), run, if recovering then RecoverStep else CommitStep) && now.book == old(now.book)
        invariant cache == old(cache) && |disk| == |old(disk)|
        invariant InstallFrom(disk, start, block[..n], tail) == InstallFrom(old(disk), start, block[..n], 0)
      {
        InstallBlock(recovering, tail);
      }
    }

    method Commit()
      requires Valid() && ((now.pc == Pc.WriteLog(0) && n > 0) || (now.pc.Finish? && n == 0))
      modifies this
      ensures Valid() && now.pc.Finish? && n == 0 && Extends(old(run), run, CommitStep)
      ensures now.book == if old(n) > 0 then CommitBook(old(now.book)) else old(now.book)
    {
      hide Reached, Inv, Next, InstallFrom;
      if n > 0 {
        WriteLog();
        HeadStep(now);
        WriteHead(CommitStep);
        InstallTrans(false);
        EraseStep(now);
        n := 0;
        WriteHead(CommitStep);
      }
    }

    /**
      end_op.  The last operation of a group commits it before it returns; then the disk itself,
      not only what it recovers to, is the file system after every committed group.
     */
    method EndOp(ghost op: nat)
      requires Valid() && now.pc.Running? && op in now.book.used
      modifies this
      ensures Valid() && now.pc.Running? && Extends(old(run) + [End(op)], run, CommitStep)
      ensures old(outstanding) > 1 ==> run == old(run) + [End(op)] && disk == old(disk)
      ensures old(outstanding) == 1 ==>
                && n == 0 && now.book.used == map[] && BlocksOk(now) && EqHome(start, disk, Committed(now))
                && now.book.pending == [] && Flatten(now.book.hist) == Flatten(old(now.book.hist)) + old(now.book.pending)
                && now.book.durable == old(now.book.durable) + old(now.book.ended) + {op} && now.book.lost == old(now.book.lost)
    {
      hide Reached, Inv, Next, EqHome, BlocksOk, Flatten;
      CommitHist(now.book);
      EndStep(now, op);
      Tick(End(op));
      outstanding := outstanding - 1;
      if outstanding == 0 {
        committing := true;
        Commit();
        FinishStep(now);
        Tick(CommitStep);
        committing := false;
      }
    }

    method ReadHead()
      requires Valid() && now.pc.Crashed?
      modifies this`n, this`run, this`now, block
      ensures Valid() && now.pc == RecInstall(0) && Extends(old(run), run, RecoverStep) && now.book == old(now.book)
      ensures WfHead(disk, start) && block[..n] == Head(disk, start)
    {
      hide Reached, Inv, Next;
      ReadHeadStep(now);
      n := disk[start][0];
      for i := 0 to n
        modifies block
        invariant forall j :: 0 <= j < i ==> block[j] == disk[start][1 + j]
      {
        assert disk[start][1 + i] == Head(disk, start)[i];
        block[i] := disk[start][1 + i];
      }
      assert block[..n] == Head(disk, start);
      hide WfHead, WfList;
      Tick(RecoverStep);
    }

    /** What initlog runs at boot, on whatever disk the last crash left. */
    method RecoverFromLog()
      requires Valid() && now.pc.Crashed?
      modifies this, block
      ensures Valid() && now.pc.Running? && n == 0 && Extends(old(run), run, RecoverStep) && now.book == old(now.book)
      ensures WfHead(old(disk), start) && disk == Recover(old(disk), start)
    {
      hide Reached, Inv, Next, InstallFrom;
      ReadHead();
      InstallTrans(true);
      EraseStep(now);
      n := 0;
      WriteHead(RecoverStep);
    }
  }
}
