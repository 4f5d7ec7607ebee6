/**
  Sleeplocks (kernel/sleeplock.c) on sleep and wakeup (kernel/proc.c): one sleeplock, any number of
  processes, every lock operation and every shared store a step of its own.
 */
module Sleeplock {

  /** Where a process is; the comments say which locks it holds there. */
  datatype Pc =
    | Idle
    | Want                // acquiresleep, or sleep's end: about to acquire lk
    | Test                // lk
    | Got                 // lk, and the sleeplock
    | Crit                // the sleeplock
    | SleepLock           // lk; about to acquire its own p->lock
    | SleepRelease        // lk, p->lock
    | SleepMark           // p->lock; about to become SLEEPING
    | SleepSched          // p->lock; about to switch to the scheduler, which releases it
    | Asleep
    | Woken               // p->lock, taken by the scheduler
    | RelWant             // the sleeplock; releasesleep, about to acquire lk
    | RelClear            // lk, and the sleeplock
    | Wake(next: nat)     // lk; wakeup's loop at process `next`
    | WakeAt(at: nat)     // lk, and p->lock of process `at`

  datatype St = Running | Sleeping | Runnable

  /** lk is the holder of the spinlock inside, own the holders of the p->lock, -1 for none; locked and pid are the sleeplock. */
  datatype State = State(pc: seq<Pc>, st: seq<St>, own: seq<int>, lk: int, locked: bool, pid: int)

  /** A step of process p, the scheduler running p included, or a kill of p. */
  datatype Step = Run(p: nat) | Kill(p: nat)

  predicate Shape(s: State) { |s.st| == |s.pc| && |s.own| == |s.pc| }

  predicate Enabled(s: State, e: Step)
    requires Shape(s)
  {
    e.p < |s.pc| &&
    match e
    case Kill(p) => s.own[p] == -1 && s.st[p] == Sleeping
    case Run(p) =>
      match s.pc[p]
      case Want => s.lk == -1
      case RelWant => s.lk == -1
      case SleepLock => s.own[p] == -1
      case Asleep => s.st[p] == Runnable && s.own[p] == -1
      case Wake(k) => k >= |s.pc| || k == p || s.own[k] == -1
      case WakeAt(k) => k < |s.pc|
      case _ => true
  }

  function Goto(s: State, p: nat, pc: Pc): State
    requires p < |s.pc|
  {
    s.(pc := s.pc[p := pc])
  }

  function Do(s: State, e: Step): (t: State)
    requires Shape(s) && Enabled(s, e)
    ensures Shape(t) && |t.pc| == |s.pc|
  {
    match e
    case Kill(p) => s.(st := s.st[p := Runnable])
    case Run(p) =>
      match s.pc[p]
      case Idle => Goto(s, p, Want)
      case Want => Goto(s, p, Test).(lk := p)
      case Test => if s.locked then Goto(s, p, SleepLock) else Goto(s, p, Got).(locked := true, pid := p)
      case Got => Goto(s, p, Crit).(lk := -1)
      case Crit => Goto(s, p, RelWant)
      case SleepLock => Goto(s, p, SleepRelease).(own := s.own[p := p])
      case SleepRelease => Goto(s, p, SleepMark).(lk := -1)
      case SleepMark => Goto(s, p, SleepSched).(st := s.st[p := Sleeping])
      case SleepSched => Goto(s, p, Asleep).(own := s.own[p := -1])
      case Asleep => Goto(s, p, Woken).(st := s.st[p := Running], own := s.own[p := p])
      case Woken => Goto(s, p, Want).(own := s.own[p := -1])
      case RelWant => Goto(s, p, RelClear).(lk := p)
      case RelClear => Goto(s, p, Wake(0)).(locked := false, pid := -1)
      case Wake(k) =>
        if k >= |s.pc| then Goto(s, p, Idle).(lk := -1)
        else if k == p then Goto(s, p, Wake(k + 1))
        else Goto(s, p, WakeAt(k)).(own := s.own[k := p])
      case WakeAt(k) =>
        Goto(s, p, Wake(k + 1)).(own := s.own[k := -1], st := if s.st[k] == Sleeping then s.st[k := Runnable] else s.st)
  }

  // ---------------------------------------------------------------- the invariant

  predicate HasLk(pc: Pc) {
    pc.Test? || pc.Got? || pc.SleepLock? || pc.SleepRelease? || pc.RelClear? || pc.Wake? || pc.WakeAt?
  }

  /** Between seeing the sleeplock free and having cleared it again. */
  predicate Holds(pc: Pc) { pc.Got? || pc.Crit? || pc.RelWant? || pc.RelClear? }

  predicate HasOwn(pc: Pc) { pc.SleepRelease? || pc.SleepMark? || pc.SleepSched? || pc.Woken? }

  /** Has given up lk in order to sleep and not been woken. */
  predicate Sinking(s: State, p: nat)
    requires Shape(s) && p < |s.pc|
  {
    s.pc[p].SleepMark? || (s.pc[p].SleepSched? && s.st[p] == Sleeping) || (s.pc[p].Asleep? && s.st[p] == Sleeping)
  }

  /** A releaser whose loop has yet to come to p. */
  predicate Coming(s: State, p: nat)
    requires Shape(s)
  {
    0 <= s.lk < |s.pc| && match s.pc[s.lk] case Wake(k) => k <= p case WakeAt(k) => k <= p case _ => false
  }

  predicate LocksOk(s: State, p: nat)
    requires Shape(s) && p < |s.pc|
  {
    && (HasLk(s.pc[p]) <==> s.lk == p)
    && (Holds(s.pc[p]) <==> s.pid == p)
    && (HasOwn(s.pc[p]) <==> s.own[p] == p)
    && (s.own[p] != -1 && s.own[p] != p ==> 0 <= s.own[p] < |s.pc| && s.pc[s.own[p]] == WakeAt(p))
    && (s.pc[p].WakeAt? ==> s.pc[p].at < |s.pc| && s.pc[p].at != p && s.own[s.pc[p].at] == p)
  }

  predicate SleepOk(s: State, p: nat)
    requires Shape(s) && p < |s.pc|
  {
    && (s.st[p] != Running ==> s.pc[p].SleepSched? || s.pc[p].Asleep?)
    && (s.pc[p].SleepSched? ==> s.st[p] == Sleeping)
    && (s.pc[p].Asleep? ==> s.st[p] != Running)
    && (s.pc[p].SleepLock? || s.pc[p].SleepRelease? ==> s.locked)
    && (Sinking(s, p) ==> s.locked || Coming(s, p))
  }

  predicate ProcOk(s: State, p: nat)
    requires Shape(s) && p < |s.pc|
  {
    LocksOk(s, p) && SleepOk(s, p)
  }

  predicate Inv(s: State) {
    && Shape(s) && -1 <= s.lk < |s.pc| && -1 <= s.pid < |s.pc| && (s.locked <==> s.pid != -1)
    && forall p :: 0 <= p < |s.pc| ==> ProcOk(s, p)
  }

  function Init(n: nat): State {
    State(seq(n, _ => Idle), seq(n, _ => Running), seq(n, _ => -1), -1, false, -1)
  }

  lemma InitInv(n: nat)
    ensures Inv(Init(n))
  {}

  /** The processes whose state matters to a step and to process q. */
  predicate Near(s: State, e: Step, q: nat)
    requires Shape(s) && e.p < |s.pc| && q < |s.pc|
  {
    && -1 <= s.lk < |s.pc| && -1 <= s.pid < |s.pc| && (s.locked <==> s.pid != -1)
    && ProcOk(s, e.p) && ProcOk(s, q)
    && (s.lk >= 0 ==> ProcOk(s, s.lk))
    && (s.pc[e.p].Wake? && s.pc[e.p].next < |s.pc| ==> ProcOk(s, s.pc[e.p].next))
    && (s.pc[e.p].WakeAt? && s.pc[e.p].at < |s.pc| ==> ProcOk(s, s.pc[e.p].at))
    && (0 <= s.own[q] < |s.pc| ==> ProcOk(s, s.own[q]))
  }

  lemma KillOk(s: State, e: Step, q: nat)
    requires Shape(s) && Enabled(s, e) && q < |s.pc| && Near(s, e, q)
    requires e.Kill?
    ensures ProcOk(Do(s, e), q)
  {}

  lemma AcquireOk(s: State, e: Step, q: nat)
    requires Shape(s) && Enabled(s, e) && q < |s.pc| && Near(s, e, q)
    requires e.Run? && (s.pc[e.p].Idle? || s.pc[e.p].Want? || s.pc[e.p].Test?)
    ensures ProcOk(Do(s, e), q)
  {}

  lemma AcquiredOk(s: State, e: Step, q: nat)
    requires Shape(s) && Enabled(s, e) && q < |s.pc| && Near(s, e, q)
    requires e.Run? && (s.pc[e.p].Got? || s.pc[e.p].Crit?)
    ensures ProcOk(Do(s, e), q)
  {}

  lemma FallAsleepOk(s: State, e: Step, q: nat)
    requires Shape(s) && Enabled(s, e) && q < |s.pc| && Near(s, e, q)
    requires e.Run? && (s.pc[e.p].SleepLock? || s.pc[e.p].SleepRelease? || s.pc[e.p].SleepMark?)
    ensures ProcOk(Do(s, e), q)
  {}

  lemma SchedOk(s: State, e: Step, q: nat)
    requires Shape(s) && Enabled(s, e) && q < |s.pc| && Near(s, e, q)
    requires e.Run? && s.pc[e.p].SleepSched?
    ensures ProcOk(Do(s, e), q)
  {}

  lemma PickOk(s: State, e: Step, q: nat)
    requires Shape(s) && Enabled(s, e) && q < |s.pc| && Near(s, e, q)
    requires e.Run? && s.pc[e.p].Asleep?
    ensures ProcOk(Do(s, e), q)
  {}

  lemma WakeUpOk(s: State, e: Step, q: nat)
    requires Shape(s) && Enabled(s, e) && q < |s.pc| && Near(s, e, q)
    requires e.Run? && s.pc[e.p].Woken?
    ensures ProcOk(Do(s, e), q)
  {}

  lemma ReleaseOk(s: State, e: Step, q: nat)
    requires Shape(s) && Enabled(s, e) && q < |s.pc| && Near(s, e, q)
    requires e.Run? && (s.pc[e.p].RelWant? || s.pc[e.p].RelClear?)
    ensures ProcOk(Do(s, e), q)
  {}

  lemma WakeLoopOk(s: State, e: Step, q: nat)
    requires Shape(s) && Enabled(s, e) && q < |s.pc| && Near(s, e, q)
    requires e.Run? && s.pc[e.p].Wake?
    ensures ProcOk(Do(s, e), q)
  {}

  lemma WakeOneOk(s: State, e: Step, q: nat)
    requires Shape(s) && Enabled(s, e) && q < |s.pc| && Near(s, e, q)
    requires e.Run? && s.pc[e.p].WakeAt?
    ensures ProcOk(Do(s, e), q)
  {}

  lemma NearOk(s: State, e: Step, q: nat)
    requires Inv(s) && Enabled(s, e) && q < |s.pc|
    ensures Near(s, e, q)
  {}

  lemma StepInv(s: State, e: Step)
    requires Inv(s) && Enabled(s, e)
    ensures Inv(Do(s, e))
  {
    hide Do, LocksOk, SleepOk;
    forall q | 0 <= q < |s.pc| ensures ProcOk(Do(s, e), q) {
      NearOk(s, e, q);
      if e.Kill? {
        KillOk(s, e, q);
      } else {
        match s.pc[e.p] {
          case RelWant => ReleaseOk(s, e, q);
          case RelClear => ReleaseOk(s, e, q);
          case Wake(_) => WakeLoopOk(s, e, q);
          case WakeAt(_) => WakeOneOk(s, e, q);
          case Idle => AcquireOk(s, e, q);
          case Want => AcquireOk(s, e, q);
          case Test => AcquireOk(s, e, q);
          case Got => AcquiredOk(s, e, q);
          case Crit => AcquiredOk(s, e, q);
          case SleepLock => FallAsleepOk(s, e, q);
          case SleepRelease => FallAsleepOk(s, e, q);
          case SleepMark => FallAsleepOk(s, e, q);
          case SleepSched => SchedOk(s, e, q);
          case Asleep => PickOk(s, e, q);
          case Woken => WakeUpOk(s, e, q);
        }
      }
    }
    PidOk(s, e);
  }

  lemma PidOk(s: State, e: Step)
    requires Inv(s) && Enabled(s, e)
    ensures var t := Do(s, e); Shape(t) && |t.pc| == |s.pc| && -1 <= t.lk < |t.pc| && -1 <= t.pid < |t.pc| && (t.locked <==> t.pid != -1)
  {}

  // ---------------------------------------------------------------- every run

  predicate Legal(s: State, es: seq<Step>)
    requires Shape(s)
    decreases |es|
  {
    es == [] || (Enabled(s, es[0]) && Legal(Do(s, es[0]), es[1..]))
  }

  function Exec(s: State, es: seq<Step>): (t: State)
    requires Shape(s) && Legal(s, es)
    ensures Shape(t)
    decreases |es|
  {
    if es == [] then s else Exec(Do(s, es[0]), es[1..])
  }

  lemma {:induction false} RunInv(s: State, es: seq<Step>)
    requires Inv(s) && Legal(s, es)
    ensures Inv(Exec(s, es))
    decreases |es|
  {
    if es != [] {
      StepInv(s, es[0]);
      RunInv(Do(s, es[0]), es[1..]);
    }
  }

  /** At most one process holds the sleeplock, and its pid is recorded in it. */
  lemma MutualExclusion(n: nat, es: seq<Step>, p: nat, q: nat)
    requires Legal(Init(n), es) && p < |Exec(Init(n), es).pc| && q < |Exec(Init(n), es).pc|
    requires Holds(Exec(Init(n), es).pc[p])
    ensures Exec(Init(n), es).locked && Exec(Init(n), es).pid == p
    ensures Holds(Exec(Init(n), es).pc[q]) ==> p == q
  {
    InitInv(n);
    RunInv(Init(n), es);
    assert ProcOk(Exec(Init(n), es), p) && ProcOk(Exec(Init(n), es), q);
  }

  /** A process between clearing the sleeplock and the end of its wakeup. */
  predicate Releasing(pc: Pc) { pc.Wake? || pc.WakeAt? }

  /** No lost wakeup: when the sleeplock is free and no release is under way, nobody sleeps on it or is about to. */
  lemma NoLostWakeup(n: nat, es: seq<Step>, p: nat)
    requires Legal(Init(n), es) && p < |Exec(Init(n), es).pc|
    requires !Exec(Init(n), es).locked && forall q :: 0 <= q < |Exec(Init(n), es).pc| ==> !Releasing(Exec(Init(n), es).pc[q])
    ensures Exec(Init(n), es).st[p] != Sleeping && !Sinking(Exec(Init(n), es), p)
  {
    InitInv(n);
    RunInv(Init(n), es);
    assert ProcOk(Exec(Init(n), es), p);
  }

  /** A process has something to do other than to start over. */
  predicate CanMove(s: State, p: nat)
    requires Shape(s)
  {
    p < |s.pc| && !s.pc[p].Idle? && Enabled(s, Run(p))
  }

  /** No deadlock: as long as some process is in the protocol, some process in it can take a step. */
  lemma NoDeadlock(n: nat, es: seq<Step>, p: nat) returns (q: nat)
    requires Legal(Init(n), es) && p < |Exec(Init(n), es).pc| && !Exec(Init(n), es).pc[p].Idle?
    ensures CanMove(Exec(Init(n), es), q)
  {
    InitInv(n);
    RunInv(Init(n), es);
    q := Mover(Exec(Init(n), es), p);
  }

  /** Who can move: the holder of lk or whoever it waits for, or p itself, or the holder of the sleeplock. */
  lemma Mover(s: State, p: nat) returns (q: nat)
    requires Inv(s) && p < |s.pc| && !s.pc[p].Idle?
    ensures CanMove(s, q)
  {
    assert ProcOk(s, p);
    if s.lk >= 0 {
      q := s.lk;
      assert ProcOk(s, q) && (s.own[q] >= 0 ==> ProcOk(s, s.own[q]));
      if s.pc[q].Wake? && s.pc[q].next < |s.pc| && s.pc[q].next != q && s.own[s.pc[q].next] != -1 {
        q := s.pc[q].next;
        assert ProcOk(s, q) && ProcOk(s, s.own[q]);
      }
    } else if s.pc[p].Asleep? && s.st[p] == Sleeping {
      q := s.pid;
      assert ProcOk(s, q);
    } else {
      q := p;
      assert s.own[q] >= 0 ==> ProcOk(s, s.own[q]);
    }
  }

  // ---------------------------------------------------------------- acquiring and releasing

  /** In acquiresleep and without the sleeplock. */
  predicate Acquiring(pc: Pc) {
    pc.Want? || pc.Test? || pc.SleepLock? || pc.SleepRelease? || pc.SleepMark? || pc.SleepSched? || pc.Asleep? || pc.Woken?
  }

  /** A process leaves acquiresleep only with the sleeplock, which was free, and gives it up only in releasesleep. */
  lemma OnlyWithTheLock(s: State, e: Step, p: nat)
    requires Inv(s) && Enabled(s, e) && p < |s.pc|
    ensures Acquiring(s.pc[p]) && !Acquiring(Do(s, e).pc[p]) ==>
              e == Run(p) && Do(s, e).pc[p] == Got && !s.locked && s.lk == p && Do(s, e).locked && Do(s, e).pid == p
    ensures Holds(s.pc[p]) && !Holds(Do(s, e).pc[p]) ==> e == Run(p) && s.pc[p] == RelClear && !Do(s, e).locked && Do(s, e).pc[p] == Wake(0)
    ensures s.pc[p].Idle? && Do(s, e).pc[p] != s.pc[p] ==> e == Run(p) && Acquiring(Do(s, e).pc[p])
  {
    assert ProcOk(s, p);
  }

  lemma {:induction false} Join(s: State, es: seq<Step>, fs: seq<Step>)
    requires Shape(s) && Legal(s, es) && Legal(Exec(s, es), fs)
    ensures Legal(s, es + fs) && Exec(s, es + fs) == Exec(Exec(s, es), fs)
    decreases |es|
  {
    if es == [] {
      assert es + fs == fs;
    } else {
      Join(Do(s, es[0]), es[1..], fs);
      assert (es + fs)[0] == es[0] && (es + fs)[1..] == es[1..] + fs;
    }
  }

  lemma One(s: State, e: Step)
    requires Shape(s) && Enabled(s, e)
    ensures Legal(s, [e]) && Exec(s, [e]) == Do(s, e)
  {
    assert [e][1..] == [];
    assert Legal(Do(s, e), []);
  }

  lemma Two(s: State, e: Step, f: Step)
    requires Shape(s) && Enabled(s, e) && Enabled(Do(s, e), f)
    ensures Legal(s, [e, f]) && Exec(s, [e, f]) == Do(Do(s, e), f)
  {
    One(s, e);
    One(Do(s, e), f);
    Join(s, [e], [f]);
    assert [e] + [f] == [e, f];
  }

  /** acquiresleep on a free sleeplock takes it, in three steps. */
  lemma TakesFreeLock(s: State, p: nat)
    requires Inv(s) && p < |s.pc| && s.pc[p].Want? && s.lk == -1 && !s.locked
    ensures Legal(s, [Run(p), Run(p), Run(p)])
    ensures Exec(s, [Run(p), Run(p), Run(p)]) == s.(pc := s.pc[p := Crit], locked := true, pid := p)
  {
    var s1 := Do(s, Run(p));
    var s2 := Do(s1, Run(p));
    Two(s, Run(p), Run(p));
    One(s2, Run(p));
    Join(s, [Run(p), Run(p)], [Run(p)]);
    assert [Run(p), Run(p)] + [Run(p)] == [Run(p), Run(p), Run(p)];
    assert Do(s2, Run(p)).pc == s.pc[p := Crit];
  }

  /** st with every sleeper from k on, but p, made runnable. */
  function Roused(st: seq<St>, k: nat, p: nat): seq<St> {
    seq(|st|, q requires 0 <= q < |st| => if q >= k && q != p && st[q] == Sleeping then Runnable else st[q])
  }

  /** The loop of wakeup, alone, rouses every other process and ends. */
  lemma {:induction false} WakeupEnds(s: State, p: nat, k: nat) returns (es: seq<Step>)
    requires Shape(s) && p < |s.pc| && s.pc[p] == Wake(k) && k <= |s.pc| && forall q :: 0 <= q < |s.pc| ==> s.own[q] == -1
    ensures Legal(s, es) && Exec(s, es) == s.(pc := s.pc[p := Idle], lk := -1, st := Roused(s.st, k, p))
    decreases |s.pc| - k
  {
    hide Exec, Legal;
    var s1 := Do(s, Run(p));
    if k == |s.pc| {
      es := [Run(p)];
      One(s, Run(p));
      assert Roused(s.st, k, p) == s.st;
    } else if k == p {
      One(s, Run(p));
      var rest := WakeupEnds(s1, p, k + 1);
      Join(s, [Run(p)], rest);
      es := [Run(p)] + rest;
      assert s1.pc[p := Idle] == s.pc[p := Idle];
      assert Roused(s.st, k, p) == Roused(s1.st, k + 1, p);
    } else {
      var s2 := Do(s1, Run(p));
      Two(s, Run(p), Run(p));
      assert s2.own == s.own;
      var rest := WakeupEnds(s2, p, k + 1);
      Join(s, [Run(p), Run(p)], rest);
      es := [Run(p), Run(p)] + rest;
      assert s2.pc[p := Idle] == s.pc[p := Idle];
      assert Roused(s.st, k, p) == Roused(s2.st, k + 1, p);
    }
  }

  /** releasesleep by the holder, when nobody is in the way: the sleeplock is free and nobody else sleeps. */
  lemma Releases(s: State, p: nat) returns (es: seq<Step>)
    requires Inv(s) && p < |s.pc| && s.pc[p].Crit? && s.lk == -1 && forall q :: 0 <= q < |s.pc| ==> s.own[q] == -1
    ensures Legal(s, es) && Exec(s, es) == s.(pc := s.pc[p := Idle], locked := false, pid := -1, st := Roused(s.st, 0, p))
  {
    var s1 := Do(s, Run(p));
    var s2 := Do(s1, Run(p));
    var s3 := Do(s2, Run(p));
    Two(s, Run(p), Run(p));
    One(s2, Run(p));
    Join(s, [Run(p), Run(p)], [Run(p)]);
    var rest := WakeupEnds(s3, p, 0);
    Join(s, [Run(p), Run(p)] + [Run(p)], rest);
    es := [Run(p), Run(p)] + [Run(p)] + rest;
    assert s3.pc[p := Idle] == s.pc[p := Idle];
  }

  /** Then a process that was asleep can have it: the holder p releases and q, alone, takes the sleeplock. */
  lemma HandOver(s: State, p: nat, q: nat) returns (es: seq<Step>)
    requires Inv(s) && p < |s.pc| && q < |s.pc| && p != q && s.pc[p].Crit? && s.pc[q].Asleep? && s.st[q] == Sleeping
    requires s.lk == -1 && forall r :: 0 <= r < |s.pc| ==> s.own[r] == -1
    ensures Legal(s, es) && Exec(s, es).pc == s.pc[p := Idle][q := Crit] && Exec(s, es).locked && Exec(s, es).pid == q
  {
    var first := Releases(s, p);
    var s1 := Exec(s, first);
    RunInv(s, first);
    Two(s1, Run(q), Run(q));
    var s3 := Exec(s1, [Run(q), Run(q)]);
    RunInv(s1, [Run(q), Run(q)]);
    TakesFreeLock(s3, q);
    Join(s1, [Run(q), Run(q)], [Run(q), Run(q), Run(q)]);
    Join(s, first, [Run(q), Run(q)] + [Run(q), Run(q), Run(q)]);
    es := first + ([Run(q), Run(q)] + [Run(q), Run(q), Run(q)]);
  }
}
