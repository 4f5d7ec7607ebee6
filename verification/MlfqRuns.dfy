/** What every run of the scheduler of module Mlfq keeps and does. */
module MlfqRuns {
  import opened Mlfq

  // ---------------------------------------------------------------- what each operation does to the queues

  lemma AtEnqueue(s: Sys, p: nat)
    requires |s.queues| == LEVELS && p < |s.procs| && s.procs[p].level < LEVELS
    ensures forall m, i, x :: At(Enqueue(s, p).queues, m, i, x) <==>
              At(s.queues, m, i, x) || (m == s.procs[p].level && i == |s.queues[m]| && x == p)
  {}

  lemma AtDequeue(queues: seq<seq<nat>>, l: nat)
    requires l < |queues| && queues[l] != []
    ensures forall m, i, x :: At(queues[l := queues[l][1..]], m, i, x) <==>
              0 <= i && if m == l then i < |queues[l]| - 1 && queues[l][i + 1] == x else At(queues, m, i, x)
  {
    var q, tail := queues[l := queues[l][1..]], queues[l][1..];
    forall m, i, x ensures At(q, m, i, x) <==> 0 <= i && if m == l then i < |queues[l]| - 1 && queues[l][i + 1] == x else At(queues, m, i, x) {
      assert 0 <= i < |tail| ==> tail[i] == queues[l][i + 1];
    }
  }

  lemma AtBoost(s: Sys)
    ensures forall m, i, x :: At(Boost(s).queues, m, i, x) <==>
              m == 0 && 0 <= i < |Runnables(s.procs, |s.procs|)| && Runnables(s.procs, |s.procs|)[i] == x
  {}

  lemma AtWake(s: Sys, chan: nat, m: int, i: int, x: int)
    requires Shape(s)
    ensures At(Wake(s, chan).queues, m, i, x) <==>
              At(s.queues, m, i, x) ||
              (0 <= m < LEVELS && |s.queues[m]| <= i < |s.queues[m]| + |WokenAt(s, chan, m, NPROC)| && WokenAt(s, chan, m, NPROC)[i - |s.queues[m]|] == x)
  {}

  /** Queueing a runnable process that is in no queue. */
  lemma EnqueueInv(s: Sys, p: nat)
    requires Inv(s) && p < NPROC && s.procs[p].state == Runnable && !Queued(s.queues, p)
    ensures Inv(Enqueue(s, p)) && Queued(Enqueue(s, p).queues, p)
    ensures forall x :: x != p ==> (Queued(Enqueue(s, p).queues, x) <==> Queued(s.queues, x))
  {
    AtEnqueue(s, p);
    assert At(Enqueue(s, p).queues, s.procs[p].level, |s.queues[s.procs[p].level]|, p);
    forall x | x != p && Queued(s.queues, x) ensures Queued(Enqueue(s, p).queues, x) {
      var l, i :| At(s.queues, l, i, x);
      assert At(Enqueue(s, p).queues, l, i, x);
    }
  }

  lemma WakeInv(s: Sys, chan: nat)
    requires Inv(s)
    ensures Inv(Wake(s, chan))
  {
    WakeShape(s, chan);
    var q := Wake(s, chan).queues;
    forall l, i, p | At(q, l, i, p)
      ensures p < NPROC && Wake(s, chan).procs[p].state == Runnable
    {
      WokenAtIs(s, chan, l, NPROC);
      AtWake(s, chan, l, i, p);
    }
    forall l, i, m, j, p | At(q, l, i, p) && At(q, m, j, p) ensures l == m && i == j {
      WokenAtIs(s, chan, l, NPROC);
      WokenAtIs(s, chan, m, NPROC);
      AtWake(s, chan, l, i, p);
      AtWake(s, chan, m, j, p);
    }
  }

  lemma WakeQueued(s: Sys, chan: nat, p: nat)
    requires Inv(s) && p < NPROC
    ensures Queued(Wake(s, chan).queues, p) <==> Queued(s.queues, p) || Woken(s, chan, p)
  {
    var l := s.procs[p].level;
    if Queued(s.queues, p) {
      var m, i :| At(s.queues, m, i, p);
      AtWake(s, chan, m, i, p);
    } else if Woken(s, chan, p) {
      WokenAtIs(s, chan, l, NPROC);
      var k :| 0 <= k < |WokenAt(s, chan, l, NPROC)| && WokenAt(s, chan, l, NPROC)[k] == p;
      AtWake(s, chan, l, |s.queues[l]| + k, p);
    }
    if Queued(Wake(s, chan).queues, p) {
      var m, i :| At(Wake(s, chan).queues, m, i, p);
      AtWake(s, chan, m, i, p);
      WokenAtIs(s, chan, m, NPROC);
    }
  }

  lemma BoostInv(s: Sys)
    requires Inv(s)
    ensures Inv(Boost(s))
    ensures forall p :: 0 <= p < NPROC ==> (Queued(Boost(s).queues, p) <==> s.procs[p].state == Runnable)
  {
    BoostShape(s);
    AtBoost(s);
    RunnablesIs(s.procs, NPROC);
    forall p | 0 <= p < NPROC && s.procs[p].state == Runnable ensures Queued(Boost(s).queues, p) {
      var i :| 0 <= i < |Runnables(s.procs, NPROC)| && Runnables(s.procs, NPROC)[i] == p;
      assert At(Boost(s).queues, 0, i, p);
    }
  }

  // ---------------------------------------------------------------- dispatch

  /** The first level from l on whose queue is not empty, LEVELS if there is none. */
  function Top(queues: seq<seq<nat>>, l: nat): (r: nat)
    requires |queues| == LEVELS && l <= LEVELS
    ensures l <= r <= LEVELS && (r < LEVELS ==> queues[r] != []) && forall m :: l <= m < r ==> queues[m] == []
    decreases LEVELS - l
  {
    if l == LEVELS || queues[l] != [] then l else Top(queues, l + 1)
  }

  function Dispatch(s: Sys, l: nat): Sys
    requires Shape(s) && l < LEVELS && s.queues[l] != []
  {
    var p := s.queues[l][0];
    s.(queues := s.queues[l := s.queues[l][1..]], procs := s.procs[p := s.procs[p].(state := Running)], current := p)
  }

  /** Every queued process being runnable, the scan stops at the first queue that holds any. */
  lemma {:induction false} ScanIs(s: Sys, l: nat)
    requires Inv(s) && l <= LEVELS
    ensures Scan(s, l) == if Top(s.queues, l) == LEVELS then s else Dispatch(s, Top(s.queues, l))
    decreases LEVELS - l
  {
    if l < LEVELS {
      if s.queues[l] == [] {
        ScanIs(s, l + 1);
      } else {
        assert At(s.queues, l, 0, s.queues[l][0]);
      }
    }
  }

  lemma DispatchInv(s: Sys, l: nat)
    requires Inv(s) && l < LEVELS && s.queues[l] != [] && s.current == -1
    ensures Inv(Dispatch(s, l)) && !Queued(Dispatch(s, l).queues, s.queues[l][0])
    ensures forall x :: x != s.queues[l][0] ==> (Queued(Dispatch(s, l).queues, x) <==> Queued(s.queues, x))
  {
    var p, s' := s.queues[l][0], Dispatch(s, l);
    assert At(s.queues, l, 0, p);
    AtDequeue(s.queues, l);
    forall x | x != p && Queued(s.queues, x) ensures Queued(s'.queues, x) {
      var m, i :| At(s.queues, m, i, x);
      assert At(s'.queues, m, if m == l then i - 1 else i, x);
    }
    forall x | Queued(s'.queues, x) ensures x != p && Queued(s.queues, x) {
      var m, i :| At(s'.queues, m, i, x);
      assert At(s.queues, m, if m == l then i + 1 else i, x);
    }
    forall m, i, x | At(s'.queues, m, i, x) ensures At(s.queues, m, if m == l then i + 1 else i, x) && x != p {
      assert At(s.queues, m, if m == l then i + 1 else i, x);
    }
  }

  // ---------------------------------------------------------------- one step

  /** The step runs priority_boost. */
  predicate Boosts(s: Sys, e: Event) {
    e.BoostAll? || (e.Round? && BoostDue(s))
  }

  /** The step makes p runnable without queueing it: userinit, and kill of a sleeper. */
  predicate Strands(s: Sys, e: Event, p: nat)
    requires p < |s.procs|
  {
    || (e.UserInit? && e.slot == p)
    || (e.Kill? && PidSlot(s.procs, e.pid, 0) == p && s.procs[p].state == Sleeping)
  }

  /** p could run but no queue holds it, so that the scheduler cannot find it. */
  ghost predicate Lost(s: Sys, p: nat)
    requires p < |s.procs|
  {
    s.procs[p].state == Runnable && !Queued(s.queues, p)
  }

  /** A change of the process table that leaves the queues alone and takes no queued process out of state Runnable. */
  lemma TableInv(s: Sys, s': Sys)
    requires Inv(s) && Shape(s') && s'.queues == s.queues
    requires forall p :: 0 <= p < NPROC && s.procs[p].state == Runnable ==> s'.procs[p].state == Runnable
    ensures Inv(s')
  {}

  lemma NotQueued(s: Sys, p: nat)
    requires Inv(s) && p < NPROC && s.procs[p].state != Runnable
    ensures !Queued(s.queues, p)
  {}

  lemma LeaveInv(s: Sys, st: PState, chan: nat, p: nat)
    requires Inv(s) && s.current >= 0 && st != Running && p < NPROC
    ensures Inv(Leave(s, st, chan)) && (Lost(Leave(s, st, chan), p) <==> Lost(s, p))
  {
    var s1 := s.(procs := s.procs[s.current := s.procs[s.current].(state := st, chan := chan)], current := -1);
    NotQueued(s, s.current);
    TableInv(s, s1);
    if st == Runnable {
      EnqueueInv(s1, s.current);
    }
  }

  lemma ChargeInv(s: Sys, p: nat)
    requires Inv(s) && p < NPROC
    ensures Inv(ChargeTick(s)) && (Lost(ChargeTick(s), p) <==> Lost(s, p))
  {
    if s.current >= 0 {
      var c := s.procs[s.current];
      NotQueued(s, s.current);
      if c.time + 1 < Quantum(c.level) {
        TableInv(s, ChargeTick(s));
      } else {
        var down := if c.level < LEVELS - 1 then c.level + 1 else c.level;
        var s1 := s.(procs := s.procs[s.current := c.(time := 0, level := down, state := Runnable)], current := -1);
        TableInv(s, s1);
        EnqueueInv(s1, s.current);
      }
    }
  }

  lemma TickInv(s: Sys, p: nat)
    requires Inv(s) && p < NPROC
    ensures Inv(Do(s, Tick)) && (Lost(Do(s, Tick), p) <==> Lost(s, p))
  {
    hide Once, QueuedRunnable, Queued, Wake, ChargeTick;
    var s1 := Wake(s, TICKS);
    WakeInv(s, TICKS);
    WakeQueued(s, TICKS, p);
    WakeProcs(s, TICKS, p);
    var s2 := s1.(sinceBoost := s.sinceBoost + 1);
    TableInv(s1, s2);
    assert Lost(s2, p) <==> Lost(s, p);
    ChargeInv(s2, p);
  }

  lemma RoundInv(s: Sys, p: nat)
    requires Inv(s) && p < NPROC && s.current == -1
    ensures Inv(Do(s, Round)) && (Lost(Do(s, Round), p) <==> Lost(s, p) && !BoostDue(s))
  {
    BoostInv(s);
    var s1 := if BoostDue(s) then Boost(s) else s;
    ScanIs(s1, 0);
    var l := Top(s1.queues, 0);
    if l < LEVELS {
      assert At(s1.queues, l, 0, s1.queues[l][0]);
      DispatchInv(s1, l);
    }
  }

  lemma ForkInv(s: Sys, k: nat, p: nat)
    requires Inv(s) && p < NPROC && k < NPROC && s.procs[k].state == Used
    ensures Inv(Do(s, Fork(k))) && (Lost(Do(s, Fork(k)), p) <==> Lost(s, p))
  {
    var s1 := s.(procs := s.procs[k := s.procs[k].(state := Runnable)]);
    NotQueued(s, k);
    TableInv(s, s1);
    EnqueueInv(s1, k);
  }

  lemma TableStep(s: Sys, e: Event, p: nat)
    requires Inv(s) && Enabled(s, e) && p < NPROC && (e.Alloc? || e.UserInit? || e.Free? || e.Kill? || e.BoostOne?)
    ensures Inv(Do(s, e)) && (Lost(Do(s, e), p) <==> Strands(s, e, p) || Lost(s, p))
  {
    hide Scan, Wake, Boost, Leave, ChargeTick, Once, QueuedRunnable, Queued;
    if s.procs[p].state != Runnable {
      NotQueued(s, p);
    }
    TableInv(s, Do(s, e));
  }

  /** Every step keeps the invariant, and a process is lost from its stranding to the next boost. */
  lemma StepInv(s: Sys, e: Event, p: nat)
    requires Inv(s) && Enabled(s, e) && p < NPROC
    ensures Inv(Do(s, e)) && (Lost(Do(s, e), p) <==> Strands(s, e, p) || (Lost(s, p) && !Boosts(s, e)))
  {
    hide Scan, Wake, Boost, Leave, ChargeTick, Once, QueuedRunnable, Queued;
    match e {
      case Fork(k) => ForkInv(s, k, p);
      case Tick => TickInv(s, p);
      case Yield => LeaveInv(s, Runnable, s.procs[s.current].chan, p);
      case Sleep(chan) => LeaveInv(s, Sleeping, chan, p);
      case Exit => LeaveInv(s, Zombie, s.procs[s.current].chan, p);
      case Wakeup(chan) => WakeInv(s, chan); WakeQueued(s, chan, p); WakeProcs(s, chan, p);
      case BoostAll => BoostInv(s); BoostProcs(s, p);
      case Round => RoundInv(s, p);
      case _ => TableStep(s, e, p);
    }
  }

  lemma WakeProcs(s: Sys, chan: nat, p: nat)
    requires Shape(s) && p < NPROC
    ensures |Wake(s, chan).procs| == NPROC
    ensures Wake(s, chan).procs[p] == if Woken(s, chan, p) then s.procs[p].(state := Runnable) else s.procs[p]
  {}

  lemma BoostProcs(s: Sys, p: nat)
    requires Shape(s) && p < NPROC
    ensures |Boost(s).procs| == NPROC
    ensures Boost(s).procs[p] == if s.procs[p].state == Runnable then s.procs[p].(level := 0, time := 0) else s.procs[p]
  {}

  // ---------------------------------------------------------------- runs

  ghost predicate Legal(s: Sys, es: seq<Event>)
    requires Inv(s)
    decreases |es|, 0
  {
    es == [] || (Legal(s, es[..|es| - 1]) && Enabled(Exec(s, es[..|es| - 1]), es[|es| - 1]))
  }

  ghost function Exec(s: Sys, es: seq<Event>): (r: Sys)
    requires Inv(s) && Legal(s, es)
    ensures Inv(r)
    decreases |es|, 1
  {
    if es == [] then s
    else
      var s1 := Exec(s, es[..|es| - 1]);
      StepInv(s1, es[|es| - 1], 0);
      Do(s1, es[|es| - 1])
  }

  /** After procinit. */
  ghost function Boot(): (s: Sys)
    ensures Inv(s) && forall p :: 0 <= p < NPROC ==> s.procs[p].state == Unused
  {
    Sys(seq(NPROC, _ => Proc(Unused, 0, 0, false, 0, 0)), [[], [], [], []], 0, -1)
  }

  /** p was stranded and no boost has come since. */
  ghost predicate Stranded(s: Sys, es: seq<Event>, p: nat)
    requires Inv(s) && Legal(s, es) && p < NPROC
    decreases |es|
  {
    if es == [] then Lost(s, p)
    else
      var s1, e := Exec(s, es[..|es| - 1]), es[|es| - 1];
      Strands(s1, e, p) || (Stranded(s, es[..|es| - 1], p) && !Boosts(s1, e))
  }

  /**
    A runnable process is in exactly one queue, once, unless it was made runnable by userinit or by
    a kill and no boost has come since; then it is in none.
   */
  lemma {:induction false} QueueExact(s: Sys, es: seq<Event>, p: nat)
    requires Inv(s) && Legal(s, es) && p < NPROC
    ensures Lost(Exec(s, es), p) <==> Stranded(s, es, p)
  {
    if es != [] {
      QueueExact(s, es[..|es| - 1], p);
      StepInv(Exec(s, es[..|es| - 1]), es[|es| - 1], p);
    }
  }

  // ---------------------------------------------------------------- charging for processor time

  /** Level and time in the level after t ticks of running since the last reset. */
  function Charge(t: nat): (nat, nat) {
    if t < 2 then (0, t) else if t < 6 then (1, t - 2) else if t < 14 then (2, t - 6) else (3, (t - 14) % 16)
  }

  function Account(s: Sys, p: nat): (nat, nat)
    requires p < |s.procs|
  {
    (s.procs[p].level, s.procs[p].time)
  }

  predicate Resets(s: Sys, e: Event, p: nat)
    requires p < |s.procs|
  {
    || (e.Alloc? && e.slot == p)
    || (e.Free? && e.slot == p)
    || (Boosts(s, e) && s.procs[p].state == Runnable)
    || (e.BoostOne? && PidSlot(s.procs, e.pid, 0) == p)
  }

  /** A tick that falls on p while it runs. */
  predicate Charges(s: Sys, e: Event, p: nat) { e.Tick? && s.current == p }

  lemma ChargeNext(t: nat)
    ensures Charge(t).1 < Quantum(Charge(t).0) && Charge(t).0 < LEVELS
    ensures Charge(t + 1) == if Charge(t).1 + 1 < Quantum(Charge(t).0) then (Charge(t).0, Charge(t).1 + 1)
                             else (if Charge(t).0 < LEVELS - 1 then Charge(t).0 + 1 else Charge(t).0, 0)
  {}

  lemma StepAccount(s: Sys, e: Event, p: nat, t: nat)
    requires Inv(s) && Enabled(s, e) && p < NPROC && Account(s, p) == Charge(t)
    ensures |Do(s, e).procs| == NPROC
    ensures Account(Do(s, e), p) == Charge(if Resets(s, e, p) then 0 else if Charges(s, e, p) then t + 1 else t)
  {
    hide Once, QueuedRunnable, Scan, Wake, Boost, ChargeTick, Charge;
    assert Charge(0) == (0, 0) by { ChargeZero(); }
    match e {
      case Wakeup(chan) => WakeProcs(s, chan, p);
      case Tick => TickAccount(s, p, t);
      case BoostAll => BoostProcs(s, p);
      case Round => RoundAccount(s, p);
      case _ =>
    }
  }

  lemma TickAccount(s: Sys, p: nat, t: nat)
    requires Inv(s) && p < NPROC && Account(s, p) == Charge(t)
    ensures |Do(s, Tick).procs| == NPROC && Account(Do(s, Tick), p) == Charge(if s.current == p then t + 1 else t)
  {
    hide Once, QueuedRunnable, Wake, Charge;
    WakeInv(s, TICKS);
    WakeProcs(s, TICKS, p);
    ChargeNext(t);
  }

  lemma ChargeZero()
    ensures Charge(0) == (0, 0)
  {}

  lemma RoundAccount(s: Sys, p: nat)
    requires Inv(s) && p < NPROC && s.current == -1
    ensures |Do(s, Round).procs| == NPROC
    ensures Account(Do(s, Round), p) == if BoostDue(s) && s.procs[p].state == Runnable then (0, 0) else Account(s, p)
  {
    BoostInv(s);
    BoostProcs(s, p);
    ScanIs(if BoostDue(s) then Boost(s) else s, 0);
  }

  /** Ticks charged to p since its last reset, t of them before the run. */
  ghost function Spent(s: Sys, es: seq<Event>, p: nat, t: nat): nat
    requires Inv(s) && Legal(s, es) && p < NPROC
    decreases |es|
  {
    if es == [] then t
    else
      var s1, e, t1 := Exec(s, es[..|es| - 1]), es[|es| - 1], Spent(s, es[..|es| - 1], p, t);
      if Resets(s1, e, p) then 0 else if Charges(s1, e, p) then t1 + 1 else t1
  }

  /**
    The level of a process is a function of the ticks it has run since its last reset: however it
    splits its running by sleeping, yielding or being woken, it moves down after 2, 6 and 14 ticks.
   */
  lemma {:induction false} NoGaming(s: Sys, es: seq<Event>, p: nat, t: nat)
    requires Inv(s) && Legal(s, es) && p < NPROC && Account(s, p) == Charge(t)
    ensures Account(Exec(s, es), p) == Charge(Spent(s, es, p, t))
  {
    if es != [] {
      NoGaming(s, es[..|es| - 1], p, t);
      StepAccount(Exec(s, es[..|es| - 1]), es[|es| - 1], p, Spent(s, es[..|es| - 1], p, t));
    }
  }

  /** Within every run from boot. */
  lemma AccountFromBoot(es: seq<Event>, p: nat)
    requires Legal(Boot(), es) && p < NPROC
    ensures Account(Exec(Boot(), es), p) == Charge(Spent(Boot(), es, p, 0))
  {
    NoGaming(Boot(), es, p, 0);
  }

  // ---------------------------------------------------------------- who is dispatched

  /** The process a step dispatches, if any. */
  ghost function Dispatched(s: Sys, e: Event): seq<nat>
    requires Inv(s) && Enabled(s, e)
  {
    if e.Round? && Do(s, e).current >= 0 then [Do(s, e).current] else []
  }

  /**
    Strict priority: a round dispatches the first process of the first queue that is not empty,
    after a boost if one is due, and nothing only if all queues are empty.
   */
  lemma StrictPriority(s: Sys)
    requires Inv(s) && s.current == -1
    ensures var q := if BoostDue(s) then Boost(s).queues else s.queues;
            && |q| == LEVELS
            && (Dispatched(s, Round) == [] <==> forall p :: !Queued(q, p))
            && (Dispatched(s, Round) != [] ==> exists l :: At(q, l, 0, Dispatched(s, Round)[0]) && NoneAbove(q, l))
  {
    BoostInv(s);
    var s1 := if BoostDue(s) then Boost(s) else s;
    ScanIs(s1, 0);
    var l := Top(s1.queues, 0);
    if l < LEVELS {
      assert At(s1.queues, l, 0, s1.queues[l][0]);
      assert Queued(s1.queues, s1.queues[l][0]) && NoneAbove(s1.queues, l);
    }
  }

  ghost predicate NoneAbove(queues: seq<seq<nat>>, l: int) {
    forall m, i, p :: At(queues, m, i, p) ==> l <= m
  }

  /** Without a boost, the top queue is served from the front and grows at the back. */
  lemma TopStep(s: Sys, e: Event)
    requires Inv(s) && Enabled(s, e) && !Boosts(s, e)
    ensures |Do(s, e).queues| == LEVELS
    ensures Dispatched(s, e) == [] ==> s.queues[0] <= Do(s, e).queues[0]
    ensures Dispatched(s, e) != [] && s.queues[0] != [] ==>
              Dispatched(s, e) == [s.queues[0][0]] && Do(s, e).queues[0] == s.queues[0][1..]
  {
    hide Once, QueuedRunnable, Scan;
    match e {
      case Round => ScanIs(s, 0);
      case Tick => WakeShape(s, TICKS);
      case _ =>
    }
  }

  ghost predicate BoostFree(s: Sys, es: seq<Event>)
    requires Inv(s) && Legal(s, es)
    decreases |es|
  {
    es == [] || (BoostFree(s, es[..|es| - 1]) && !Boosts(Exec(s, es[..|es| - 1]), es[|es| - 1]))
  }

  /** The processes dispatched in a run, in order. */
  ghost function Dispatches(s: Sys, es: seq<Event>): seq<nat>
    requires Inv(s) && Legal(s, es)
    decreases |es|
  {
    if es == [] then []
    else Dispatches(s, es[..|es| - 1]) + Dispatched(Exec(s, es[..|es| - 1]), es[|es| - 1])
  }

  /** The first dispatches of a run are the top queue at its start, in order; what has not been served is still at the front. */
  lemma {:induction false} TopFirst(s: Sys, es: seq<Event>)
    requires Inv(s) && Legal(s, es) && BoostFree(s, es)
    ensures var d, q := Dispatches(s, es), s.queues[0];
            Served(q, d, Exec(s, es).queues[0])
  {
    hide Served, Do, Dispatched;
    if es == [] {
      ServedNone(s.queues[0]);
    } else {
      var es1 := es[..|es| - 1];
      var s1, e := Exec(s, es1), es[|es| - 1];
      TopFirst(s, es1);
      TopStep(s1, e);
      ServedMore(s.queues[0], Dispatches(s, es1), s1.queues[0], Dispatched(s1, e), Do(s1, e).queues[0]);
    }
  }

  /** d are the dispatches so far and now is the top queue, which was q. */
  ghost predicate Served(q: seq<nat>, d: seq<nat>, now: seq<nat>) {
    if |d| <= |q| then d == q[..|d|] && q[|d|..] <= now else d[..|q|] == q
  }

  lemma ServedNone(q: seq<nat>)
    ensures Served(q, [], q)
  {}

  lemma ServedMore(q: seq<nat>, d: seq<nat>, now: seq<nat>, x: seq<nat>, now': seq<nat>)
    requires Served(q, d, now)
    requires x == [] ==> now <= now'
    requires x != [] && now != [] ==> x == [now[0]] && now' == now[1..]
    ensures Served(q, d + x, now')
  {}

  ghost function AfterBoost(s: Sys): (t: Sys)
    requires Inv(s)
    ensures Inv(t)
  {
    BoostInv(s);
    Boost(s)
  }

  /**
    After a boost every process that was runnable is dispatched once, in table order, before any
    other dispatch, whatever is forked, woken, killed or demoted meanwhile.
   */
  lemma BoostServesAll(s: Sys, es: seq<Event>, k: nat)
    requires Inv(s) && Legal(AfterBoost(s), es) && BoostFree(AfterBoost(s), es)
    requires k < |Dispatches(AfterBoost(s), es)| && k < |Runnables(s.procs, NPROC)|
    ensures Dispatches(AfterBoost(s), es)[k] == Runnables(s.procs, NPROC)[k]
  {
    TopFirst(AfterBoost(s), es);
    assert Boost(s).queues[0] == Runnables(s.procs, NPROC);
  }

  function Ticks(es: seq<Event>): nat {
    if es == [] then 0 else Ticks(es[..|es| - 1]) + if es[|es| - 1].Tick? then 1 else 0
  }

  lemma StepClock(s: Sys, e: Event)
    requires Inv(s) && Enabled(s, e) && !Boosts(s, e)
    ensures Do(s, e).sinceBoost == s.sinceBoost + if e.Tick? then 1 else 0
  {}

  /** Fewer than BOOST_INTERVAL ticks after a boost no other boost comes, unless a process asks for one. */
  lemma {:induction false} NoEarlyBoost(s: Sys, es: seq<Event>)
    requires Inv(s) && Legal(s, es) && BoostAll !in es && s.sinceBoost + Ticks(es) < BOOST_INTERVAL
    ensures BoostFree(s, es) && Exec(s, es).sinceBoost == s.sinceBoost + Ticks(es)
  {
    if es != [] {
      NoEarlyBoost(s, es[..|es| - 1]);
      StepClock(Exec(s, es[..|es| - 1]), es[|es| - 1]);
    }
  }

  /** No starvation: within NPROC dispatches of a boost every process that was runnable has run. */
  lemma NoStarvation(s: Sys, es: seq<Event>, p: nat)
    requires Inv(s) && p < NPROC && s.procs[p].state == Runnable
    requires Legal(AfterBoost(s), es) && BoostAll !in es && Ticks(es) < BOOST_INTERVAL
    requires |Dispatches(AfterBoost(s), es)| >= NPROC
    ensures p in Dispatches(AfterBoost(s), es)[..NPROC]
  {
    NoEarlyBoost(AfterBoost(s), es);
    RunnablesIs(s.procs, NPROC);
    var k :| 0 <= k < |Runnables(s.procs, NPROC)| && Runnables(s.procs, NPROC)[k] == p;
    BoostServesAll(s, es, k);
    assert Dispatches(AfterBoost(s), es)[..NPROC][k] == p;
  }

  /** With no more ticks than dispatches, everyone that was runnable at a boost runs before the next automatic one is due. */
  lemma ServedBeforeNextBoost(s: Sys, es: seq<Event>, p: nat)
    requires Inv(s) && p < NPROC && s.procs[p].state == Runnable
    requires Legal(AfterBoost(s), es) && BoostAll !in es && Ticks(es) == BOOST_INTERVAL - 1
    requires Ticks(es) <= |Dispatches(AfterBoost(s), es)|
    ensures p in Dispatches(AfterBoost(s), es)
  {
    NoStarvation(s, es, p);
    var k :| 0 <= k < NPROC && Dispatches(AfterBoost(s), es)[..NPROC][k] == p;
    assert Dispatches(AfterBoost(s), es)[k] == p;
  }

  /** A stranded process is not dispatched until a boost comes. */
  lemma {:induction false} StrandedWaits(s: Sys, es: seq<Event>, p: nat)
    requires Inv(s) && Legal(s, es) && BoostFree(s, es) && p < NPROC && Lost(s, p)
    ensures Lost(Exec(s, es), p) && p !in Dispatches(s, es)
  {
    if es != [] {
      var s1, e := Exec(s, es[..|es| - 1]), es[|es| - 1];
      StrandedWaits(s, es[..|es| - 1], p);
      StepInv(s1, e, p);
      if e.Round? {
        ScanIs(s1, 0);
      }
    }
  }

  // ---------------------------------------------------------------- queue and level

  /** Every queued process is in the queue of its level. */
  ghost predicate Placed(s: Sys) {
    forall l, i, p :: At(s.queues, l, i, p) && p < |s.procs| ==> s.procs[p].level == l
  }

  /** sys_boostproc of one process does not move it: it stays in the lower queue it was in. */
  lemma BoostOneMisplaces(s: Sys, pid: nat, p: nat)
    requires Inv(s) && Placed(s) && p == PidSlot(s.procs, pid, 0)
    ensures Do(s, BoostOne(pid)).queues == s.queues
    ensures Placed(Do(s, BoostOne(pid))) <==> forall l, i :: At(s.queues, l, i, p) ==> l == 0
  {}

  /** Every other step keeps queued processes in the queue of their level. */
  lemma StepPlaced(s: Sys, e: Event)
    requires Inv(s) && Placed(s) && Enabled(s, e) && !e.BoostOne?
    ensures Placed(Do(s, e))
  {
    StepInv(s, e, 0);
    forall l, i, p | At(Do(s, e).queues, l, i, p) && p < NPROC ensures Do(s, e).procs[p].level == l {
      PlacedAt(s, e, l, i, p);
    }
  }

  /** In a run without sys_boostproc of one process, every queued process is in the queue of its level. */
  lemma {:induction false} RunPlaced(s: Sys, es: seq<Event>)
    requires Inv(s) && Legal(s, es) && Placed(s) && forall i :: 0 <= i < |es| ==> !es[i].BoostOne?
    ensures Placed(Exec(s, es))
  {
    if es != [] {
      RunPlaced(s, es[..|es| - 1]);
      StepPlaced(Exec(s, es[..|es| - 1]), es[|es| - 1]);
    }
  }

  lemma BoostPlaced(s: Sys)
    requires Inv(s)
    ensures Placed(Boost(s))
  {
    AtBoost(s);
    RunnablesIs(s.procs, NPROC);
  }

  lemma RoundPlaced(s: Sys, l: int, i: int, p: nat)
    requires Inv(s) && Placed(s) && s.current == -1 && |Do(s, Round).procs| == NPROC && p < NPROC && At(Do(s, Round).queues, l, i, p)
    ensures Do(s, Round).procs[p].level == l
  {
    hide Once, Boost, Scan;
    BoostInv(s);
    BoostPlaced(s);
    var s1 := if BoostDue(s) then Boost(s) else s;
    ScanIs(s1, 0);
    var m := Top(s1.queues, 0);
    if m < LEVELS {
      AtDequeue(s1.queues, m);
      assert At(s1.queues, l, if l == m then i + 1 else i, p);
    }
  }

  lemma TickPlaced(s: Sys, l: int, i: int, p: nat)
    requires Inv(s) && Placed(s) && |Do(s, Tick).procs| == NPROC && p < NPROC && At(Do(s, Tick).queues, l, i, p)
    ensures Do(s, Tick).procs[p].level == l
  {
    hide Once, Wake, WokenAt;
    WakeShape(s, TICKS);
    AtWake(s, TICKS, l, i, p);
    WokenAtIs(s, TICKS, l, NPROC);
    WakeProcs(s, TICKS, p);
    if s.current >= 0 {
      WakeProcs(s, TICKS, s.current);
    }
  }

  lemma PlacedAt(s: Sys, e: Event, l: int, i: int, p: nat)
    requires Inv(s) && Placed(s) && Enabled(s, e) && !e.BoostOne? && |Do(s, e).procs| == NPROC && p < NPROC
    requires At(Do(s, e).queues, l, i, p)
    ensures Do(s, e).procs[p].level == l
  {
    hide Once, Boost, Scan, ChargeTick;
    match e {
      case Round => RoundPlaced(s, l, i, p);
      case Wakeup(chan) => AtWake(s, chan, l, i, p); WokenAtIs(s, chan, l, NPROC); WakeProcs(s, chan, p);
      case Tick => TickPlaced(s, l, i, p);
      case BoostAll => BoostPlaced(s);
      case Alloc(_, _) => assert At(s.queues, l, i, p);
      case Free(_) => assert At(s.queues, l, i, p);
      case UserInit(_) => assert At(s.queues, l, i, p);
      case Kill(_) => assert At(s.queues, l, i, p);
      case BoostOne(_) =>
      case _ => assert l == Do(s, e).procs[p].level || At(s.queues, l, i, p);
    }
  }
}
