/** What each step, and each run, does to the processes one by one and to each queue: the laws of sleep, wakeup, kill and order. */
module MlfqLaws {
  import opened Mlfq
  import opened MlfqRuns

  // ---------------------------------------------------------------- one process

  /** A kill of the pid of p, when no slot before p has that pid. */
  predicate Hits(s: Sys, e: Event, p: nat)
    requires p < |s.procs|
  {
    e.Kill? && s.procs[p].pid == e.pid && forall q :: 0 <= q < p ==> s.procs[q].pid != e.pid
  }

  /** What ends the sleep of a process on channel c: a wakeup of c, the clock if that is what it sleeps on, or a kill. */
  predicate Rouses(s: Sys, e: Event, p: nat, c: nat)
    requires p < |s.procs|
  {
    e == Wakeup(c) || (e.Tick? && c == TICKS) || Hits(s, e, p)
  }

  /** A tick uses up the quantum of p. */
  predicate Expires(s: Sys, e: Event, p: nat)
    requires p < |s.procs|
  {
    e.Tick? && s.current == p && s.procs[p].time + 1 >= Quantum(s.procs[p].level)
  }

  ghost function NextState(s: Sys, e: Event, p: nat): PState
    requires Inv(s) && Enabled(s, e) && p < NPROC
  {
    var st := s.procs[p].state;
    if e.Alloc? && e.slot == p then Used
    else if (e.UserInit? || e.Fork?) && e.slot == p then Runnable
    else if e.Free? && e.slot == p then Unused
    else if s.current == p && (e.Yield? || Expires(s, e, p)) then Runnable
    else if s.current == p && e.Sleep? then Sleeping
    else if s.current == p && e.Exit? then Zombie
    else if st == Sleeping && Rouses(s, e, p, s.procs[p].chan) then Runnable
    else if Dispatched(s, e) == [p] then Running
    else st
  }

  /** What a step does to a process, but for level and time, which are accounted for elsewhere, and who runs then. */
  ghost predicate Steps(s: Sys, e: Event, p: nat, t: Sys)
    requires Inv(s) && Enabled(s, e) && p < NPROC && |t.procs| == NPROC
  {
    && t.procs[p].state == NextState(s, e, p)
    && t.procs[p].chan == (if e.Sleep? && s.current == p then e.chan else if e.Free? && e.slot == p then 0 else s.procs[p].chan)
    && t.procs[p].killed == (Hits(s, e, p) || (s.procs[p].killed && !(e.Free? && e.slot == p)))
    && t.procs[p].pid == (if e.Alloc? && e.slot == p then e.pid else if e.Free? && e.slot == p then 0 else s.procs[p].pid)
    && (t.current == p <==> Dispatched(s, e) == [p] || (s.current == p && !e.Yield? && !e.Sleep? && !e.Exit? && !Expires(s, e, p)))
  }

  lemma StepProc(s: Sys, e: Event, p: nat)
    requires Inv(s) && Enabled(s, e) && p < NPROC
    ensures |Do(s, e).procs| == NPROC && Steps(s, e, p, Do(s, e))
  {
    hide Inv, Do, Steps;
    match e {
      case Alloc(_, _) => TableProc(s, e, p);
      case UserInit(_) => TableProc(s, e, p);
      case Fork(_) => TableProc(s, e, p);
      case Free(_) => TableProc(s, e, p);
      case BoostOne(_) => TableProc(s, e, p);
      case Yield => LeaveProc(s, e, p);
      case Sleep(_) => LeaveProc(s, e, p);
      case Exit => LeaveProc(s, e, p);
      case Wakeup(_) => OtherProc(s, e, p);
      case Kill(_) => OtherProc(s, e, p);
      case BoostAll => OtherProc(s, e, p);
      case Tick => TickProc(s, p);
      case Round => RoundProc(s, p);
    }
  }

  lemma TableProc(s: Sys, e: Event, p: nat)
    requires Inv(s) && Enabled(s, e) && p < NPROC && (e.Alloc? || e.UserInit? || e.Fork? || e.Free? || e.BoostOne?)
    ensures |Do(s, e).procs| == NPROC && Steps(s, e, p, Do(s, e))
  {
    hide Once, QueuedRunnable, Scan, Wake, Boost, ChargeTick, Leave;
  }

  lemma LeaveProc(s: Sys, e: Event, p: nat)
    requires Inv(s) && Enabled(s, e) && p < NPROC && (e.Yield? || e.Sleep? || e.Exit?)
    ensures |Do(s, e).procs| == NPROC && Steps(s, e, p, Do(s, e))
  {
    hide Once, QueuedRunnable, Scan, Wake, Boost, ChargeTick;
  }

  lemma OtherProc(s: Sys, e: Event, p: nat)
    requires Inv(s) && Enabled(s, e) && p < NPROC && (e.Wakeup? || e.Kill? || e.BoostAll?)
    ensures |Do(s, e).procs| == NPROC && Steps(s, e, p, Do(s, e))
  {
    hide Once, QueuedRunnable, Scan, Wake, Boost, ChargeTick, Leave;
    if e.Wakeup? {
      WakeProcs(s, e.chan, p);
      WakeCurrent(s, e.chan);
    } else if e.BoostAll? {
      BoostProcs(s, p);
      BoostShape(s);
    } else {
      KillSlot(s, e.pid, p);
    }
  }

  lemma KillSlot(s: Sys, pid: nat, p: nat)
    requires p < |s.procs|
    ensures PidSlot(s.procs, pid, 0) == p <==> Hits(s, Kill(pid), p)
  {}

  lemma TickProc(s: Sys, p: nat)
    requires Inv(s) && p < NPROC
    ensures |Do(s, Tick).procs| == NPROC && Steps(s, Tick, p, Do(s, Tick))
  {
    hide Once, QueuedRunnable, Wake;
    WakeInv(s, TICKS);
    WakeProcs(s, TICKS, p);
    if s.current >= 0 {
      WakeProcs(s, TICKS, s.current);
    }
  }

  lemma RoundProc(s: Sys, p: nat)
    requires Inv(s) && p < NPROC && s.current == -1
    ensures |Do(s, Round).procs| == NPROC && Steps(s, Round, p, Do(s, Round))
  {
    BoostInv(s);
    BoostProcs(s, p);
    ScanIs(if BoostDue(s) then Boost(s) else s, 0);
  }

  lemma WakeCurrent(s: Sys, chan: nat)
    requires |s.queues| == LEVELS
    ensures Wake(s, chan).current == s.current
  {}

  // ---------------------------------------------------------------- sleep and wakeup

  predicate Asleep(s: Sys, p: nat, c: nat)
    requires p < |s.procs|
  {
    s.procs[p].state == Sleeping && s.procs[p].chan == c
  }

  /** No step of the run rouses p from a sleep on c. */
  ghost predicate Undisturbed(s: Sys, es: seq<Event>, p: nat, c: nat)
    requires Inv(s) && Legal(s, es) && p < NPROC
    decreases |es|
  {
    es == [] || (Undisturbed(s, es[..|es| - 1], p, c) && !Rouses(Exec(s, es[..|es| - 1]), es[|es| - 1], p, c))
  }

  /** sleep(c) puts the running process to sleep on c, in no queue, and nobody runs. */
  lemma FallsAsleep(s: Sys, c: nat)
    requires Inv(s) && s.current >= 0
    ensures var t := Do(s, Sleep(c)); |t.procs| == NPROC && Asleep(t, s.current, c) && !Queued(t.queues, s.current) && t.current == -1
  {
    NotQueued(s, s.current);
  }

  /** It sleeps on, in no queue, until something rouses it, */
  lemma {:induction false} SleepsOn(s: Sys, es: seq<Event>, p: nat, c: nat)
    requires Inv(s) && Legal(s, es) && p < NPROC && Asleep(s, p, c) && Undisturbed(s, es, p, c)
    ensures Asleep(Exec(s, es), p, c) && !Queued(Exec(s, es).queues, p)
  {
    NotQueued(Exec(s, es), p) by { SleepsState(s, es, p, c); }
    SleepsState(s, es, p, c);
  }

  lemma {:induction false} SleepsState(s: Sys, es: seq<Event>, p: nat, c: nat)
    requires Inv(s) && Legal(s, es) && p < NPROC && Asleep(s, p, c) && Undisturbed(s, es, p, c)
    ensures Asleep(Exec(s, es), p, c)
  {
    hide Do;
    if es != [] {
      var s1, e := Exec(s, es[..|es| - 1]), es[|es| - 1];
      SleepsState(s, es[..|es| - 1], p, c);
      StepProc(s1, e, p);
      NotDispatched(s1, e, p);
    }
  }

  /** Only a process that can run is dispatched. */
  lemma NotDispatched(s: Sys, e: Event, p: nat)
    requires Inv(s) && Enabled(s, e) && p < NPROC && s.procs[p].state != Runnable
    ensures Dispatched(s, e) != [p]
  {
    if e.Round? {
      BoostInv(s);
      BoostProcs(s, p);
      var s1 := if BoostDue(s) then Boost(s) else s;
      ScanIs(s1, 0);
      var l := Top(s1.queues, 0);
      if l < LEVELS {
        assert At(s1.queues, l, 0, s1.queues[l][0]);
      }
    }
  }

  /**
    and a wakeup does so exactly if it is for the channel: then the process is runnable and behind all that its queue held;
    otherwise it sleeps on.
   */
  lemma WakesUp(s: Sys, p: nat, c: nat, d: nat)
    requires Inv(s) && p < NPROC && Asleep(s, p, c)
    ensures var t, l := Do(s, Wakeup(d)), s.procs[p].level;
            && |t.procs| == NPROC && |t.queues| == LEVELS && l < LEVELS
            && (if d == c then t.procs[p].state == Runnable && exists i :: i >= |s.queues[l]| && At(t.queues, l, i, p)
                else Asleep(t, p, c) && !Queued(t.queues, p))
  {
    WakeProcs(s, d, p);
    WakeQueued(s, d, p);
    NotQueued(s, p);
    var l := s.procs[p].level;
    if d == c {
      WokenAtIs(s, d, l, NPROC);
      var k :| 0 <= k < |WokenAt(s, d, l, NPROC)| && WokenAt(s, d, l, NPROC)[k] == p;
      AtWake(s, d, l, |s.queues[l]| + k, p);
    }
  }

  /** The three together: from sleep(c) through any run that does not rouse it, a wakeup of d makes it runnable if and only if d is c. */
  lemma SleepWakeup(s: Sys, es: seq<Event>, c: nat, d: nat)
    requires Inv(s) && s.current >= 0 && Inv(Do(s, Sleep(c))) && Legal(Do(s, Sleep(c)), es) && Undisturbed(Do(s, Sleep(c)), es, s.current, c)
    ensures var u, p := Exec(Do(s, Sleep(c)), es), s.current;
            && Asleep(u, p, c) && !Queued(u.queues, p) && |Do(u, Wakeup(d)).procs| == NPROC
            && (Do(u, Wakeup(d)).procs[p].state == Runnable <==> d == c) && (Queued(Do(u, Wakeup(d)).queues, p) <==> d == c)
  {
    FallsAsleep(s, c);
    hide Do;
    var u, p := Exec(Do(s, Sleep(c)), es), s.current;
    SleepsOn(Do(s, Sleep(c)), es, p, c);
    WakesUp(u, p, c, d);
  }

  // ---------------------------------------------------------------- kill

  /** Some kill in the run hit p, and p has not been freed since. */
  ghost predicate KilledIn(s: Sys, es: seq<Event>, p: nat)
    requires Inv(s) && Legal(s, es) && p < NPROC
    decreases |es|
  {
    if es == [] then s.procs[p].killed
    else
      var s1, e := Exec(s, es[..|es| - 1]), es[|es| - 1];
      Hits(s1, e, p) || (KilledIn(s, es[..|es| - 1], p) && e != Free(p))
  }

  lemma {:induction false} KilledExact(s: Sys, es: seq<Event>, p: nat)
    requires Inv(s) && Legal(s, es) && p < NPROC
    ensures Exec(s, es).procs[p].killed <==> KilledIn(s, es, p)
  {
    hide Do;
    if es != [] {
      KilledExact(s, es[..|es| - 1], p);
      StepProc(Exec(s, es[..|es| - 1]), es[|es| - 1], p);
    }
  }

  // ---------------------------------------------------------------- the order of each queue

  /** What a step that does not boost adds to queue l. */
  ghost function Arrivals(s: Sys, e: Event, l: nat): seq<nat>
    requires Inv(s) && Enabled(s, e) && l < LEVELS
  {
    match e
    case Fork(p) => if s.procs[p].level == l then [p] else []
    case Yield => if s.procs[s.current].level == l then [s.current as nat] else []
    case Wakeup(chan) => WokenAt(s, chan, l, NPROC)
    case Tick =>
      WokenAt(s, TICKS, l, NPROC) +
      if s.current >= 0 && Expires(s, e, s.current) && Below(s.procs[s.current].level) == l then [s.current as nat] else []
    case _ => []
  }

  /** The level a process moves down to. */
  function Below(level: nat): nat { if level < LEVELS - 1 then level + 1 else level }

  /** What it takes from it. */
  ghost function Departures(s: Sys, e: Event, l: nat): seq<nat>
    requires Inv(s) && Enabled(s, e) && l < LEVELS
  {
    if e.Round? && Top(s.queues, 0) == l then [s.queues[l][0]] else []
  }

  lemma QueueStep(s: Sys, e: Event, l: nat)
    requires Inv(s) && Enabled(s, e) && !Boosts(s, e) && l < LEVELS
    ensures |Do(s, e).queues| == LEVELS && s.queues[l] + Arrivals(s, e, l) == Departures(s, e, l) + Do(s, e).queues[l]
    ensures Dispatched(s, e) == if e.Round? && Top(s.queues, 0) < LEVELS then Departures(s, e, Top(s.queues, 0)) else []
  {
    if e.Tick? {
      TickQueue(s, l);
    } else if e.Round? {
      hide Once, QueuedRunnable, Scan;
      ScanIs(s, 0);
    } else {
      hide Once, QueuedRunnable, Scan, ChargeTick;
    }
  }

  lemma TickQueue(s: Sys, l: nat)
    requires Inv(s) && l < LEVELS
    ensures |Do(s, Tick).queues| == LEVELS && s.queues[l] + Arrivals(s, Tick, l) == Do(s, Tick).queues[l]
  {
    hide Once, QueuedRunnable, Scan, WokenAt;
    WakeShape(s, TICKS);
    var s1 := Wake(s, TICKS);
    assert s1.queues[l] == s.queues[l] + WokenAt(s, TICKS, l, NPROC);
    if s.current >= 0 {
      WakeProcs(s, TICKS, s.current);
    }
  }

  ghost function AllArrivals(s: Sys, es: seq<Event>, l: nat): seq<nat>
    requires Inv(s) && Legal(s, es) && l < LEVELS
    decreases |es|
  {
    if es == [] then [] else AllArrivals(s, es[..|es| - 1], l) + Arrivals(Exec(s, es[..|es| - 1]), es[|es| - 1], l)
  }

  ghost function AllDepartures(s: Sys, es: seq<Event>, l: nat): seq<nat>
    requires Inv(s) && Legal(s, es) && l < LEVELS
    decreases |es|
  {
    if es == [] then [] else AllDepartures(s, es[..|es| - 1], l) + Departures(Exec(s, es[..|es| - 1]), es[|es| - 1], l)
  }

  /** Between boosts every queue is first in, first out: what it held and what came are what was dispatched from it and what it holds. */
  lemma {:induction false} QueueFifo(s: Sys, es: seq<Event>, l: nat)
    requires Inv(s) && Legal(s, es) && BoostFree(s, es) && l < LEVELS
    ensures s.queues[l] + AllArrivals(s, es, l) == AllDepartures(s, es, l) + Exec(s, es).queues[l]
  {
    hide Do, Arrivals, Departures;
    if es != [] {
      var es1 := es[..|es| - 1];
      var s1, e := Exec(s, es1), es[|es| - 1];
      QueueFifo(s, es1, l);
      QueueStep(s1, e, l);
      calc {
        s.queues[l] + (AllArrivals(s, es1, l) + Arrivals(s1, e, l));
        (s.queues[l] + AllArrivals(s, es1, l)) + Arrivals(s1, e, l);
        (AllDepartures(s, es1, l) + s1.queues[l]) + Arrivals(s1, e, l);
        AllDepartures(s, es1, l) + (s1.queues[l] + Arrivals(s1, e, l));
        AllDepartures(s, es1, l) + (Departures(s1, e, l) + Do(s1, e).queues[l]);
        (AllDepartures(s, es1, l) + Departures(s1, e, l)) + Do(s1, e).queues[l];
      }
    }
  }
}
