/** Runs from boot in which the first process is never found by the scheduler, and in which sys_boostproc leaves it in a lower queue. */
module MlfqCases {
  import opened Mlfq
  import opened MlfqRuns

  function Idle(): Proc { Proc(PState.Unused, 0, 0, false, 0, 0) }

  /** Only slot 0 is in use. */
  function Solo(p: Proc, queues: seq<seq<nat>>, sinceBoost: nat, current: int): (s: Sys)
    ensures |s.procs| == NPROC && s.procs[0] == p && forall i :: 0 < i < NPROC ==> s.procs[i] == Idle()
  {
    Sys(seq(NPROC, i => if i == 0 then p else Idle()), queues, sinceBoost, current)
  }

  function Empty(): seq<seq<nat>> { [[], [], [], []] }

  lemma BootIs()
    ensures Boot() == Solo(Idle(), Empty(), 0, -1)
  {
    assert Boot().procs == Solo(Idle(), Empty(), 0, -1).procs;
  }

  lemma SetSolo(p: Proc, q: Proc, queues: seq<seq<nat>>, sinceBoost: nat, current: int)
    ensures Solo(p, queues, sinceBoost, current).procs[0 := q] == Solo(q, queues, sinceBoost, current).procs
  {}

  lemma Step(s: Sys, es: seq<Event>, e: Event)
    requires Inv(s) && Legal(s, es) && Enabled(Exec(s, es), e)
    ensures Legal(s, es + [e]) && Exec(s, es + [e]) == Do(Exec(s, es), e)
  {
    assert (es + [e])[..|es|] == es;
  }

  lemma {:induction false} Join(s: Sys, es: seq<Event>, fs: seq<Event>)
    requires Inv(s) && Legal(s, es) && Legal(Exec(s, es), fs)
    ensures Legal(s, es + fs) && Exec(s, es + fs) == Exec(Exec(s, es), fs)
  {
    hide Exec, Legal, Do, Enabled;
    if fs == [] {
      assert es + fs == es;
      RunStart(Exec(s, es));
    } else {
      var pre, e := fs[..|fs| - 1], fs[|fs| - 1];
      LastStep(Exec(s, es), fs);
      Join(s, es, pre);
      Step(s, es + pre, e);
      assert es + pre + [e] == es + fs;
    }
  }

  lemma LastStep(s: Sys, es: seq<Event>)
    requires Inv(s) && Legal(s, es) && es != []
    ensures Legal(s, es[..|es| - 1]) && Enabled(Exec(s, es[..|es| - 1]), es[|es| - 1])
    ensures Exec(s, es) == Do(Exec(s, es[..|es| - 1]), es[|es| - 1])
  {}

  /** allocproc, then userinit: process 0 is runnable and in no queue. */
  lemma FirstProcessLost()
    ensures Legal(Boot(), [Event.Alloc(0, 1), UserInit(0)])
    ensures Lost(Exec(Boot(), [Event.Alloc(0, 1), UserInit(0)]), 0)
    ensures Exec(Boot(), [Event.Alloc(0, 1), UserInit(0)]).sinceBoost == 0
  {
    BootIs();
    var p1, p2 := Proc(Used, 1, 0, false, 0, 0), Proc(Runnable, 1, 0, false, 0, 0);
    Step(Boot(), [], Event.Alloc(0, 1));
    SetSolo(Idle(), p1, Empty(), 0, -1);
    assert [] + [Event.Alloc(0, 1)] == [Event.Alloc(0, 1)];
    Step(Boot(), [Event.Alloc(0, 1)], UserInit(0));
    SetSolo(p1, p2, Empty(), 0, -1);
    assert [Event.Alloc(0, 1)] + [UserInit(0)] == [Event.Alloc(0, 1), UserInit(0)];
    assert Exec(Boot(), [Event.Alloc(0, 1), UserInit(0)]) == Solo(p2, Empty(), 0, -1);
  }

  /**
    Whatever happens next, the first process is not dispatched before the clock has ticked BOOST_INTERVAL times, unless
    some other process asks for a boost.
   */
  lemma FirstProcessWaits(es: seq<Event>)
    requires Legal(Boot(), [Event.Alloc(0, 1), UserInit(0)]) && Legal(Exec(Boot(), [Event.Alloc(0, 1), UserInit(0)]), es)
    requires BoostAll !in es && Ticks(es) < BOOST_INTERVAL
    ensures Legal(Boot(), [Event.Alloc(0, 1), UserInit(0)] + es)
    ensures 0 !in Dispatches(Exec(Boot(), [Event.Alloc(0, 1), UserInit(0)]), es)
    ensures Lost(Exec(Boot(), [Event.Alloc(0, 1), UserInit(0)] + es), 0)
  {
    hide Exec, Legal, Dispatches, Lost, Do;
    FirstProcessLost();
    var s := Exec(Boot(), [Event.Alloc(0, 1), UserInit(0)]);
    Join(Boot(), [Event.Alloc(0, 1), UserInit(0)], es);
    NoEarlyBoost(s, es);
    StrandedWaits(s, es, 0);
  }

  /** With no sleepers a wakeup changes nothing. */
  lemma WakeNone(s: Sys, chan: nat)
    requires Shape(s) && forall p :: 0 <= p < NPROC ==> s.procs[p].state != Sleeping
    ensures Wake(s, chan) == s
  {
    var t := Wake(s, chan);
    assert t.procs == s.procs;
    forall l | 0 <= l < LEVELS ensures t.queues[l] == s.queues[l] {
      WokenAtIs(s, chan, l, NPROC);
      if WokenAt(s, chan, l, NPROC) != [] {
        assert WokenAt(s, chan, l, NPROC)[0] < NPROC;
      }
    }
    assert t.queues == s.queues;
  }

  function Demoted(): seq<Event> { [Event.Alloc(0, 1), Fork(0), Round, Tick, Tick] }

  function Slot(state: PState, level: nat, time: nat): Proc { Proc(state, 1, 0, false, level, time) }

  lemma ForkSolo()
    ensures var s := Solo(Slot(Used, 0, 0), Empty(), 0, -1); Inv(s) && Do(s, Fork(0)) == Solo(Slot(Runnable, 0, 0), [[0], [], [], []], 0, -1)
  {
    var s := Solo(Slot(Used, 0, 0), Empty(), 0, -1);
    SetSolo(Slot(Used, 0, 0), Slot(Runnable, 0, 0), Empty(), 0, -1);
    var q: seq<seq<nat>> := [[], [], [], []];
    assert q[0] + [0] == [0];
  }

  lemma RoundSolo()
    ensures var s := Solo(Slot(Runnable, 0, 0), [[0], [], [], []], 0, -1); Inv(s) && Do(s, Round) == Solo(Slot(Running, 0, 0), Empty(), 0, 0)
  {
    var s := Solo(Slot(Runnable, 0, 0), [[0], [], [], []], 0, -1);
    SetSolo(Slot(Runnable, 0, 0), Slot(Running, 0, 0), Empty(), 0, -1);
    var q: seq<seq<nat>> := [[0], [], [], []];
    assert q[0][1..] == [];
    assert q[0 := q[0][1..]] == Empty();
  }

  lemma RunningInv(time: nat, sinceBoost: nat)
    requires time < Quantum(0)
    ensures Inv(Solo(Slot(Running, 0, time), Empty(), sinceBoost, 0))
  {}

  /** A tick when nobody sleeps is a charge. */
  lemma TickIs(p: Proc, sinceBoost: nat)
    requires p.state != Sleeping && Inv(Solo(p, Empty(), sinceBoost, 0))
    ensures var t := Solo(p, Empty(), sinceBoost + 1, 0); Shape(t) && Do(Solo(p, Empty(), sinceBoost, 0), Tick) == ChargeTick(t)
  {
    hide Wake, ChargeTick;
    var s := Solo(p, Empty(), sinceBoost, 0);
    WakeNone(s, TICKS);
    assert s.(sinceBoost := sinceBoost + 1) == Solo(p, Empty(), sinceBoost + 1, 0);
  }

  lemma TickSolo()
    ensures var s := Solo(Slot(Running, 0, 0), Empty(), 0, 0); Inv(s) && Do(s, Tick) == Solo(Slot(Running, 0, 1), Empty(), 1, 0)
  {
    hide Do, Inv;
    RunningInv(0, 0);
    TickIs(Slot(Running, 0, 0), 0);
    SetSolo(Slot(Running, 0, 0), Slot(Running, 0, 1), Empty(), 1, 0);
  }

  lemma ChargeSolo()
    ensures var s := Solo(Slot(Running, 0, 1), Empty(), 2, 0); Shape(s) && ChargeTick(s) == Solo(Slot(Runnable, 1, 0), [[], [0], [], []], 2, -1)
  {
    SetSolo(Slot(Running, 0, 1), Slot(Runnable, 1, 0), Empty(), 2, -1);
    var q: seq<seq<nat>> := [[], [], [], []];
    assert q[1] + [0] == [0];
  }

  lemma DemoteSolo()
    ensures var s := Solo(Slot(Running, 0, 1), Empty(), 1, 0); Inv(s) && Do(s, Tick) == Solo(Slot(Runnable, 1, 0), [[], [0], [], []], 2, -1)
  {
    hide Do, Inv, ChargeTick;
    RunningInv(1, 1);
    TickIs(Slot(Running, 0, 1), 1);
    ChargeSolo();
  }

  /** A process that runs for two ticks is moved to queue 1. */
  lemma FirstDemotion()
    ensures Legal(Boot(), Demoted()) && Exec(Boot(), Demoted()) == Solo(Slot(Runnable, 1, 0), [[], [0], [], []], 2, -1)
  {
    var es := Demoted();
    BootIs();
    SetSolo(Idle(), Slot(Used, 0, 0), Empty(), 0, -1);
    hide Exec, Legal;
    RunStart(Boot());
    Step(Boot(), [], es[0]);
    assert [] + [es[0]] == es[..1] && es[..1] + [es[1]] == es[..2] && es[..2] + [es[2]] == es[..3] && es[..3] + [es[3]] == es[..4] && es[..4] + [es[4]] == es;
    assert Exec(Boot(), es[..1]) == Solo(Slot(Used, 0, 0), Empty(), 0, -1);
    hide Do;
    ForkSolo();
    Step(Boot(), es[..1], es[1]);
    RoundSolo();
    Step(Boot(), es[..2], es[2]);
    TickSolo();
    Step(Boot(), es[..3], es[3]);
    DemoteSolo();
    Step(Boot(), es[..4], es[4]);
  }

  lemma RunStart(s: Sys)
    requires Inv(s)
    ensures Legal(s, []) && Exec(s, []) == s
  {}

  /** sys_boostproc of that process leaves it in queue 1 at level 0. */
  lemma BoostedInLowerQueue()
    ensures Legal(Boot(), Demoted() + [BoostOne(1)])
    ensures var s := Exec(Boot(), Demoted() + [BoostOne(1)]); s.queues[1] == [0] && s.procs[0].level == 0 && !Placed(s)
  {
    FirstDemotion();
    hide Exec, Legal;
    Step(Boot(), Demoted(), BoostOne(1));
    var s := Exec(Boot(), Demoted() + [BoostOne(1)]);
    assert At(s.queues, 1, 0, 0);
  }
}
