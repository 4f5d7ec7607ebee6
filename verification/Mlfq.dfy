/**
  The multilevel feedback queue scheduler of kernel/proc.c and kernel/trap.c as a state machine on one
  hart: what the queues hold, who is dispatched, and how processor time moves a process down.
 */
module Mlfq {

  const NPROC := 64
  const LEVELS := 4
  const BOOST_INTERVAL := 100
  const TICKS := 1          // the channel of sleepers on the clock

  datatype PState = Unused | Used | Sleeping | Runnable | Running | Zombie

  /** chan matters only while the process sleeps. */
  datatype Proc = Proc(state: PState, pid: nat, chan: nat, killed: bool, level: nat, time: nat)

  /** current is the running process, -1 while the scheduler itself runs. */
  datatype Sys = Sys(procs: seq<Proc>, queues: seq<seq<nat>>, sinceBoost: nat, current: int)

  datatype Event =
    | Alloc(slot: nat, pid: nat)
    | UserInit(slot: nat)
    | Fork(slot: nat)
    | Free(slot: nat)
    | Tick
    | Yield
    | Sleep(chan: nat)
    | Exit
    | Wakeup(chan: nat)
    | Kill(pid: nat)
    | BoostAll
    | BoostOne(pid: nat)
    | Round

  function Quantum(level: nat): nat {
    if level == 0 then 2 else if level == 1 then 4 else if level == 2 then 8 else 16
  }

  // ---------------------------------------------------------------- the invariant

  ghost predicate At(queues: seq<seq<nat>>, l: int, i: int, p: int) {
    0 <= l < |queues| && 0 <= i < |queues[l]| && queues[l][i] == p
  }

  ghost predicate Queued(queues: seq<seq<nat>>, p: int) {
    exists l, i :: At(queues, l, i, p)
  }

  predicate Shape(s: Sys) {
    && |s.procs| == NPROC && |s.queues| == LEVELS && -1 <= s.current < NPROC
    && (forall l, i :: 0 <= l < LEVELS && 0 <= i < |s.queues[l]| ==> s.queues[l][i] < NPROC)
    && (forall p :: 0 <= p < NPROC ==> ProcOk(s.procs[p], s.current, p))
  }

  predicate ProcOk(proc: Proc, current: int, p: nat) {
    && proc.level < LEVELS && proc.time < Quantum(proc.level)
    && (proc.state == Running <==> current == p)
  }

  /** No process is queued twice, in one queue or in two. */
  ghost predicate Once(queues: seq<seq<nat>>) {
    forall l, i, m, j, p :: At(queues, l, i, p) && At(queues, m, j, p) ==> l == m && i == j
  }

  ghost predicate QueuedRunnable(procs: seq<Proc>, queues: seq<seq<nat>>) {
    forall l, i, p :: At(queues, l, i, p) ==> p < |procs| && procs[p].state == Runnable
  }

  ghost predicate Inv(s: Sys) {
    Shape(s) && Once(s.queues) && QueuedRunnable(s.procs, s.queues)
  }

  // ---------------------------------------------------------------- the steps

  function Enqueue(s: Sys, p: nat): Sys
    requires |s.queues| == LEVELS && p < |s.procs| && s.procs[p].level < LEVELS
  {
    var l := s.procs[p].level;
    s.(queues := s.queues[l := s.queues[l] + [p]])
  }

  /** The processes below n that wakeup(chan) makes runnable. */
  predicate Woken(s: Sys, chan: nat, p: nat)
    requires p < |s.procs|
  {
    p != s.current && s.procs[p].state == Sleeping && s.procs[p].chan == chan
  }

  function WokenAt(s: Sys, chan: nat, l: nat, n: nat): seq<nat>
    requires n <= |s.procs|
  {
    if n == 0 then []
    else WokenAt(s, chan, l, n - 1) + if Woken(s, chan, n - 1) && s.procs[n - 1].level == l then [n - 1] else []
  }

  function Wake(s: Sys, chan: nat): Sys
    requires |s.queues| == LEVELS
  {
    s.(procs := seq(|s.procs|, p requires 0 <= p < |s.procs| => if Woken(s, chan, p) then s.procs[p].(state := Runnable) else s.procs[p]),
       queues := seq(LEVELS, l requires 0 <= l < LEVELS => s.queues[l] + WokenAt(s, chan, l, |s.procs|)))
  }

  function Runnables(procs: seq<Proc>, n: nat): seq<nat>
    requires n <= |procs|
  {
    if n == 0 then [] else Runnables(procs, n - 1) + if procs[n - 1].state == Runnable then [n - 1] else []
  }

  function Boosted(procs: seq<Proc>): seq<Proc> {
    seq(|procs|, p requires 0 <= p < |procs| => if procs[p].state == Runnable then procs[p].(level := 0, time := 0) else procs[p])
  }

  function Boost(s: Sys): Sys {
    s.(procs := Boosted(s.procs), queues := [Runnables(s.procs, |s.procs|), [], [], []], sinceBoost := 0)
  }

  /** The running process gives up the hart in state st; the scheduler queues it if it is runnable. */
  function Leave(s: Sys, st: PState, chan: nat): Sys
    requires Shape(s) && s.current >= 0 && st != Running
  {
    var s1 := s.(procs := s.procs[s.current := s.procs[s.current].(state := st, chan := chan)], current := -1);
    if st == Runnable then Enqueue(s1, s.current) else s1
  }

  /** The running process is charged one tick; when its quantum is used up it moves down and yields. */
  function ChargeTick(s: Sys): Sys
    requires Shape(s)
  {
    if s.current < 0 then s
    else
      var p := s.procs[s.current];
      if p.time + 1 < Quantum(p.level) then s.(procs := s.procs[s.current := p.(time := p.time + 1)])
      else
        var down := if p.level < LEVELS - 1 then p.level + 1 else p.level;
        var s1 := s.(procs := s.procs[s.current := p.(time := 0, level := down, state := Runnable)], current := -1);
        Enqueue(s1, s.current)
  }

  /** The first slot with the pid, NPROC if there is none. */
  function PidSlot(procs: seq<Proc>, pid: nat, i: nat): (r: nat)
    requires i <= |procs|
    ensures i <= r <= |procs| && (r < |procs| ==> procs[r].pid == pid)
    ensures forall j :: i <= j < r ==> procs[j].pid != pid
    decreases |procs| - i
  {
    if i == |procs| || procs[i].pid == pid then i else PidSlot(procs, pid, i + 1)
  }

  /** The scheduler's pass over the queues from level l: one dequeue from each level until a runnable process is found. */
  function Scan(s: Sys, l: nat): Sys
    requires Shape(s) && l <= LEVELS
    decreases LEVELS - l
  {
    if l == LEVELS then s
    else if s.queues[l] == [] then Scan(s, l + 1)
    else
      var p, s1 := s.queues[l][0], s.(queues := s.queues[l := s.queues[l][1..]]);
      if s.procs[p].state == Runnable then
        s1.(procs := s.procs[p := s.procs[p].(state := Running)], current := p)
      else Scan(s1, l + 1)
  }

  predicate BoostDue(s: Sys) { s.sinceBoost >= BOOST_INTERVAL }

  predicate Enabled(s: Sys, e: Event) {
    match e
    case Alloc(p, _) => p < |s.procs| && s.procs[p].state == Unused
    case UserInit(p) => p < |s.procs| && s.procs[p].state == Used
    case Fork(p) => p < |s.procs| && s.procs[p].state == Used
    case Free(p) => p < |s.procs| && (s.procs[p].state == Used || s.procs[p].state == Zombie)
    case Yield => s.current >= 0
    case Sleep(_) => s.current >= 0
    case Exit => s.current >= 0
    case Round => s.current == -1
    case _ => true
  }

  ghost function Do(s: Sys, e: Event): Sys
    requires Inv(s) && Enabled(s, e)
  {
    match e
    case Alloc(p, pid) => s.(procs := s.procs[p := s.procs[p].(state := Used, pid := pid, level := 0, time := 0)])
    case UserInit(p) => s.(procs := s.procs[p := s.procs[p].(state := Runnable)])
    case Fork(p) => Enqueue(s.(procs := s.procs[p := s.procs[p].(state := Runnable)]), p)
    case Free(p) => s.(procs := s.procs[p := Proc(Unused, 0, 0, false, 0, 0)])
    case Tick => WakeShape(s, TICKS); ChargeTick(Wake(s, TICKS).(sinceBoost := s.sinceBoost + 1))
    case Yield => Leave(s, Runnable, s.procs[s.current].chan)
    case Sleep(chan) => Leave(s, Sleeping, chan)
    case Exit => Leave(s, Zombie, s.procs[s.current].chan)
    case Wakeup(chan) => Wake(s, chan)
    case Kill(pid) => KillAt(s, PidSlot(s.procs, pid, 0))
    case BoostAll => Boost(s)
    case BoostOne(pid) => ResetAt(s, PidSlot(s.procs, pid, 0))
    case Round => BoostShape(s); Scan(if BoostDue(s) then Boost(s) else s, 0)
  }

  function KillAt(s: Sys, p: nat): Sys {
    if p >= |s.procs| then s
    else
      var q := s.procs[p].(killed := true);
      s.(procs := s.procs[p := if q.state == Sleeping then q.(state := Runnable) else q])
  }

  function ResetAt(s: Sys, p: nat): Sys {
    if p >= |s.procs| then s else s.(procs := s.procs[p := s.procs[p].(level := 0, time := 0)])
  }

  // ---------------------------------------------------------------- lists of processes

  /** The woken processes of a level, in table order. */
  lemma {:induction false} WokenAtIs(s: Sys, chan: nat, l: nat, n: nat)
    requires n <= |s.procs|
    ensures forall i :: 0 <= i < |WokenAt(s, chan, l, n)| ==>
              var p := WokenAt(s, chan, l, n)[i]; p < n && Woken(s, chan, p) && s.procs[p].level == l
    ensures forall i, j :: 0 <= i < j < |WokenAt(s, chan, l, n)| ==> WokenAt(s, chan, l, n)[i] < WokenAt(s, chan, l, n)[j]
    ensures forall p :: 0 <= p < n && Woken(s, chan, p) && s.procs[p].level == l ==> p in WokenAt(s, chan, l, n)
  {
    if n > 0 {
      WokenAtIs(s, chan, l, n - 1);
    }
  }

  /** The runnable processes in table order, each once. */
  lemma {:induction false} RunnablesIs(procs: seq<Proc>, n: nat)
    requires n <= |procs|
    ensures forall i :: 0 <= i < |Runnables(procs, n)| ==> Runnables(procs, n)[i] < n && procs[Runnables(procs, n)[i]].state == Runnable
    ensures forall i, j :: 0 <= i < j < |Runnables(procs, n)| ==> Runnables(procs, n)[i] < Runnables(procs, n)[j]
    ensures forall p :: 0 <= p < n && procs[p].state == Runnable ==> p in Runnables(procs, n)
    ensures |Runnables(procs, n)| <= n
  {
    if n > 0 {
      RunnablesIs(procs, n - 1);
    }
  }

  lemma WakeShape(s: Sys, chan: nat)
    requires Shape(s)
    ensures Shape(Wake(s, chan))
  {
    forall l | 0 <= l < LEVELS ensures forall i :: 0 <= i < |Wake(s, chan).queues[l]| ==> Wake(s, chan).queues[l][i] < NPROC {
      WokenAtIs(s, chan, l, |s.procs|);
    }
  }

  lemma BoostShape(s: Sys)
    requires Shape(s)
    ensures Shape(Boost(s)) && Boost(s).current == s.current
  {
    RunnablesIs(s.procs, |s.procs|);
  }
}
