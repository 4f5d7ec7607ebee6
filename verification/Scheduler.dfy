/** The scheduler's code: run queues threaded through the process table, and the operations on them. */
module SchedulerCode {
  import opened Mlfq
  import opened MlfqRuns

  // ---------------------------------------------------------------- intrusive lists

  ghost predicate LinkAt(q: seq<nat>, next: seq<int>, i: nat)
    requires i < |q|
  {
    q[i] < |next| && next[q[i]] == if i + 1 < |q| then q[i + 1] else -1
  }

  ghost predicate ListOk(q: seq<nat>, head: int, tail: int, next: seq<int>) {
    && head == (if q == [] then -1 else q[0])
    && tail == (if q == [] then -1 else q[|q| - 1])
    && forall i :: 0 <= i < |q| ==> LinkAt(q, next, i)
  }

  /** The lists that head, tail and next make up are the queues. */
  ghost predicate Linked(queues: seq<seq<nat>>, head: seq<int>, tail: seq<int>, next: seq<int>) {
    && |queues| == LEVELS && |head| == LEVELS && |tail| == LEVELS && |next| == NPROC
    && forall l :: 0 <= l < LEVELS ==> ListOk(queues[l], head[l], tail[l], next)
  }

  /** Changing links of processes that are not in a list does not change the list. */
  lemma ListFrame(q: seq<nat>, head: int, tail: int, next: seq<int>, next': seq<int>)
    requires ListOk(q, head, tail, next) && |next'| == |next|
    requires forall i :: 0 <= i < |q| ==> q[i] < |next| && next'[q[i]] == next[q[i]]
    ensures ListOk(q, head, tail, next')
  {
    forall i | 0 <= i < |q| ensures LinkAt(q, next', i) {
      assert LinkAt(q, next, i);
    }
  }

  lemma AppendList(q: seq<nat>, head: int, tail: int, next: seq<int>, p: nat)
    requires ListOk(q, head, tail, next) && p < |next| && p !in q
    requires forall i, j :: 0 <= i < j < |q| ==> q[i] != q[j]
    ensures tail != -1 ==> 0 <= tail < |next|
    ensures ListOk(q + [p], if tail == -1 then p else head, p, (if tail == -1 then next else next[tail := p])[p := -1])
  {
    if q != [] {
      assert LinkAt(q, next, |q| - 1);
    }
    var q', next' := q + [p], (if tail == -1 then next else next[tail := p])[p := -1];
    forall i | 0 <= i < |q'| ensures LinkAt(q', next', i) {
      if i < |q| {
        assert LinkAt(q, next, i) && q'[i] == q[i] && q[i] != p;
        if i + 1 < |q| {
          assert q'[i + 1] == q[i + 1] && q[i] != q[|q| - 1];
        }
      }
    }
  }

  lemma EnqueueLinks(queues: seq<seq<nat>>, head: seq<int>, tail: seq<int>, next: seq<int>, l: nat, p: nat)
    requires Linked(queues, head, tail, next) && Once(queues) && l < LEVELS && p < NPROC && !Queued(queues, p)
    ensures tail[l] != -1 ==> 0 <= tail[l] < NPROC
    ensures Linked(queues[l := queues[l] + [p]], if tail[l] == -1 then head[l := p] else head, tail[l := p],
                   (if tail[l] == -1 then next else next[tail[l] := p])[p := -1])
  {
    hide ListOk;
    forall m, i | 0 <= m < LEVELS && 0 <= i < |queues[m]| ensures At(queues, m, i, queues[m][i]) && queues[m][i] != p {
      assert At(queues, m, i, queues[m][i]);
    }
    TailIn(queues, head, tail, next, l);
    AppendList(queues[l], head[l], tail[l], next, p);
    var next' := (if tail[l] == -1 then next else next[tail[l] := p])[p := -1];
    forall m | 0 <= m < LEVELS && m != l ensures ListOk(queues[m], head[m], tail[m], next') {
      if tail[l] != -1 {
        assert At(queues, l, |queues[l]| - 1, tail[l]);
      }
      InRange(queues, head, tail, next, m);
      ListFrame(queues[m], head[m], tail[m], next, next');
    }
  }

  lemma TailIn(queues: seq<seq<nat>>, head: seq<int>, tail: seq<int>, next: seq<int>, l: nat)
    requires Linked(queues, head, tail, next) && l < LEVELS
    ensures |head| == LEVELS && |tail| == LEVELS && |next| == NPROC && |queues| == LEVELS
    ensures tail[l] == -1 <==> queues[l] == []
    ensures head[l] == -1 <==> queues[l] == []
    ensures queues[l] != [] ==> head[l] == queues[l][0] && tail[l] == queues[l][|queues[l]| - 1]
  {}

  lemma InRange(queues: seq<seq<nat>>, head: seq<int>, tail: seq<int>, next: seq<int>, l: nat)
    requires Linked(queues, head, tail, next) && l < LEVELS
    ensures forall i :: 0 <= i < |queues[l]| ==> queues[l][i] < NPROC
  {
    forall i | 0 <= i < |queues[l]| ensures queues[l][i] < NPROC {
      assert LinkAt(queues[l], next, i);
    }
  }

  /** Cutting element k out of a list, as dequeue (k == 0) and dequeue_specific do. */
  lemma CutList(q: seq<nat>, head: int, tail: int, next: seq<int>, k: nat)
    requires ListOk(q, head, tail, next) && k < |q| && forall i, j :: 0 <= i < j < |q| ==> q[i] != q[j]
    ensures forall i :: 0 <= i < |q| ==> q[i] < |next|
    ensures ListOk(q[..k] + q[k + 1..], if k == 0 then next[q[k]] else head,
                   if next[q[k]] == -1 then if k == 0 then -1 else q[k - 1] else tail,
                   (if k == 0 then next else next[q[k - 1] := next[q[k]]])[q[k] := -1])
  {
    forall i | 0 <= i < |q| ensures q[i] < |next| {
      assert LinkAt(q, next, i);
    }
    assert LinkAt(q, next, k);
    var q', next' := q[..k] + q[k + 1..], (if k == 0 then next else next[q[k - 1] := next[q[k]]])[q[k] := -1];
    forall i | 0 <= i < |q'| ensures LinkAt(q', next', i) {
      var j := if i < k then i else i + 1;
      assert q'[i] == q[j] && LinkAt(q, next, j);
      assert i + 1 < |q'| ==> q'[i + 1] == q[if i + 1 < k then i + 1 else i + 2];
    }
  }

  lemma CutLinks(queues: seq<seq<nat>>, head: seq<int>, tail: seq<int>, next: seq<int>, l: nat, k: nat)
    requires Linked(queues, head, tail, next) && Once(queues) && l < LEVELS && k < |queues[l]|
    ensures forall i :: 0 <= i < |queues[l]| ==> queues[l][i] < NPROC
    ensures var (q, p) := (queues[l], queues[l][k]);
            Linked(queues[l := q[..k] + q[k + 1..]], if k == 0 then head[l := next[p]] else head,
                   if next[p] == -1 then tail[l := if k == 0 then -1 else q[k - 1]] else tail,
                   (if k == 0 then next else next[q[k - 1] := next[p]])[p := -1])
  {
    hide ListOk;
    forall m, i | 0 <= m < LEVELS && 0 <= i < |queues[m]| ensures At(queues, m, i, queues[m][i]) {}
    InRange(queues, head, tail, next, l);
    var q, p := queues[l], queues[l][k];
    CutList(q, head[l], tail[l], next, k);
    var next' := (if k == 0 then next else next[q[k - 1] := next[p]])[p := -1];
    forall m | 0 <= m < LEVELS && m != l ensures ListOk(queues[m], head[m], tail[m], next') {
      InRange(queues, head, tail, next, m);
      assert At(queues, l, k, p);
      ListFrame(queues[m], head[m], tail[m], next, next');
    }
  }

  /** dequeue: the front of queue l comes off. */
  lemma FrontOff(s: Sys, head: seq<int>, tail: seq<int>, next: seq<int>, l: nat, p: nat)
    requires Inv(s) && Linked(s.queues, head, tail, next) && l < LEVELS && s.queues[l] != [] && p == s.queues[l][0]
    ensures p < NPROC && !Queued(s.queues[l := s.queues[l][1..]], p)
    ensures Inv(s.(queues := s.queues[l := s.queues[l][1..]]))
    ensures Linked(s.queues[l := s.queues[l][1..]], head[l := next[p]], if next[p] == -1 then tail[l := -1] else tail, next[p := -1])
  {
    CutLinks(s.queues, head, tail, next, l, 0);
    CutInv(s, l, 0);
    assert s.queues[l][..0] + s.queues[l][1..] == s.queues[l][1..];
  }

  // ---------------------------------------------------------------- loops of boost and wakeup

  /** The state of priority_boost when slots below n have been moved. */
  ghost function BoostTo(s: Sys, n: nat): Sys
    requires n <= |s.procs|
  {
    s.(procs := Boosted(s.procs[..n]) + s.procs[n..], queues := [Runnables(s.procs, n), [], [], []])
  }

  lemma BoostNext(s: Sys, n: nat)
    requires Inv(s) && n < NPROC
    ensures |s.procs| == NPROC && |BoostTo(s, n).procs| == NPROC && |BoostTo(s, n).queues| == LEVELS
    ensures BoostTo(s, n).procs[n] == s.procs[n]
    ensures BoostTo(s, n + 1) == if s.procs[n].state == Runnable
                                 then var s1 := BoostTo(s, n).(procs := BoostTo(s, n).procs[n := s.procs[n].(level := 0, time := 0)]); Mlfq.Enqueue(s1, n)
                                 else BoostTo(s, n)
  {
    var a, b := BoostTo(s, n), BoostTo(s, n + 1);
    assert forall i :: 0 <= i < n ==> s.procs[..n][i] == s.procs[i];
    assert forall i :: 0 <= i < n + 1 ==> s.procs[..n + 1][i] == s.procs[i];
    if s.procs[n].state == Runnable {
      var s1 := a.(procs := a.procs[n := s.procs[n].(level := 0, time := 0)]);
      assert b.procs == s1.procs;
      assert b.queues == Mlfq.Enqueue(s1, n).queues;
    } else {
      assert b.procs == a.procs;
      assert Runnables(s.procs, n + 1) == Runnables(s.procs, n);
    }
  }

  lemma BoostDone(s: Sys)
    requires Inv(s)
    ensures |s.procs| == NPROC && BoostTo(s, NPROC).(sinceBoost := 0) == Boost(s)
  {}

  /** The state of wakeup when slots below n have been looked at. */
  ghost function WakeTo(s: Sys, chan: nat, n: nat): Sys
    requires n <= |s.procs| && |s.queues| == LEVELS
  {
    s.(procs := seq(|s.procs|, p requires 0 <= p < |s.procs| => if p < n && Woken(s, chan, p) then s.procs[p].(state := Runnable) else s.procs[p]),
       queues := seq(LEVELS, l requires 0 <= l < LEVELS => s.queues[l] + WokenAt(s, chan, l, n)))
  }

  lemma WakeStart(s: Sys, chan: nat)
    requires Shape(s)
    ensures WakeTo(s, chan, 0) == s && WakeTo(s, chan, NPROC) == Wake(s, chan)
  {
    assert forall l :: 0 <= l < LEVELS ==> s.queues[l] + WokenAt(s, chan, l, 0) == s.queues[l];
    assert WakeTo(s, chan, 0).procs == s.procs && WakeTo(s, chan, 0).queues == s.queues;
    assert WakeTo(s, chan, NPROC).procs == Wake(s, chan).procs && WakeTo(s, chan, NPROC).queues == Wake(s, chan).queues;
  }

  lemma WakeNext(s: Sys, chan: nat, n: nat)
    requires Shape(s) && n < NPROC
    ensures WakeTo(s, chan, n).procs[n] == s.procs[n]
    ensures var s1 := WakeTo(s, chan, n).(procs := WakeTo(s, chan, n).procs[n := s.procs[n].(state := Runnable)]);
            WakeTo(s, chan, n + 1) == if Woken(s, chan, n) then Mlfq.Enqueue(s1, n) else WakeTo(s, chan, n)
  {
    var a, b := WakeTo(s, chan, n), WakeTo(s, chan, n + 1);
    forall l | 0 <= l < LEVELS
      ensures b.queues[l] == if Woken(s, chan, n) && l == s.procs[n].level then a.queues[l] + [n] else a.queues[l]
    {
      assert WokenAt(s, chan, l, n + 1) == WokenAt(s, chan, l, n) + if Woken(s, chan, n) && s.procs[n].level == l then [n] else [];
    }
    if Woken(s, chan, n) {
      var s1 := a.(procs := a.procs[n := s.procs[n].(state := Runnable)]);
      assert b.procs == s1.procs;
      assert b.queues == Mlfq.Enqueue(s1, n).queues;
    } else {
      assert b.procs == a.procs && b.queues == a.queues;
    }
  }

  // ---------------------------------------------------------------- the scheduler

  class Scheduler {
    var procs: seq<Proc>
    var next: seq<int>        // queue_next of every process, -1 for none
    var head: seq<int>
    var tail: seq<int>
    var sinceBoost: nat
    var current: int
    ghost var queues: seq<seq<nat>>

    ghost function Model(): Sys
      reads this
    {
      Sys(procs, queues, sinceBoost, current)
    }

    ghost predicate Valid()
      reads this
    {
      Inv(Model()) && Linked(queues, head, tail, next)
    }

    /** procinit. */
    constructor ()
      ensures Valid() && Model() == Boot()
    {
      procs := seq(NPROC, _ => Proc(Unused, 0, 0, false, 0, 0));
      next, head, tail := seq(NPROC, _ => -1), [-1, -1, -1, -1], [-1, -1, -1, -1];
      sinceBoost, current, queues := 0, -1, [[], [], [], []];
      new;
      assert procs == Boot().procs;
    }

    /** Add p to the tail of the queue of its level. */
    method Enqueue(p: nat)
      requires Valid() && p < NPROC && procs[p].state == Runnable && !Queued(queues, p)
      modifies `next, `head, `tail, `queues
      ensures Valid() && Model() == Mlfq.Enqueue(old(Model()), p)
    {
      EnqueueInv(Model(), p);
      var level := procs[p].level;
      EnqueueLinks(queues, head, tail, next, level, p);
      if tail[level] == -1 {
        head, tail := head[level := p], tail[level := p];
        next := next[p := -1];
      } else {
        next := next[tail[level] := p];
        tail := tail[level := p];
        next := next[p := -1];
      }
      queues := queues[level := queues[level] + [p]];
    }

    /** Remove the first process of a queue, -1 if it is empty. */
    method Dequeue(level: nat) returns (p: int)
      requires Valid() && level < LEVELS
      modifies `next, `head, `tail, `queues
      ensures Valid()
      ensures old(queues)[level] == [] ==> p == -1 && queues == old(queues)
      ensures old(queues)[level] != [] ==> p == old(queues)[level][0] && queues == old(queues)[level := old(queues)[level][1..]]
      ensures p >= -1 && (p >= 0 ==> p < NPROC && !Queued(queues, p))
    {
      hide Linked, Inv, Queued;
      TailIn(queues, head, tail, next, level);
      p := head[level];
      if p != -1 {
        FrontOff(Model(), head, tail, next, level, p);
        head := head[level := next[p]];
        if head[level] == -1 {
          tail := tail[level := -1];
        }
        next := next[p := -1];
        queues := queues[level := queues[level][1..]];
      }
    }

    /** The search of dequeue_specific: the position of p in the queue and the process before it. */
    method Find(p: nat, level: nat) returns (prev: int, found: bool, ghost k: nat)
      requires Valid() && level < LEVELS
      ensures found <==> p in queues[level]
      ensures found ==> k < |queues[level]| && queues[level][k] == p && prev == if k == 0 then -1 else queues[level][k - 1]
    {
      TailIn(queues, head, tail, next, level);
      var curr := head[level];
      prev, found, k := -1, false, 0;
      while curr != -1
        invariant 0 <= k <= |queues[level]| && p !in queues[level][..k]
        invariant curr == if k < |queues[level]| then queues[level][k] else -1
        invariant prev == if k == 0 then -1 else queues[level][k - 1]
        decreases |queues[level]| - k
      {
        if curr == p {
          return prev, true, k;
        }
        assert ListOk(queues[level], head[level], tail[level], next) && LinkAt(queues[level], next, k);
        prev, curr := curr, next[curr];
        k := k + 1;
      }
    }

    /** Take p out of the queue of its level, if it is there. */
    method DequeueSpecific(p: nat)
      requires Valid() && p < NPROC
      modifies `next, `head, `tail, `queues
      ensures Valid()
      ensures p !in old(queues)[procs[p].level] ==> queues == old(queues)
      ensures p in old(queues)[procs[p].level] ==>
                && !Queued(queues, p)
                && exists k :: Cut(old(queues), procs[p].level, k, p, queues)
    {
      hide Linked, Queued, Once, QueuedRunnable;
      var level := procs[p].level;
      var prev, found, k := Find(p, level);
      if found {
        TailIn(queues, head, tail, next, level);
        CutLinks(queues, head, tail, next, level, k);
        CutInv(Model(), level, k);
        var n := next[p];
        if prev == -1 {
          head := head[level := next[p]];
        } else {
          next := next[prev := next[p]];
        }
        if n == -1 {
          tail := tail[level := prev];
        }
        next := next[p := -1];
        queues := queues[level := queues[level][..k] + queues[level][k + 1..]];
        assert Cut(old(queues), level, k, p, queues);
      }
    }

    /** Move a process to the tail of the next queue down, from its queue if it is in it; at the bottom it stays where it is. */
    method DemoteProcess(p: nat)
      requires Valid() && p < NPROC && procs[p].state == Runnable && (Queued(queues, p) ==> p in queues[procs[p].level])
      modifies this
      ensures Valid() && sinceBoost == old(sinceBoost) && current == old(current)
      ensures old(procs)[p].level == LEVELS - 1 ==> Model() == old(Model())
      ensures old(procs)[p].level < LEVELS - 1 ==>
                && procs == old(procs)[p := old(procs)[p].(level := old(procs)[p].level + 1, time := 0)]
                && exists mid :: TakenOut(old(queues), old(procs)[p].level, p, mid) && queues == mid[procs[p].level := mid[procs[p].level] + [p]]
    {
      hide Linked, Queued, Once, QueuedRunnable;
      if procs[p].level < LEVELS - 1 {
        ghost var was, l := queues, procs[p].level;
        DequeueSpecific(p);
        ghost var mid := queues;
        assert TakenOut(was, l, p, mid);
        ghost var s := Model();
        procs := procs[p := procs[p].(level := procs[p].level + 1, time := 0)];
        TableInv(s, Model());
        Enqueue(p);
        assert TakenOut(was, l, p, mid);
      }
    }

    /** Move every runnable process to the top queue, in table order. */
    method PriorityBoost()
      requires Valid()
      modifies this
      ensures Valid() && Model() == Boost(old(Model()))
    {
      hide Linked, Queued, Inv, BoostTo, Boost;
      ghost var s := Model();
      TailIn(queues, head, tail, next, 0);
      head, tail := seq(LEVELS, _ => -1), seq(LEVELS, _ => -1);
      queues := [[], [], [], []];
      Cleared(s, head, tail, next);
      var p := 0;
      while p < NPROC
        invariant 0 <= p <= NPROC && Valid() && Model() == BoostTo(s, p)
      {
        BoostNext(s, p);
        InvShape(Model());
        RowInv(Model(), p, procs[p].(level := 0, time := 0));
        if procs[p].state == Runnable {
          NotYet(s, p);
          procs := procs[p := procs[p].(level := 0, time := 0)];
          Enqueue(p);
        }
        p := p + 1;
      }
      BoostDone(s);
      BoostInv(s);
      sinceBoost := 0;
    }

    /** Make the processes that sleep on chan runnable and queue them, in table order. */
    method Wakeup(chan: nat)
      requires Valid()
      modifies `procs, `next, `head, `tail, `queues
      ensures Valid() && Model() == Do(old(Model()), Event.Wakeup(chan))
    {
      hide Linked, Queued, Once, QueuedRunnable;
      ghost var s := Model();
      WakeStart(s, chan);
      var p := 0;
      while p < NPROC
        invariant 0 <= p <= NPROC && Valid() && Model() == WakeTo(s, chan, p)
      {
        WakeNext(s, chan, p);
        if p != current && procs[p].state == Sleeping && procs[p].chan == chan {
          ghost var s0 := Model();
          NotQueued(s0, p);
          procs := procs[p := procs[p].(state := Runnable)];
          TableInv(s0, Model());
          Enqueue(p);
        }
        p := p + 1;
      }
    }

    /** What the scheduler does when the running process has switched back to it. */
    method Resume()
      requires -1 <= current < NPROC && current >= 0 && |procs| == NPROC && procs[current].state != Running
      requires Inv(Model().(current := -1)) && Linked(queues, head, tail, next)
      requires !Queued(queues, current)
      modifies `current, `next, `head, `tail, `queues
      ensures Valid()
      ensures var s := old(Model()).(current := -1);
              Model() == if s.procs[old(current)].state == Runnable then Mlfq.Enqueue(s, old(current)) else s
    {
      var p := current;
      current := -1;
      if procs[p].state == Runnable {
        Enqueue(p);
      }
    }

    /** yield: the running process gives up the hart for one round. */
    method Yield()
      requires Valid() && current >= 0
      modifies this
      ensures Valid() && Model() == Do(old(Model()), Event.Yield)
    {
      SwitchAway(Model(), Runnable, procs[current].chan);
      procs := procs[current := procs[current].(state := Runnable)];
      Resume();
    }

    /** sleep, from the change of state on. */
    method Sleep(chan: nat)
      requires Valid() && current >= 0
      modifies this
      ensures Valid() && Model() == Do(old(Model()), Event.Sleep(chan))
    {
      SwitchAway(Model(), Sleeping, chan);
      procs := procs[current := procs[current].(chan := chan)];
      procs := procs[current := procs[current].(state := Sleeping)];
      Resume();
    }

    /** kexit, from the change of state on. */
    method Exit()
      requires Valid() && current >= 0
      modifies this
      ensures Valid() && Model() == Do(old(Model()), Event.Exit)
    {
      SwitchAway(Model(), Zombie, procs[current].chan);
      procs := procs[current := procs[current].(state := Zombie)];
      Resume();
    }

    /** clockintr: count the tick, wake clock sleepers, charge the running process. */
    method ClockIntr()
      requires Valid()
      modifies this
      ensures Valid() && Model() == Do(old(Model()), Tick)
    {
      hide Linked, Queued, Once, QueuedRunnable, Wake;
      ghost var s := Model();
      StepInv(s, Tick, 0);
      sinceBoost := sinceBoost + 1;
      TableInv(s, Model());
      Wakeup(TICKS);
      WakeLater(s, TICKS);
      ChargeCurrent();
    }

    /** The second half of clockintr: the running process pays for the tick. */
    method ChargeCurrent()
      requires Valid()
      modifies this
      ensures Valid() && Model() == ChargeTick(old(Model()))
    {
      hide Linked, Queued, Once, QueuedRunnable;
      if current != -1 && procs[current].state == Running {
        ghost var s, p := Model(), procs[current];
        procs := procs[current := procs[current].(time := procs[current].time + 1)];
        var quantum := Quantum(procs[current].level);
        if procs[current].time >= quantum {
          procs := procs[current := procs[current].(time := 0)];
          if procs[current].level < LEVELS - 1 {
            procs := procs[current := procs[current].(level := procs[current].level + 1)];
          }
          assert procs == s.procs[current := procs[current]];
          RowInv(s, current, procs[current]);
          Yield();
        } else {
          assert procs == s.procs[current := procs[current]];
          RowInv(s, current, procs[current]);
        }
      }
    }

    /** fork's last step. */
    method ForkReady(np: nat)
      requires Valid() && np < NPROC && procs[np].state == Used
      modifies this
      ensures Valid() && Model() == Do(old(Model()), Fork(np))
    {
      ghost var s := Model();
      NotQueued(s, np);
      procs := procs[np := procs[np].(state := Runnable)];
      TableInv(s, Model());
      Enqueue(np);
    }

    /** userinit: the first process becomes runnable but is not queued. */
    method UserInit(p: nat)
      requires Valid() && p < NPROC && procs[p].state == Used
      modifies `procs
      ensures Valid() && Model() == Do(old(Model()), Event.UserInit(p))
    {
      StepInv(Model(), Event.UserInit(p), 0);
      procs := procs[p := procs[p].(state := Runnable)];
    }

    /** allocproc: take the first unused slot, -1 if there is none. */
    method Alloc(pid: nat, memory: bool) returns (slot: int, ghost first: int)
      requires Valid()
      modifies `procs, `next
      ensures Valid() && slot == if memory then first else -1
      ensures first == -1 ==> Model() == old(Model()) && forall p :: 0 <= p < NPROC ==> procs[p].state != Unused
      ensures first != -1 ==>
                && 0 <= first < NPROC && old(procs)[first].state == Unused
                && (forall p :: 0 <= p < first ==> old(procs)[p].state != Unused)
                && Model().queues == old(queues) && Model().sinceBoost == old(sinceBoost) && Model().current == old(current)
                && (memory ==> Model() == Do(old(Model()), Event.Alloc(first, pid)))
                && (!memory ==> procs == old(procs)[first := Proc(Unused, 0, 0, false, 0, 0)])
    {
      slot := 0;
      while slot < NPROC && procs[slot].state != Unused
        invariant 0 <= slot <= NPROC && forall p :: 0 <= p < slot ==> procs[p].state != Unused
        modifies {}
      {
        slot := slot + 1;
      }
      if slot == NPROC {
        return -1, -1;
      }
      first := slot;
      StepInv(Model(), Event.Alloc(slot, pid), 0);
      LinkFree(Model(), head, tail, next, slot);
      procs := procs[slot := procs[slot].(state := Used, pid := pid)];
      if !memory {
        FreeProc(slot);
        return -1, first;
      }
      procs := procs[slot := procs[slot].(level := 0, time := 0)];
      next := next[slot := -1];
    }

    /** freeproc. */
    method FreeProc(p: nat)
      requires Valid() && p < NPROC && (procs[p].state == Used || procs[p].state == Zombie)
      modifies `procs, `next
      ensures Valid() && Model() == Do(old(Model()), Event.Free(p))
    {
      StepInv(Model(), Event.Free(p), 0);
      LinkFree(Model(), head, tail, next, p);
      procs := procs[p := Proc(Unused, 0, 0, false, 0, 0)];
      next := next[p := -1];
    }

    /** kkill: a sleeper becomes runnable but is not queued. */
    method Kill(pid: nat) returns (r: int)
      requires Valid()
      modifies `procs
      ensures Valid() && Model() == Do(old(Model()), Event.Kill(pid))
      ensures r == if exists p :: 0 <= p < NPROC && old(procs)[p].pid == pid then 0 else -1
    {
      StepInv(Model(), Event.Kill(pid), 0);
      var p := 0;
      while p < NPROC
        invariant 0 <= p <= NPROC && forall j :: 0 <= j < p ==> procs[j].pid != pid
        modifies {}
      {
        if procs[p].pid == pid {
          break;
        }
        p := p + 1;
      }
      if p == NPROC {
        return -1;
      }
      procs := procs[p := procs[p].(killed := true)];
      if procs[p].state == Sleeping {
        procs := procs[p := procs[p].(state := Runnable)];
      }
      return 0;
    }

    /** sys_boostproc. */
    method BoostProc(pid: nat) returns (r: int)
      requires Valid()
      modifies this
      ensures Valid() && Model() == Do(old(Model()), if pid == 0 then BoostAll else BoostOne(pid))
      ensures r == if pid == 0 || exists p :: 0 <= p < NPROC && old(procs)[p].pid == pid then 0 else -1
    {
      if pid == 0 {
        PriorityBoost();
        return 0;
      }
      StepInv(Model(), BoostOne(pid), 0);
      var p := 0;
      while p < NPROC
        invariant 0 <= p <= NPROC && forall j :: 0 <= j < p ==> procs[j].pid != pid
        modifies {}
      {
        if procs[p].pid == pid {
          break;
        }
        p := p + 1;
      }
      if p == NPROC {
        return -1;
      }
      procs := procs[p := procs[p].(level := 0, time := 0)];
      return 0;
    }

    /** One turn of the scheduler's loop, up to the switch to the process it found (-1 for none). */
    method Round() returns (found: int)
      requires Valid() && current == -1
      modifies this
      ensures Valid() && Model() == Do(old(Model()), Event.Round) && found == current
    {
      hide Linked, Queued, Inv, Scan, Boost, Shape;
      StepInv(Model(), Event.Round, 0);
      InvShape(Model());
      BoostShape(Model());
      if sinceBoost >= BOOST_INTERVAL {
        PriorityBoost();
      }
      ghost var s := Model();
      var level := 0;
      while level < LEVELS
        invariant 0 <= level <= LEVELS && Valid() && Shape(Model()) && current == -1
        invariant Scan(Model(), level) == Scan(s, 0)
      {
        ScanStep(Model(), level);
        InvShape(Model());
        ghost var s0 := Model();
        var p := Dequeue(level);
        InvShape(Model());
        if p != -1 {
          if procs[p].state == Runnable {
            procs := procs[p := procs[p].(state := Running)];
            current := p;
            return p;
          }
        }
        assert Model() == s0;
        level := level + 1;
      }
      ScanStep(Model(), LEVELS);
      return -1;
    }
  }

  /** queues' is queues without p, which was at position k of queue l. */
  /** queues' is queues without p, if it was in queue l. */
  ghost predicate TakenOut(queues: seq<seq<nat>>, l: nat, p: nat, queues': seq<seq<nat>>) {
    l < |queues| && if p in queues[l] then exists k: nat :: Cut(queues, l, k, p, queues') else queues' == queues
  }

  ghost predicate Cut(queues: seq<seq<nat>>, l: nat, k: nat, p: nat, queues': seq<seq<nat>>) {
    && l < |queues| && k < |queues[l]| && queues[l][k] == p
    && queues' == queues[l := queues[l][..k] + queues[l][k + 1..]]
  }

  lemma CutInv(s: Sys, l: nat, k: nat)
    requires Inv(s) && l < LEVELS && k < |s.queues[l]|
    ensures Inv(s.(queues := s.queues[l := s.queues[l][..k] + s.queues[l][k + 1..]]))
    ensures !Queued(s.queues[l := s.queues[l][..k] + s.queues[l][k + 1..]], s.queues[l][k])
  {
    var q, p := s.queues[l][..k] + s.queues[l][k + 1..], s.queues[l][k];
    var qs := s.queues[l := q];
    assert forall i :: 0 <= i < |q| ==> q[i] == s.queues[l][if i < k then i else i + 1];
    assert At(s.queues, l, k, p);
    forall m, i, x | At(qs, m, i, x) ensures At(s.queues, m, if m == l && i >= k then i + 1 else i, x) && x != p {
      assert At(s.queues, m, if m == l && i >= k then i + 1 else i, x);
    }
  }

  lemma RowInv(s: Sys, p: nat, row: Proc)
    requires Inv(s) && p < NPROC && ProcOk(row, s.current, p) && (s.procs[p].state == Runnable ==> row.state == Runnable)
    ensures |s.procs| == NPROC && Inv(s.(procs := s.procs[p := row]))
  {}

  lemma InvShape(s: Sys)
    requires Inv(s)
    ensures Shape(s) && |s.procs| == NPROC && |s.queues| == LEVELS
  {}

  lemma ScanStep(s: Sys, l: nat)
    requires Inv(s) && l <= LEVELS
    ensures l == LEVELS ==> Scan(s, l) == s
    ensures l < LEVELS && s.queues[l] == [] ==> Scan(s, l) == Scan(s, l + 1)
    ensures l < LEVELS && s.queues[l] != [] ==>
              && s.queues[l][0] < NPROC && s.procs[s.queues[l][0]].state == Runnable
              && Scan(s, l) == Dispatch(s, l)
  {
    if l < LEVELS && s.queues[l] != [] {
      assert At(s.queues, l, 0, s.queues[l][0]);
    }
  }

  lemma Cleared(s: Sys, head: seq<int>, tail: seq<int>, next: seq<int>)
    requires Inv(s) && |next| == NPROC && head == tail == seq(LEVELS, _ => -1)
    ensures |s.procs| == NPROC && BoostTo(s, 0) == s.(queues := [[], [], [], []]) && Inv(BoostTo(s, 0)) && Linked([[], [], [], []], head, tail, next)
  {}

  /** The boost loop has not queued slot n yet. */
  lemma NotYet(s: Sys, n: nat)
    requires Inv(s) && n < NPROC
    ensures |s.procs| == NPROC && !Queued(BoostTo(s, n).queues, n)
  {
    RunnablesIs(s.procs, n);
  }

  /** The state in which a process switches to the scheduler. */
  lemma SwitchAway(s: Sys, st: PState, chan: nat)
    requires Inv(s) && s.current >= 0 && st != Running
    ensures Inv(s.(procs := s.procs[s.current := s.procs[s.current].(state := st, chan := chan)], current := -1))
    ensures !Queued(s.queues, s.current)
  {}

  lemma WakeLater(s: Sys, chan: nat)
    requires Shape(s)
    ensures Wake(s.(sinceBoost := s.sinceBoost + 1), chan) == Wake(s, chan).(sinceBoost := s.sinceBoost + 1)
  {
    var s1 := s.(sinceBoost := s.sinceBoost + 1);
    forall l | 0 <= l < LEVELS ensures WokenAt(s1, chan, l, NPROC) == WokenAt(s, chan, l, NPROC) {
      WokenLater(s, s1, chan, l, NPROC);
    }
    assert Wake(s1, chan).procs == Wake(s, chan).procs;
    assert Wake(s1, chan).queues == Wake(s, chan).queues;
  }

  lemma {:induction false} WokenLater(s: Sys, s1: Sys, chan: nat, l: nat, n: nat)
    requires s1 == s.(sinceBoost := s1.sinceBoost) && n <= |s.procs|
    ensures WokenAt(s1, chan, l, n) == WokenAt(s, chan, l, n)
  {
    if n > 0 {
      WokenLater(s, s1, chan, l, n - 1);
    }
  }

  /** The link of a process that is in no queue does not matter. */
  lemma LinkFree(s: Sys, head: seq<int>, tail: seq<int>, next: seq<int>, p: nat)
    requires Inv(s) && Linked(s.queues, head, tail, next) && p < NPROC && s.procs[p].state != Runnable
    ensures Linked(s.queues, head, tail, next[p := -1])
  {
    forall l | 0 <= l < LEVELS ensures ListOk(s.queues[l], head[l], tail[l], next[p := -1]) {
      InRange(s.queues, head, tail, next, l);
      forall i | 0 <= i < |s.queues[l]| ensures s.queues[l][i] != p {
        assert At(s.queues, l, i, s.queues[l][i]);
      }
      ListFrame(s.queues[l], head[l], tail[l], next, next[p := -1]);
    }
  }
}
