/** Operations that use the log one after another: after a crash a whole number of them is on disk, the first ones. */
module LogOrder {
  import opened LogProtocol
  import opened LogSafety

  /** Every log_write of a run, in order. */
  function Writes(es: seq<Step>): seq<Update> {
    if es == [] then []
    else
      var (e, rest) := (es[|es| - 1], Writes(es[..|es| - 1]));
      if e.LogWrite? then rest + [Update(e.op, e.blk, e.data)] else rest
  }

  predicate Crashes(es: seq<Step>) { exists i :: 0 <= i < |es| && es[i].Crash? }

  /** Nothing is written after the first crash. */
  predicate OneBoot(es: seq<Step>) {
    forall i, j :: 0 <= i < j < |es| && es[i].Crash? ==> !es[j].LogWrite?
  }

  lemma LastOf(es: seq<Step>)
    requires OneBoot(es) && es != []
    ensures OneBoot(es[..|es| - 1])
    ensures Crashes(es) <==> Crashes(es[..|es| - 1]) || es[|es| - 1].Crash?
    ensures Crashes(es[..|es| - 1]) ==> !es[|es| - 1].LogWrite?
  {
    var pre := es[..|es| - 1];
    if Crashes(pre) {
      var i :| 0 <= i < |pre| && pre[i].Crash?;
      assert es[i].Crash?;
    }
    if Crashes(es) && !es[|es| - 1].Crash? {
      var i :| 0 <= i < |es| && es[i].Crash?;
      assert pre[i].Crash?;
    }
  }

  /** What is committed comes first in what was written, and until a crash the rest is pending. */
  lemma {:induction false} CommittedFirst(s: State, es: seq<Step>)
    requires Legal(s, es) && OneBoot(es)
    ensures var b := Exec(s, es).book;
            if Crashes(es) then Flatten(b.hist) <= Writes(es) && b.pending == [] else Flatten(b.hist) + b.pending == Writes(es)
  {
    if es != [] {
      var pre, e := es[..|es| - 1], es[|es| - 1];
      LastOf(es);
      CommittedFirst(s, pre);
      LastStep(s, es);
      var b := Exec(s, pre).book;
      OrderStep(b, e, Commits(Exec(s, pre), e), Writes(pre));
    }
  }

  /** What one step does to that. */
  lemma OrderStep(b: Book, e: Step, commits: bool, ws: seq<Update>)
    ensures forall appends :: Flatten(BookDo(b, e, appends, commits).hist) + BookDo(b, e, appends, commits).pending ==
              if e.Crash? then Flatten(b.hist) else Flatten(b.hist) + b.pending + if e.LogWrite? then [Update(e.op, e.blk, e.data)] else []
    ensures forall appends :: b.pending == [] && !e.LogWrite? ==> BookDo(b, e, appends, commits).hist == b.hist && BookDo(b, e, appends, commits).pending == []
  {
    CommitHist(b);
    if e.End? {
      CommitHist(b.(used := b.used - {e.op}, ended := b.ended + {e.op}));
    }
  }

  // ---------------------------------------------------------------- whole operations

  predicate By(us: seq<Update>, op: nat) { forall i :: 0 <= i < |us| ==> us[i].op == op }

  /** The operations ops, all different, each with its writes. */
  predicate Operations(ops: seq<nat>, uss: seq<seq<Update>>) {
    && |ops| == |uss| && (forall i, j :: 0 <= i < j < |ops| ==> ops[i] != ops[j])
    && forall j :: 0 <= j < |ops| ==> By(uss[j], ops[j])
  }

  /** A run in which these operations write one after another, as far as the run goes, and end when they have written. */
  ghost predicate Performs(es: seq<Step>, ops: seq<nat>, uss: seq<seq<Update>>) {
    && Operations(ops, uss) && Writes(es) <= Flatten(uss)
    && forall j :: 0 <= j < |ops| && End(ops[j]) in es ==> Issued(es, ops[j]) == uss[j]
  }

  lemma {:induction false} OfBy(us: seq<Update>, op: nat, q: nat)
    requires By(us, op)
    ensures Of(us, q) == if q == op then us else []
  {
    if us != [] {
      OfBy(us[..|us| - 1], op, q);
    }
  }

  /** Writes of other operations. */
  lemma {:induction false} OfOthers(ops: seq<nat>, uss: seq<seq<Update>>, op: nat)
    requires Operations(ops, uss) && op !in ops
    ensures Of(Flatten(uss), op) == []
  {
    if uss != [] {
      var m := |uss| - 1;
      assert op !in ops[..m];
      OfOthers(ops[..m], uss[..m], op);
      OfBy(uss[m], ops[m], op);
      OfAppend(Flatten(uss[..m]), uss[m], op);
    }
  }

  lemma ByPrefix(us: seq<Update>, op: nat, x: nat)
    requires By(us, op) && x <= |us|
    ensures By(us[..x], op)
  {}

  /** Writes that reach into the last operation hold all of it. */
  lemma LastOperation(p: seq<Update>, x: nat, ops: seq<nat>, uss: seq<seq<Update>>)
    requires Operations(ops, uss) && uss != [] && 0 < x <= |uss[|uss| - 1]|
    requires p == Flatten(uss[..|uss| - 1]) + uss[|uss| - 1][..x]
    requires Of(p, ops[|uss| - 1]) == [] || Of(p, ops[|uss| - 1]) == uss[|uss| - 1]
    ensures p == Flatten(uss)
  {
    var m := |uss| - 1;
    var u := uss[m];
    assert ops[m] !in ops[..m];
    OfOthers(ops[..m], uss[..m], ops[m]);
    ByPrefix(u, ops[m], x);
    OfBy(u[..x], ops[m], ops[m]);
    OfAppend(Flatten(uss[..m]), u[..x], ops[m]);
    assert u[..x] == u;
  }

  lemma LastSplit(p: seq<Update>, w: seq<Update>, u: seq<Update>)
    requires p <= w + u
    ensures if |p| <= |w| then p <= w else |p| - |w| <= |u| && p == w + u[..|p| - |w|]
  {}

  /** The first of the writes, when they hold each operation's writes whole or not at all, are those of the first operations. */
  lemma {:induction false} WholeOperations(p: seq<Update>, ops: seq<nat>, uss: seq<seq<Update>>) returns (k: nat)
    requires Operations(ops, uss) && p <= Flatten(uss)
    requires forall j :: 0 <= j < |ops| ==> Of(p, ops[j]) == [] || Of(p, ops[j]) == uss[j]
    ensures k <= |uss| && p == Flatten(uss[..k])
  {
    hide Of, By;
    if uss == [] {
      k := 0;
    } else {
      var m := |uss| - 1;
      LastSplit(p, Flatten(uss[..m]), uss[m]);
      if |p| <= |Flatten(uss[..m])| {
        k := WholeOperations(p, ops[..m], uss[..m]);
        assert uss[..m][..k] == uss[..k];
      } else {
        LastOperation(p, |p| - |Flatten(uss[..m])|, ops, uss);
        k := |uss|;
        assert uss[..k] == uss;
      }
    }
  }

  /** Operations that are over have called end_op. */
  lemma {:induction false} EndedEnds(s: State, es: seq<Step>, op: nat)
    requires Legal(s, es)
    ensures op in Exec(s, es).book.durable + Exec(s, es).book.ended ==> End(op) in es
  {
    if es != [] {
      EndedEnds(s, es[..|es| - 1], op);
      LastStep(s, es);
    }
  }

  /**
    At any point of such a run, recovering the disk gives the file system after the first k operations and nothing of
    the others; operations that have been committed are among them.
   */
  lemma CrashBetweenOperations(s: State, es: seq<Step>, ops: seq<nat>, uss: seq<seq<Update>>) returns (k: nat)
    requires Legal(s, es) && OneBoot(es) && Performs(es, ops, uss)
    ensures var t := Exec(s, es);
            && k <= |uss| && WfHead(t.disk, t.start) && BlocksOk(t) && Flatten(t.book.hist) == Flatten(uss[..k])
            && EqHome(t.start, Recover(t.disk, t.start), Apply(t.origin, Flatten(t.book.hist)))
            && forall j :: 0 <= j < |ops| && ops[j] in t.book.durable && uss[j] != [] ==> j < k
  {
    var b := Exec(s, es).book;
    RunInv(s, es);
    CommittedFirst(s, es);
    forall j | 0 <= j < |ops| ensures Of(Flatten(b.hist), ops[j]) == if ops[j] in b.durable then uss[j] else [] {
      RunFate(s, es, ops[j]);
      EndedEnds(s, es, ops[j]);
    }
    assert Flatten(b.hist) <= Flatten(uss);
    k := WholeOperations(Flatten(b.hist), ops, uss);
    forall j | 0 <= j < |ops| && ops[j] in b.durable && uss[j] != [] ensures j < k {
      if j >= k {
        assert ops[j] !in ops[..k];
        OfOthers(ops[..k], uss[..k], ops[j]);
      }
    }
  }
}
