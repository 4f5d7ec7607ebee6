/**
  The redo log of kernel/log.c as a step machine.  One step is one atomic action of the code:
  a section under log.lock, or the write of a single disk block.  A crash may follow any step,
  including the steps of recovery itself.
 */
module LogProtocol {

  const MAXOPBLOCKS := 10
  const LOGBLOCKS := 30
  const BWORDS := 256   // a disk block is BSIZE / sizeof(uint) words

  type Block = b: seq<int> | |b| == BWORDS witness seq(BWORDS, _ => 0)
  type Disk = seq<Block>

  /** One log_write: operation `op` gives block `blk` the contents `data`. */
  datatype Update = Update(op: nat, blk: nat, data: Block)

  datatype Pc =
    | Running                 // no commit in progress
    | WriteLog(tail: nat)     // write_log, about to copy block `tail`; the header is next once tail == n
    | Install(tail: nat)      // install_trans(0); the header is erased once tail == n
    | Finish                  // commit done, end_op has still to clear `committing`
    | Crashed                 // powered off, or booting and not yet past read_head
    | RecInstall(tail: nat)   // install_trans(1)

  /**
    Which operations are active (`used`, with the number of log slots each has taken), and the
    history: the committed groups, the updates of the current group, every operation ever begun,
    and what became of those that are no longer active.
   */
  datatype Book = Book(
    used: map<nat, nat>, hist: seq<seq<Update>>, pending: seq<Update>,
    seen: set<nat>, ended: set<nat>, durable: set<nat>, lost: set<nat>)

  /**
    `disk` survives a crash.  `cache` (buffer contents), `lh` (the in-memory header) and the active
    operations do not.  `origin` is the disk at the start of the run.
   */
  datatype State = State(
    start: nat, disk: Disk, cache: map<nat, Block>, lh: seq<nat>, pc: Pc, origin: Disk, book: Book)

  datatype Step =
    | Begin(op: nat)
    | LogWrite(op: nat, blk: nat, data: Block)
    | End(op: nat)
    | CommitStep
    | RecoverStep
    | Evict(blk: nat)
    | Crash

  // ---------------------------------------------------------------- disk layout

  predicate IsHome(start: nat, size: nat, b: int) {
    0 <= b < size && !(start <= b <= start + LOGBLOCKS)
  }

  predicate WfList(start: nat, size: nat, lh: seq<int>) {
    && |lh| <= LOGBLOCKS
    && (forall i :: 0 <= i < |lh| ==> IsHome(start, size, lh[i]))
    && (forall i, j :: 0 <= i < j < |lh| ==> lh[i] != lh[j])
  }

  /** The header block: a count, then that many block numbers; later words are stale. */
  function HeadBlock(old_: Block, lh: seq<int>): (r: Block)
    requires |lh| <= LOGBLOCKS
    ensures r[0] == |lh| && r[1..1 + |lh|] == lh
  {
    [|lh|] + lh + old_[1 + |lh|..]
  }

  predicate WfHead(d: Disk, start: nat) {
    && start + LOGBLOCKS < |d|
    && 0 <= d[start][0] <= LOGBLOCKS
    && WfList(start, |d|, Head(d, start))
  }

  function Head(d: Disk, start: nat): seq<int>
    requires start < |d| && 0 <= d[start][0] <= LOGBLOCKS
  {
    d[start][1..1 + d[start][0]]
  }

  /** Copy block t of the log to its home. */
  function InstallOne(d: Disk, start: nat, lh: seq<nat>, t: nat): (r: Disk)
    requires start + LOGBLOCKS < |d| && WfList(start, |d|, lh) && t < |lh|
    ensures |r| == |d|
  {
    d[lh[t] := d[start + 1 + t]]
  }

  /** install_trans from position t on, as a function of the disk. */
  function InstallFrom(d: Disk, start: nat, lh: seq<nat>, t: nat): (r: Disk)
    requires start + LOGBLOCKS < |d| && WfList(start, |d|, lh) && t <= |lh|
    ensures |r| == |d|
    decreases |lh| - t
  {
    if t == |lh| then d else InstallFrom(InstallOne(d, start, lh, t), start, lh, t + 1)
  }

  /** What recover_from_log makes of a disk. */
  function Recover(d: Disk, start: nat): (r: Disk)
    requires WfHead(d, start)
    ensures |r| == |d|
  {
    var e := InstallFrom(d, start, Head(d, start), 0);
    e[start := HeadBlock(e[start], [])]
  }

  function Apply(d: Disk, us: seq<Update>): (r: Disk)
    requires forall i :: 0 <= i < |us| ==> us[i].blk < |d|
    ensures |r| == |d|
  {
    if us == [] then d
    else
      var u := us[|us| - 1];
      Apply(d, us[..|us| - 1])[u.blk := u.data]
  }

  function Flatten(gs: seq<seq<Update>>): seq<Update> {
    if gs == [] then [] else Flatten(gs[..|gs| - 1]) + gs[|gs| - 1]
  }

  ghost predicate EqHome(start: nat, d: Disk, e: Disk) {
    |d| == |e| && forall b :: IsHome(start, |d|, b) ==> d[b] == e[b]
  }

  // ---------------------------------------------------------------- the machine

  /** What bread returns: the buffered contents if there are any, else the disk's. */
  function View(d: Disk, cache: map<nat, Block>, b: nat): Block
    requires b < |d|
  {
    if b in cache then cache[b] else d[b]
  }

  /** What log_write checks before it looks for absorption (kernel/log.c:221). */
  predicate LogWritePanics(s: State) {
    |s.lh| >= LOGBLOCKS
  }

  predicate Enabled(s: State, e: Step) {
    match e
    case Begin(op) =>
      s.pc.Running? && op !in s.book.seen && |s.lh| + (|s.book.used| + 1) * MAXOPBLOCKS <= LOGBLOCKS
    case LogWrite(op, b, data) =>
      && s.pc.Running? && op in s.book.used && IsHome(s.start, |s.disk|, b)
      && (b !in s.lh ==> s.book.used[op] < MAXOPBLOCKS)
      && !LogWritePanics(s)
    case End(op) => s.pc.Running? && op in s.book.used
    case CommitStep => s.pc.WriteLog? || s.pc.Install? || s.pc.Finish?
    case RecoverStep => s.pc.Crashed? || s.pc.RecInstall?
    case Evict(b) => b !in s.lh
    case Crash => true
  }

  /** Does this step commit the current group? */
  predicate Commits(s: State, e: Step) {
    || (e.CommitStep? && s.pc == WriteLog(|s.lh|))
    || (e.End? && |s.book.used| == 1 && s.lh == [])
  }

  function CommitBook(b: Book): Book {
    b.(hist := if b.pending == [] then b.hist else b.hist + [b.pending], pending := [], ended := {}, durable := b.durable + b.ended)
  }

  function BookDo(b: Book, e: Step, appends: bool, commits: bool): Book {
    match e
    case Begin(op) => b.(used := b.used[op := 0], seen := b.seen + {op})
    case LogWrite(op, blk, data) =>
      b.(pending := b.pending + [Update(op, blk, data)],
         used := if appends && op in b.used then b.used[op := b.used[op] + 1] else b.used)
    case End(op) =>
      var c := b.(used := b.used - {op}, ended := b.ended + {op});
      if commits then CommitBook(c) else c
    case CommitStep => if commits then CommitBook(b) else b
    case Crash =>
      b.(used := map[], pending := [], ended := {}, lost := b.lost + b.ended + b.used.Keys)
    case _ => b
  }

  ghost predicate Shape(s: State) {
    && s.start + LOGBLOCKS < |s.disk|
    && WfList(s.start, |s.disk|, s.lh)
    && (s.pc.WriteLog? || s.pc.Install? || s.pc.RecInstall? ==> s.pc.tail <= |s.lh|)
    && WfHead(s.disk, s.start)
  }

  ghost function Do(s: State, e: Step): (r: State)
    requires Shape(s) && Enabled(s, e)
    ensures r.book == BookDo(s.book, e, e.LogWrite? && e.blk !in s.lh, Commits(s, e))
    ensures r.start == s.start && r.origin == s.origin
  {
    var book := BookDo(s.book, e, e.LogWrite? && e.blk !in s.lh, Commits(s, e));
    match e
    case Begin(op) => s.(book := book)
    case LogWrite(op, b, data) =>
      s.(cache := s.cache[b := data], lh := if b in s.lh then s.lh else s.lh + [b], book := book)
    case End(op) =>
      if |s.book.used| != 1 then s.(book := book)
      else if s.lh == [] then s.(book := book, pc := Finish)
      else s.(book := book, pc := WriteLog(0))
    case CommitStep => DoCommit(s).(book := book)
    case RecoverStep =>
      if s.pc.Crashed? then s.(lh := Head(s.disk, s.start), pc := RecInstall(0))
      else if s.pc.tail < |s.lh| then
        s.(disk := InstallOne(s.disk, s.start, s.lh, s.pc.tail), pc := RecInstall(s.pc.tail + 1))
      else
        s.(lh := [], disk := s.disk[s.start := HeadBlock(s.disk[s.start], [])], pc := Running)
    case Evict(b) => s.(cache := s.cache - {b})
    case Crash => s.(cache := map[], lh := [], pc := Crashed, book := book)
  }

  /** One block write of commit().  Writing the non-empty header is the commit point. */
  ghost function DoCommit(s: State): (r: State)
    requires Shape(s) && Enabled(s, CommitStep)
    ensures r.start == s.start && r.origin == s.origin
  {
    match s.pc
    case WriteLog(t) =>
      if t < |s.lh| then
        s.(disk := s.disk[s.start + 1 + t := View(s.disk, s.cache, s.lh[t])], pc := WriteLog(t + 1))
      else
        s.(disk := s.disk[s.start := HeadBlock(s.disk[s.start], s.lh)], pc := Install(0))
    case Install(t) =>
      if t < |s.lh| then
        s.(disk := InstallOne(s.disk, s.start, s.lh, t), pc := Install(t + 1))
      else
        s.(lh := [], disk := s.disk[s.start := HeadBlock(s.disk[s.start], [])], pc := Finish)
    case _ => s.(pc := Running)
  }

  /** Do as a total function: a step that is not enabled is skipped. */
  ghost function Next(s: State, e: Step): State {
    if Shape(s) && Enabled(s, e) then Do(s, e) else s
  }

  ghost predicate Init(s: State) {
    && s.start + LOGBLOCKS < |s.disk| && WfHead(s.disk, s.start) && Head(s.disk, s.start) == []
    && s == State(s.start, s.disk, map[], [], Crashed, s.disk, Book(map[], [], [], {}, {}, {}, {}))
  }

  // ---------------------------------------------------------------- the invariant

  ghost predicate BlocksOk(s: State) {
    && |s.origin| == |s.disk|
    && (forall i :: 0 <= i < |Flatten(s.book.hist)| ==> Flatten(s.book.hist)[i].blk < |s.disk|)
    && (forall i :: 0 <= i < |s.book.pending| ==> s.book.pending[i].blk < |s.disk|)
  }

  /** The file system after every committed group. */
  ghost function Committed(s: State): Disk
    requires BlocksOk(s)
  {
    Apply(s.origin, Flatten(s.book.hist))
  }

  ghost predicate ViewIs(start: nat, d: Disk, cache: map<nat, Block>, e: Disk) {
    |e| == |d| && forall b :: IsHome(start, |d|, b) ==> View(d, cache, b) == e[b]
  }

  ghost predicate Clean(start: nat, d: Disk, cache: map<nat, Block>, lh: seq<nat>) {
    forall b :: b in cache ==> IsHome(start, |d|, b) && (b !in lh ==> cache[b] == d[b])
  }

  /** The first t blocks of the group are in the log. */
  ghost predicate Logged(start: nat, d: Disk, cache: map<nat, Block>, lh: seq<nat>, t: nat)
    requires start + LOGBLOCKS < |d| && WfList(start, |d|, lh)
  {
    t <= |lh| && forall i :: 0 <= i < t ==> d[start + 1 + i] == View(d, cache, lh[i])
  }

  /** The first t blocks of the log are at home. */
  ghost predicate AtHome(start: nat, d: Disk, lh: seq<nat>, t: nat)
    requires start + LOGBLOCKS < |d| && WfList(start, |d|, lh)
  {
    t <= |lh| && forall i :: 0 <= i < t ==> d[lh[i]] == d[start + 1 + i]
  }

  ghost predicate Unused(s: State) {
    s.book.used == map[] && s.book.ended == {} && s.book.pending == []
  }

  ghost predicate PcInv(s: State)
    requires Shape(s) && BlocksOk(s)
  {
    match s.pc
    case Running =>
      && Head(s.disk, s.start) == [] && Clean(s.start, s.disk, s.cache, s.lh)
      && ViewIs(s.start, s.disk, s.cache, Apply(Committed(s), s.book.pending))
      && (forall i :: 0 <= i < |s.book.pending| ==> s.book.pending[i].blk in s.lh)
      && (s.book.used == map[] ==> Unused(s) && s.lh == [])
    case WriteLog(t) =>
      && Head(s.disk, s.start) == [] && Clean(s.start, s.disk, s.cache, s.lh)
      && ViewIs(s.start, s.disk, s.cache, Apply(Committed(s), s.book.pending))
      && Logged(s.start, s.disk, s.cache, s.lh, t) && s.book.used == map[]
    case Install(t) =>
      && Head(s.disk, s.start) == s.lh && Clean(s.start, s.disk, s.cache, s.lh)
      && ViewIs(s.start, s.disk, s.cache, Committed(s))
      && Logged(s.start, s.disk, s.cache, s.lh, |s.lh|) && AtHome(s.start, s.disk, s.lh, t) && Unused(s)
    case Finish =>
      && Head(s.disk, s.start) == [] && Clean(s.start, s.disk, s.cache, s.lh)
      && ViewIs(s.start, s.disk, s.cache, Committed(s)) && s.lh == [] && Unused(s)
    case Crashed => Unused(s) && s.cache == map[] && s.lh == []
    case RecInstall(t) =>
      && Unused(s) && s.cache == map[] && s.lh == Head(s.disk, s.start)
      && AtHome(s.start, s.disk, s.lh, t)
  }

  /** Slots the active operations may still take. */
  ghost function Unspent(used: map<nat, nat>): int {
    if used == map[] then 0
    else var op :| op in used; MAXOPBLOCKS - used[op] + Unspent(used - {op})
  }

  ghost predicate SpaceInv(s: State) {
    && (forall op :: op in s.book.used ==> s.book.used[op] <= MAXOPBLOCKS)
    && |s.lh| + Unspent(s.book.used) <= LOGBLOCKS
  }

  ghost predicate Inv(s: State) {
    && Shape(s) && BlocksOk(s) && PcInv(s) && SpaceInv(s)
    && EqHome(s.start, Recover(s.disk, s.start), Committed(s))
  }

  // ---------------------------------------------------------------- runs

  ghost predicate Legal(s: State, es: seq<Step>) {
    if es == [] then Init(s)
    else
      var pre := es[..|es| - 1];
      Legal(s, pre) && Enabled(Exec(s, pre), es[|es| - 1])
  }

  /** The state after a run. */
  ghost function Exec(s: State, es: seq<Step>): State {
    if es == [] then s
    else
      Next(Exec(s, es[..|es| - 1]), es[|es| - 1])
  }

  // ---------------------------------------------------------------- proofs

  lemma {:induction false} InstallFromAt(d: Disk, start: nat, lh: seq<nat>, t: nat, b: nat)
    requires start + LOGBLOCKS < |d| && WfList(start, |d|, lh) && t <= |lh| && b < |d|
    ensures forall i :: t <= i < |lh| && lh[i] == b ==> InstallFrom(d, start, lh, t)[b] == d[start + 1 + i]
    ensures b !in lh[t..] ==> InstallFrom(d, start, lh, t)[b] == d[b]
    decreases |lh| - t
  {
    if t < |lh| {
      InstallFromAt(InstallOne(d, start, lh, t), start, lh, t + 1, b);
      assert lh[t..] == [lh[t]] + lh[t + 1..];
    }
  }

  /** Recovery, block by block. */
  lemma RecoverAt(d: Disk, start: nat, b: nat)
    requires WfHead(d, start) && IsHome(start, |d|, b)
    ensures forall i :: 0 <= i < |Head(d, start)| && Head(d, start)[i] == b ==> Recover(d, start)[b] == d[start + 1 + i]
    ensures b !in Head(d, start) ==> Recover(d, start)[b] == d[b]
  {
    var lh := Head(d, start);
    InstallFromAt(d, start, lh, 0, b);
    assert lh[0..] == lh;
  }

  lemma {:induction false} ApplyAppend(d: Disk, us: seq<Update>, vs: seq<Update>)
    requires forall i :: 0 <= i < |us| ==> us[i].blk < |d|
    requires forall i :: 0 <= i < |vs| ==> vs[i].blk < |d|
    ensures Apply(d, us + vs) == Apply(Apply(d, us), vs)
  {
    if vs == [] {
      assert us + vs == us;
    } else {
      ApplyAppend(d, us, vs[..|vs| - 1]);
      assert (us + vs)[..|us + vs| - 1] == us + vs[..|vs| - 1];
    }
  }

  lemma {:induction false} UnspentRemove(used: map<nat, nat>, op: nat)
    requires op in used
    ensures Unspent(used) == MAXOPBLOCKS - used[op] + Unspent(used - {op})
    decreases |used|
  {
    var first :| first in used && Unspent(used) == MAXOPBLOCKS - used[first] + Unspent(used - {first});
    if first != op {
      UnspentRemove(used - {first}, op);
      UnspentRemove(used - {op}, first);
      assert used - {first} - {op} == used - {op} - {first};
    }
  }
}
