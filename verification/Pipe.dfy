/**
  The pipe of kernel/pipe.c: a ring of PIPESIZE bytes with 32-bit counters that wrap around.  A method is what a
  reader or writer does between acquiring the pipe's lock and giving it up, at the end or in order to sleep; runs of
  any number of readers and writers are sequences of such calls.
 */
module Pipe {

  const PIPESIZE := 512
  const WORD := 0x1_0000_0000

  type Byte = x: nat | x < 256

  datatype Outcome = Slept | Done(ret: int)

  class Ring {
    var data: array<Byte>
    var nread: nat
    var nwrite: nat
    var readopen: bool
    var writeopen: bool
    var readersAsleep: bool            // someone sleeps on &nread,
    var writersAsleep: bool            // on &nwrite
    ghost var stored: seq<Byte>        // every byte ever put into the ring
    ghost var delivered: seq<Byte>     // every byte ever handed to a reader

    /** What has been stored and not delivered is in the ring; the counters are the lengths modulo 2^32. */
    ghost predicate Valid()
      reads this, data
    {
      && data.Length == PIPESIZE
      && delivered <= stored && |stored| - |delivered| <= PIPESIZE
      && nread == |delivered| % WORD && nwrite == |stored| % WORD
      && forall k :: |delivered| <= k < |stored| ==> data[k % PIPESIZE] == stored[k]
    }

    /** Bytes in the ring. */
    ghost function InFlight(): nat
      reads this
      requires |delivered| <= |stored|
    {
      |stored| - |delivered|
    }

    /** Nobody sleeps who could go on: no lost wakeup. */
    ghost predicate Awake()
      reads this
      requires |delivered| <= |stored|
    {
      && (readersAsleep ==> InFlight() == 0 && writeopen)
      && (writersAsleep ==> InFlight() == PIPESIZE && readopen)
    }

    /** Bytes come out in the order they went in, and the counters tell how many are inside. */
    lemma Fifo()
      requires Valid()
      ensures stored == delivered + stored[|delivered|..]
      ensures (nwrite - nread) % WORD == InFlight() <= PIPESIZE
    {
      Distance(|delivered|, |stored|);
    }

    constructor ()
      ensures Valid() && fresh(data) && stored == [] && delivered == [] && readopen && writeopen && !readersAsleep && !writersAsleep
    {
      data := new Byte[PIPESIZE];
      nread, nwrite, readopen, writeopen := 0, 0, true, true;
      readersAsleep, writersAsleep := false, false;
      stored, delivered := [], [];
    }

    /**
      pipewrite from byte i on, until it returns or sleeps; `src` is what can be read of the n bytes, and the
      process is killed by the time it comes to byte killedAt.  It sleeps only if the ring is full.  Readers are woken
      unless it returns -1: then bytes stored before may be left to a reader that sleeps on.
     */
    method Write(src: seq<Byte>, n: nat, i: nat, killedAt: nat) returns (i': nat, out: Outcome)
      requires Valid() && i <= |src| <= n
      modifies `nwrite, `stored, `readersAsleep, `writersAsleep, data
      ensures Valid() && i <= i' <= |src| && stored == old(stored) + src[i..i']
      ensures out == Slept ==> i' < n && InFlight() == PIPESIZE && readopen && i' < killedAt
      ensures out.Done? ==> if i' < n && (!readopen || i' >= killedAt) then out.ret == -1 else out.ret == i' == |src|
      ensures !readopen || i >= killedAt ==> i' == i
      ensures (i' > i ==> i' <= killedAt) && (out == Done(-1) && readopen && i < killedAt ==> i' == killedAt)
      ensures readersAsleep == (old(readersAsleep) && out == Done(-1)) && writersAsleep == (old(writersAsleep) || out == Slept)
      ensures old(Awake()) ==> (Awake() <==> !(old(readersAsleep) && out == Done(-1) && i' > i))
    {
      i' := i;
      while i' < n
        invariant Valid() && i <= i' <= |src| && stored == old(stored) + src[i..i'] && delivered == old(delivered)
        invariant i' > i ==> readopen && i < killedAt && i' <= killedAt
        invariant readersAsleep == old(readersAsleep) && writersAsleep == old(writersAsleep)
        invariant InFlight() == old(InFlight()) + (i' - i)
        decreases n - i'
      {
        if !readopen || i' >= killedAt {
          return i', Done(-1);
        }
        FullIs(|delivered|, |stored|);
        if nwrite == (nread + PIPESIZE) % WORD {
          readersAsleep, writersAsleep := false, true;
          return i', Slept;
        }
        if i' == |src| {
          break;
        }
        Slot(|stored|);
        OtherSlots(|delivered|, |stored|);
        data[nwrite % PIPESIZE] := src[i'];
        nwrite := (nwrite + 1) % WORD;
        stored := stored + [src[i']];
        i' := i' + 1;
      }
      readersAsleep := false;
      return i', Done(i');
    }

    /**
      piperead until it returns or sleeps, into a buffer of which `room` bytes can be written.  It sleeps only if
      the ring is empty and a writer may come.  Bytes are taken out of the ring only if they are delivered.
     */
    method Read(n: nat, room: nat, killed: bool) returns (got: seq<Byte>, out: Outcome)
      requires Valid()
      modifies `nread, `delivered, `readersAsleep, `writersAsleep
      ensures Valid() && delivered == old(delivered) + got
      ensures out == Slept ==> got == [] && InFlight() == 0 && writeopen && !killed
      ensures out.Done? && old(InFlight()) == 0 && writeopen ==> killed && out.ret == -1 && got == []
      ensures out.Done? && (old(InFlight()) > 0 || !writeopen) ==>
                && |got| == Min(Min(n, room), old(InFlight()))
                && out.ret == if got == [] && room == 0 && n > 0 && old(InFlight()) > 0 then -1 else |got|
      ensures readersAsleep == (old(readersAsleep) || out == Slept)
      ensures writersAsleep == (old(writersAsleep) && old(InFlight()) == 0 && writeopen)
      ensures old(Awake()) ==> Awake()
    {
      got := [];
      EmptyIs(|delivered|, |stored|);
      if nread == nwrite && writeopen {
        if killed {
          return got, Done(-1);
        }
        readersAsleep := true;
        return got, Slept;
      }
      var i := 0;
      while i < n
        invariant 0 <= i <= n && i == |got| <= room && i <= old(InFlight())
        invariant Valid() && delivered == old(delivered) + got
        invariant readersAsleep == old(readersAsleep) && writersAsleep == old(writersAsleep)
      {
        EmptyIs(|delivered|, |stored|);
        if nread == nwrite {
          break;
        }
        Slot(|delivered|);
        var ch := data[nread % PIPESIZE];
        if i == room {
          writersAsleep := false;
          return got, Done(if i == 0 then -1 else i);
        }
        nread := (nread + 1) % WORD;
        delivered := delivered + [ch];
        got := got + [ch];
        i := i + 1;
      }
      writersAsleep := false;
      return got, Done(i);
    }

    /** pipeclose: true if the pipe is to be freed. */
    method Close(writable: bool) returns (last: bool)
      requires Valid()
      modifies `readopen, `writeopen, `readersAsleep, `writersAsleep
      ensures Valid() && readopen == (old(readopen) && writable) && writeopen == (old(writeopen) && !writable)
      ensures last <==> !readopen && !writeopen
      ensures readersAsleep == (old(readersAsleep) && !writable) && writersAsleep == (old(writersAsleep) && writable)
      ensures old(Awake()) ==> Awake()
    {
      if writable {
        writeopen := false;
        readersAsleep := false;
      } else {
        readopen := false;
        writersAsleep := false;
      }
      last := !readopen && !writeopen;
    }
  }

  /** A writer of two bytes killed after the first leaves a reader asleep with a byte to read. */
  method KilledWriter() returns (p: Ring)
    ensures p.Valid() && p.readersAsleep && |p.stored| == 1 && p.delivered == [] && !p.Awake()
  {
    p := new Ring();
    var got, out := p.Read(1, 1, false);
    var i, out2 := p.Write([7, 8], 2, 0, 1);
    assert p.InFlight() == |p.stored|;
  }

  function Min(a: nat, b: nat): nat { if a < b then a else b }

  /** The test for a full ring is right in spite of wrap-around. */
  lemma FullIs(r: nat, w: nat)
    requires r <= w <= r + PIPESIZE
    ensures w % WORD == (r % WORD + PIPESIZE) % WORD <==> w == r + PIPESIZE
  {
    Distance(r, w);
    Distance(r, r + PIPESIZE);
    assert (r % WORD + PIPESIZE) % WORD == (r + PIPESIZE) % WORD by { AddMod(r, PIPESIZE); }
  }

  lemma EmptyIs(r: nat, w: nat)
    requires r <= w <= r + PIPESIZE
    ensures r % WORD == w % WORD <==> r == w
  {
    Distance(r, w);
  }

  /** The number in flight is the difference of the counters modulo 2^32. */
  lemma Distance(r: nat, w: nat)
    requires r <= w <= r + PIPESIZE
    ensures (w % WORD - r % WORD) % WORD == w - r
  {
    var q, p := w / WORD, r / WORD;
    assert w - r == (w % WORD - r % WORD) + (q - p) * WORD;
    AddMul(w % WORD - r % WORD, q - p);
  }

  lemma AddMul(a: int, k: int)
    ensures (a + k * WORD) % WORD == a % WORD
  {}

  lemma AddMod(a: nat, b: nat)
    ensures (a % WORD + b) % WORD == (a + b) % WORD
  {
    assert a + b == (a % WORD + b) + a / WORD * WORD;
    AddMul(a % WORD + b, a / WORD);
  }

  /** The slot of a wrapped counter is the slot of the count, because PIPESIZE divides 2^32. */
  lemma Slot(k: nat)
    ensures (k % WORD) % PIPESIZE == k % PIPESIZE && (k + 1) % WORD == (k % WORD + 1) % WORD
  {
    assert k == k % WORD + k / WORD * 8388608 * PIPESIZE;
    SlotMul(k % WORD, k / WORD * 8388608);
    AddMod(k, 1);
  }

  lemma SlotMul(a: nat, m: nat)
    ensures (a + m * PIPESIZE) % PIPESIZE == a % PIPESIZE
  {}

  /** The slot to be written is not in use. */
  lemma OtherSlots(r: nat, w: nat)
    requires r <= w < r + PIPESIZE
    ensures forall k :: r <= k < w ==> k % PIPESIZE != w % PIPESIZE
  {
    forall k | r <= k < w ensures k % PIPESIZE != w % PIPESIZE {
      assert 0 < w - k < PIPESIZE;
    }
  }
}
