/**
 Any number of readers and writers on one pipe (kernel/pipe.c), a byte at a time.  A thread takes its
 steps while it holds the pipe's lock; sleep gives up the lock and sleeps in one step with
 respect to wakeup, which the sleep and wakeup protocol guarantees.
 */
module PipeRuns {
  import opened Pipe

  /** Where a thread is in pipewrite or piperead. */
  datatype Pc =
    | Idle
    | WriteLoop(src: seq<Byte>, i: nat)    // holds the lock, at the top of the loop
    | WriteAsleep(src: seq<Byte>, i: nat)  // on &pi->nwrite
    | WriteWoken(src: seq<Byte>, i: nat)   // to take the lock (again)
    | WriteDone                            // holds the lock, about to wake readers and return
    | ReadTest(n: nat)                     // holds the lock, at the test for an empty pipe
    | ReadAsleep(n: nat)                   // on &pi->nread
    | ReadWoken(n: nat)                    // to take the lock (again)
    | ReadLoop(n: nat, i: nat)             // holds the lock, copying
    | ReadDone                             // holds the lock, about to wake writers and return

  datatype Option = None | Some(value: nat)

  datatype State = State(
    ring: Ring,
    readopen: bool,
    writeopen: bool,
    lock: Option,
    pcs: seq<Pc>,
    killed: set<nat>,
    /** Every byte ever stored and ever fetched, in order. */
    stored: seq<Byte>,
    consumed: seq<Byte>)

  datatype Event =
    | Write(t: nat, src: seq<Byte>)   // call pipewrite
    | Read(t: nat, n: nat)            // call piperead
    | Lock(t: nat)                    // acquire, at the start or after a sleep
    | Go(t: nat, fails: bool)         // the next step; fails: a copy from or to user memory fails
    | CloseRead
    | CloseWrite
    | Kill(t: nat)

  predicate Reading(pc: Pc) { pc.ReadTest? || pc.ReadAsleep? || pc.ReadWoken? || pc.ReadLoop? || pc.ReadDone? }

  predicate HasLock(pc: Pc) { pc.WriteLoop? || pc.WriteDone? || pc.ReadTest? || pc.ReadLoop? || pc.ReadDone? }

  predicate Enabled(s: State, e: Event) {
    match e
    case Write(t, _) => t < |s.pcs| && s.pcs[t].Idle?
    // A reader has the read end open.
    case Read(t, _) => t < |s.pcs| && s.pcs[t].Idle? && s.readopen
    case Lock(t) => t < |s.pcs| && s.lock.None? && (s.pcs[t].WriteWoken? || s.pcs[t].ReadWoken?)
    case Go(t, _) => t < |s.pcs| && HasLock(s.pcs[t])
    case CloseRead => s.lock.None? && forall t :: 0 <= t < |s.pcs| ==> !Reading(s.pcs[t])
    case CloseWrite => s.lock.None?
    case Kill(t) => t < |s.pcs|
  }

  /** wakeup(&pi->nread) and wakeup(&pi->nwrite) */
  function WakeReader(pc: Pc): Pc { match pc case ReadAsleep(n) => ReadWoken(n) case _ => pc }

  function WakeWriter(pc: Pc): Pc { match pc case WriteAsleep(src, i) => WriteWoken(src, i) case _ => pc }

  function WakeReaders(s: State): State {
    s.(pcs := seq(|s.pcs|, t requires 0 <= t < |s.pcs| => WakeReader(s.pcs[t])))
  }

  function WakeWriters(s: State): State {
    s.(pcs := seq(|s.pcs|, t requires 0 <= t < |s.pcs| => WakeWriter(s.pcs[t])))
  }

  function At(s: State, t: nat, pc: Pc): State
    requires t < |s.pcs|
  {
    s.(pcs := s.pcs[t := pc])
  }

  function Unlocked(s: State): State { s.(lock := None) }

  /** pipewrite's loop gives up: the read end is closed or the writer was killed. */
  predicate Quits(s: State, t: nat)
    requires t < |s.pcs| && s.pcs[t].WriteLoop?
  {
    s.pcs[t].i < |s.pcs[t].src| && (!s.readopen || t in s.killed)
  }

  function GoWrite(s: State, t: nat, fails: bool): State
    requires t < |s.pcs| && s.pcs[t].WriteLoop? && Size(s.ring) > 0
  {
    var src, i := s.pcs[t].src, s.pcs[t].i;
    if i >= |src| then At(s, t, WriteDone)
    else if !s.readopen || t in s.killed then Unlocked(At(s, t, Idle))
    else if Full(s.ring) then Unlocked(At(WakeReaders(s), t, WriteAsleep(src, i)))
    else if fails then At(s, t, WriteDone)
    else At(s, t, WriteLoop(src, i + 1)).(ring := Push(s.ring, src[i]), stored := s.stored + [src[i]])
  }

  function GoRead(s: State, t: nat, fails: bool): State
    requires t < |s.pcs| && (s.pcs[t].ReadTest? || s.pcs[t].ReadLoop?) && Size(s.ring) > 0
  {
    match s.pcs[t]
    case ReadTest(n) =>
      if s.ring.nread == s.ring.nwrite && s.writeopen then
        if t in s.killed then Unlocked(At(s, t, Idle)) else Unlocked(At(s, t, ReadAsleep(n)))
      else At(s, t, ReadLoop(n, 0))
    case ReadLoop(n, i) =>
      if i >= n || s.ring.nread == s.ring.nwrite then At(s, t, ReadDone)
      else
        At(s, t, if fails then ReadDone else ReadLoop(n, i + 1))
        .(ring := Pop(s.ring), consumed := s.consumed + [s.ring.data[s.ring.nread % Size(s.ring)]])
  }

  function Step(s: State, e: Event): State
    requires Enabled(s, e) && Size(s.ring) > 0
  {
    match e
    case Write(t, src) => At(s, t, WriteWoken(src, 0))
    case Read(t, n) => At(s, t, ReadWoken(n))
    case Lock(t) =>
      At(s, t, match s.pcs[t]
        case WriteWoken(src, i) => WriteLoop(src, i) case ReadWoken(n) => ReadTest(n) case pc => pc)
      .(lock := Some(t))
    case Go(t, fails) =>
      if s.pcs[t].WriteLoop? then GoWrite(s, t, fails)
      else if s.pcs[t].WriteDone? then Unlocked(At(WakeReaders(s), t, Idle))
      else if s.pcs[t].ReadDone? then Unlocked(At(WakeWriters(s), t, Idle))
      else GoRead(s, t, fails)
    case CloseRead => WakeWriters(s.(readopen := false))
    case CloseWrite => WakeReaders(s.(writeopen := false))
    case Kill(t) => At(s.(killed := s.killed + {t}), t, WakeReader(WakeWriter(s.pcs[t])))
  }

  predicate Runs(s: State, es: seq<Event>)
    requires Size(s.ring) > 0
    decreases |es|
  {
    es == [] || (Enabled(s, es[0]) && Runs(Step(s, es[0]), es[1..]))
  }

  function Final(s: State, es: seq<Event>): (t: State)
    requires Size(s.ring) > 0 && Runs(s, es)
    ensures Size(t.ring) > 0
    decreases |es|
  {
    if es == [] then s else Final(Step(s, es[0]), es[1..])
  }

  ghost predicate Init(s: State) {
    && SizeOk(Size(s.ring)) && s.ring.nread == s.ring.nwrite == 0 && s.readopen && s.writeopen && s.lock.None?
    && (forall t :: 0 <= t < |s.pcs| ==> s.pcs[t].Idle?) && s.stored == [] && s.consumed == []
  }

  // ----- The invariant -----

  ghost predicate Fifo(s: State) { Shaped(s.ring) && s.stored == s.consumed + Contents(s.ring) }

  /** The lock is held by a thread that may have stored bytes it has yet to announce. */
  predicate Storing(s: State) {
    s.lock.Some? && s.lock.value < |s.pcs| && (s.pcs[s.lock.value].WriteLoop? || s.pcs[s.lock.value].WriteDone?)
  }

  /** The lock is held by a thread that may have fetched bytes and will wake the writers. */
  predicate Fetching(s: State) {
    s.lock.Some? && s.lock.value < |s.pcs| && (s.pcs[s.lock.value].ReadLoop? || s.pcs[s.lock.value].ReadDone?)
  }

  ghost predicate ThreadOk(s: State, t: nat)
    requires t < |s.pcs| && Shaped(s.ring)
  {
    && (s.lock == Some(t) <==> HasLock(s.pcs[t]))
    && (Reading(s.pcs[t]) ==> s.readopen)
    && (s.pcs[t].WriteAsleep? ==> s.readopen && (Count(s.ring) == Size(s.ring) || Fetching(s)))
    && (s.pcs[t].ReadAsleep? ==> s.writeopen)
  }

  ghost predicate Inv(s: State) {
    && Fifo(s) && (s.lock.Some? ==> s.lock.value < |s.pcs|)
    && forall t :: 0 <= t < |s.pcs| ==> ThreadOk(s, t)
  }

  // ----- Readers that are left asleep -----

  ghost predicate ReaderAsleep(s: State) { exists u :: 0 <= u < |s.pcs| && s.pcs[u].ReadAsleep? }

  /** A reader sleeps although there are bytes to read, and nobody is about to wake it. */
  ghost predicate Stranded(s: State) { s.lock.None? && ReaderAsleep(s) && Shaped(s.ring) && Count(s.ring) > 0 }

  /** A killed writer quits, without waking readers, while bytes are in the pipe and a reader sleeps. */
  ghost predicate Strands(s: State, e: Event) {
    && e.Go? && e.t < |s.pcs| && s.pcs[e.t].WriteLoop? && Quits(s, e.t)
    && Shaped(s.ring) && Count(s.ring) > 0 && ReaderAsleep(s)
  }

  /** Until a writer strands a reader, one sleeps only on an empty pipe or while a writer is storing. */
  ghost predicate Attended(s: State)
    requires Shaped(s.ring)
  {
    ReaderAsleep(s) ==> Count(s.ring) == 0 || Storing(s)
  }

  lemma InitInv(s: State)
    requires Init(s)
    ensures Inv(s) && Attended(s)
  {
  }

  lemma WriteFifo(s: State, t: nat, fails: bool)
    requires Inv(s) && t < |s.pcs| && s.pcs[t].WriteLoop?
    ensures Fifo(GoWrite(s, t, fails))
  {
    FullEmpty(s.ring);
    if s.pcs[t].i < |s.pcs[t].src| && !Full(s.ring) {
      PushContents(s.ring, s.pcs[t].src[s.pcs[t].i]);
    }
  }

  lemma ReadFifo(s: State, t: nat, fails: bool)
    requires Inv(s) && t < |s.pcs| && (s.pcs[t].ReadTest? || s.pcs[t].ReadLoop?)
    ensures Fifo(GoRead(s, t, fails))
  {
    FullEmpty(s.ring);
    if s.ring.nread != s.ring.nwrite {
      PopContents(s.ring);
    }
  }

  lemma WriteThreads(s: State, t: nat, fails: bool, u: nat)
    requires Inv(s) && t < |s.pcs| && s.pcs[t].WriteLoop? && u < |s.pcs|
    ensures Shaped(GoWrite(s, t, fails).ring) && ThreadOk(GoWrite(s, t, fails), u)
  {
    WriteFifo(s, t, fails);
    FullEmpty(s.ring);
    assert ThreadOk(s, t) && ThreadOk(s, u);
  }

  lemma ReadThreads(s: State, t: nat, fails: bool, u: nat)
    requires Inv(s) && t < |s.pcs| && (s.pcs[t].ReadTest? || s.pcs[t].ReadLoop?) && u < |s.pcs|
    ensures Shaped(GoRead(s, t, fails).ring) && ThreadOk(GoRead(s, t, fails), u)
  {
    ReadFifo(s, t, fails);
    FullEmpty(s.ring);
    assert ThreadOk(s, t) && ThreadOk(s, u);
    if s.pcs[t].ReadLoop? && s.ring.nread != s.ring.nwrite {
      PopContents(s.ring);
    }
  }

  /** Steps that leave the bytes alone. */
  lemma OtherThreads(s: State, e: Event, u: nat)
    requires Inv(s) && Enabled(s, e) && u < |s.pcs|
    requires e.Go? ==> s.pcs[e.t].WriteDone? || s.pcs[e.t].ReadDone?
    ensures Step(s, e).ring == s.ring && ThreadOk(Step(s, e), u)
  {
    assert ThreadOk(s, u);
    if !e.CloseRead? && !e.CloseWrite? {
      assert ThreadOk(s, e.t);
    }
  }

  lemma WriteKeepsInv(s: State, t: nat, fails: bool)
    requires Inv(s) && t < |s.pcs| && s.pcs[t].WriteLoop?
    ensures Inv(GoWrite(s, t, fails))
  {
    var s' := GoWrite(s, t, fails);
    WriteFifo(s, t, fails);
    forall u | 0 <= u < |s'.pcs| ensures ThreadOk(s', u) {
      WriteThreads(s, t, fails, u);
    }
  }

  lemma ReadKeepsInv(s: State, t: nat, fails: bool)
    requires Inv(s) && t < |s.pcs| && (s.pcs[t].ReadTest? || s.pcs[t].ReadLoop?)
    ensures Inv(GoRead(s, t, fails))
  {
    var s' := GoRead(s, t, fails);
    ReadFifo(s, t, fails);
    forall u | 0 <= u < |s'.pcs| ensures ThreadOk(s', u) {
      ReadThreads(s, t, fails, u);
    }
  }

  lemma OtherKeepsInv(s: State, e: Event)
    requires Inv(s) && Enabled(s, e)
    requires e.Go? ==> s.pcs[e.t].WriteDone? || s.pcs[e.t].ReadDone?
    ensures Inv(Step(s, e))
  {
    var s' := Step(s, e);
    assert s'.ring == s.ring && s'.stored == s.stored && s'.consumed == s.consumed && |s'.pcs| == |s.pcs|;
    forall u | 0 <= u < |s'.pcs| ensures ThreadOk(s', u) {
      OtherThreads(s, e, u);
    }
  }

  lemma StepKeepsInv(s: State, e: Event)
    requires Inv(s) && Enabled(s, e)
    ensures Inv(Step(s, e))
  {
    if e.Go? && s.pcs[e.t].WriteLoop? {
      WriteKeepsInv(s, e.t, e.fails);
    } else if e.Go? && (s.pcs[e.t].ReadTest? || s.pcs[e.t].ReadLoop?) {
      ReadKeepsInv(s, e.t, e.fails);
    } else {
      OtherKeepsInv(s, e);
    }
  }

  /** A reader asleep after a step was asleep before it, or has just found the pipe empty. */
  lemma SleepersStay(s: State, e: Event)
    requires Inv(s) && Enabled(s, e) && ReaderAsleep(Step(s, e))
    ensures ReaderAsleep(s) || (Step(s, e).ring == s.ring && Count(s.ring) == 0)
  {
    var u :| 0 <= u < |Step(s, e).pcs| && Step(s, e).pcs[u].ReadAsleep?;
    FullEmpty(s.ring);
  }

  lemma StepAttends(s: State, e: Event)
    requires Inv(s) && Attended(s) && Enabled(s, e) && !Strands(s, e)
    ensures Inv(Step(s, e)) && Attended(Step(s, e))
  {
    StepKeepsInv(s, e);
    var s' := Step(s, e);
    if ReaderAsleep(s') {
      SleepersStay(s, e);
      if !e.CloseRead? && !e.CloseWrite? {
        assert ThreadOk(s, e.t);
      }
      if s.lock.Some? {
        assert ThreadOk(s, s.lock.value);
      }
    }
  }

  lemma {:induction false} RunKeepsInv(s: State, es: seq<Event>)
    requires Inv(s) && Runs(s, es)
    ensures Inv(Final(s, es))
    decreases |es|
  {
    if es != [] {
      StepKeepsInv(s, es[0]);
      RunKeepsInv(Step(s, es[0]), es[1..]);
    }
  }

  /** No state of the run is stranded. */
  ghost predicate NeverStranded(s: State, es: seq<Event>)
    requires Size(s.ring) > 0 && Runs(s, es)
    decreases |es|
  {
    !Stranded(s) && (es != [] ==> NeverStranded(Step(s, es[0]), es[1..]))
  }

  /** No step of the run strands a reader. */
  ghost predicate NoneStrands(s: State, es: seq<Event>)
    requires Size(s.ring) > 0 && Runs(s, es)
    decreases |es|
  {
    es != [] ==> !Strands(s, es[0]) && NoneStrands(Step(s, es[0]), es[1..])
  }

  /**
   In every run the bytes fetched are the first of the bytes stored, the rest, at most its size, are in the
   ring, and a writer sleeps with the lock free only on a full pipe whose read end is open.
   */
  lemma PipeIsFifo(s: State, es: seq<Event>, u: nat)
    requires Init(s) && Runs(s, es) && u < |Final(s, es).pcs|
    ensures var t := Final(s, es);
      && Shaped(t.ring) && t.stored == t.consumed + Contents(t.ring) && |Contents(t.ring)| <= Size(t.ring)
      && (t.lock.None? && t.pcs[u].WriteAsleep? ==> Count(t.ring) == Size(t.ring) && t.readopen)
  {
    InitInv(s);
    RunKeepsInv(s, es);
    assert ThreadOk(Final(s, es), u);
  }

  /** What a stranding step leaves behind. */
  lemma StrandsStrands(s: State, e: Event)
    requires Inv(s) && Enabled(s, e) && Strands(s, e)
    ensures Stranded(Step(s, e))
  {
    var u :| 0 <= u < |s.pcs| && s.pcs[u].ReadAsleep?;
    assert Step(s, e).pcs[u] == s.pcs[u];
  }

  lemma {:induction false} StrandedIff(s: State, es: seq<Event>)
    requires Inv(s) && Attended(s) && Runs(s, es)
    ensures NeverStranded(s, es) <==> NoneStrands(s, es)
    decreases |es|
  {
    if es != [] {
      StepKeepsInv(s, es[0]);
      if Strands(s, es[0]) {
        StrandsStrands(s, es[0]);
      } else {
        StepAttends(s, es[0]);
        StrandedIff(Step(s, es[0]), es[1..]);
      }
    }
  }

  lemma {:induction false} LastNotStranded(s: State, es: seq<Event>)
    requires Size(s.ring) > 0 && Runs(s, es) && NeverStranded(s, es)
    ensures !Stranded(Final(s, es))
    decreases |es|
  {
    if es != [] {
      LastNotStranded(Step(s, es[0]), es[1..]);
    }
  }

  /**
   Exactly when readers are not left asleep: in a run, with the lock free, a reader sleeps only on an empty pipe
   in every state if and only if no killed writer quits while bytes are in the pipe and a reader sleeps.  The write
   end is open wherever a reader sleeps, in every run.
   */
  lemma ReaderSleeps(s: State, es: seq<Event>, u: nat)
    requires Init(s) && Runs(s, es) && u < |Final(s, es).pcs|
    ensures NeverStranded(s, es) <==> NoneStrands(s, es)
    ensures Final(s, es).pcs[u].ReadAsleep? ==> Final(s, es).writeopen
    ensures var t := Final(s, es);
      Shaped(t.ring) && (NoneStrands(s, es) && t.lock.None? && t.pcs[u].ReadAsleep? ==> Count(t.ring) == 0)
  {
    InitInv(s);
    RunKeepsInv(s, es);
    StrandedIff(s, es);
    assert ThreadOk(Final(s, es), u);
    if NoneStrands(s, es) {
      LastNotStranded(s, es);
    }
  }

  lemma RunsCons(s: State, e: Event, es: seq<Event>)
    requires Size(s.ring) > 0 && Enabled(s, e) && Runs(Step(s, e), es)
    ensures Runs(s, [e] + es) && Final(s, [e] + es) == Final(Step(s, e), es)
  {
    assert ([e] + es)[1..] == es;
  }

  /** It does happen: a reader waits, a writer stores one of two bytes and is killed, and the reader sleeps on. */
  lemma StrandingRun(s: State) returns (es: seq<Event>)
    requires Init(s) && |s.pcs| == 2 && s.killed == {}
    ensures Runs(s, es) && |Final(s, es).pcs| == 2
    ensures var t := Final(s, es); t.lock.None? && t.pcs[0].ReadAsleep? && Shaped(t.ring) && Count(t.ring) == 1
  {
    var s1 := Step(s, Read(0, 1));
    var s2 := Step(s1, Lock(0));
    var s3 := Step(s2, Go(0, false));
    es := KilledWriter(s3);
    RunsCons(s2, Go(0, false), es);
    es := [Go(0, false)] + es;
    RunsCons(s1, Lock(0), es);
    es := [Lock(0)] + es;
    RunsCons(s, Read(0, 1), es);
    es := [Read(0, 1)] + es;
  }

  lemma KilledWriter(s: State) returns (es: seq<Event>)
    requires SizeOk(Size(s.ring)) && s.ring.nread == s.ring.nwrite == 0 && s.readopen && s.lock.None?
    requires s.pcs == [ReadAsleep(1), Idle] && s.killed == {}
    ensures Runs(s, es) && |Final(s, es).pcs| == 2
    ensures var t := Final(s, es); t.lock.None? && t.pcs[0].ReadAsleep? && Shaped(t.ring) && Count(t.ring) == 1
  {
    var s1 := Step(s, Write(1, [7, 8]));
    var s2 := Step(s1, Lock(1));
    var s3 := Step(s2, Go(1, false));
    var s4 := Step(s3, Kill(1));
    es := [];
    RunsCons(s4, Go(1, false), es);
    es := [Go(1, false)] + es;
    RunsCons(s3, Kill(1), es);
    es := [Kill(1)] + es;
    RunsCons(s2, Go(1, false), es);
    es := [Go(1, false)] + es;
    RunsCons(s1, Lock(1), es);
    es := [Lock(1)] + es;
    RunsCons(s, Write(1, [7, 8]), es);
    es := [Write(1, [7, 8])] + es;
  }
}
