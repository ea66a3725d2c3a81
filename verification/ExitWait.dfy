/**
 fork, exit and wait (kernel/proc.c) as interleaved steps over the process table, wait_lock and
 the p->locks.  What another process does to p while holding p->lock is one step, possible only
 when that lock is free; a process that holds its own lock over several steps, as sleep
 and exit do, keeps it over those steps.
 */
module ExitWait {

  datatype Option = None | Some(value: nat)

  datatype ProcState = UNUSED | USED | RUNNABLE | RUNNING | SLEEPING | ZOMBIE

  /** What a process sleeps on: a process (wait sleeps on the waiter itself) or anything else. */
  datatype Chan = NoChan | OnProc(q: nat) | Elsewhere

  /** Where wakeup returns to: reparent's loop, or the rest of exit. */
  datatype Cont = Reparenting(i: nat) | Parting

  /** The next step of a process, named by what it is about to do. */
  datatype Pc =
    | Idle
    | ForkCopy(np: nat)         // kfork: copy memory into np, whose lock is held
    | ForkAcquire(np: nat)      //   acquire(&wait_lock)
    | ForkSetParent(np: nat)    //   np->parent = p
    | ForkRelease(np: nat)      //   release(&wait_lock)
    | ForkStart(np: nat)        //   np->state = RUNNABLE
    | ExitAcquire(status: int)  // kexit: acquire(&wait_lock)
    | Reparent(status: int, i: nat)                     // next child to give to init
    | Wakeup(status: int, chan: nat, j: nat, next: Cont) // next process to wake
    | ExitLock(status: int)     //   acquire(&p->lock)
    | ExitZombie(status: int)   //   p->xstate = status; p->state = ZOMBIE
    | ExitRelease               //   release(&wait_lock)
    | ExitSched                 //   sched(), never to return
    | Gone
    | WaitAcquire               // kwait: acquire(&wait_lock)
    | Scan(i: nat, kids: bool)  //   next process to look at
    | WaitReturn                //   release(&wait_lock) and return
    | WaitLock                  //   sleep: acquire(&p->lock)
    | WaitRelease               //     release(&wait_lock)
    | WaitSetState              //     p->chan = p; p->state = SLEEPING
    | WaitSched                 //     sched()
    | Asleep                    //     off the CPU
    | WaitReacquire             //     acquire(&wait_lock)

  datatype Proc = Proc(state: ProcState, pid: nat, parent: Option, chan: Chan, xstate: int, pc: Pc, plock: Option)

  datatype State = State(
    procs: seq<Proc>,
    waitLock: Option,
    nextPid: nat,
    /** The status each process exited with, and the (pid, status) pairs that kwait has returned. */
    exited: map<nat, int>,
    reaped: map<nat, int>)

  const INIT: nat := 0

  datatype Event =
    | Fork(p: nat, np: nat)       // call kfork; allocproc finds np
    | Exit(p: nat, status: int)   // call kexit
    | Wait(p: nat)                // call kwait
    | Go(p: nat, choice: bool)    // the next step; choice settles copies that may fail and killed()
    | Yield(p: nat)
    | SleepElsewhere(p: nat)
    | WakeElsewhere(p: nat)
    | Kill(p: nat)
    | Schedule(p: nat)

  function Fresh(): Proc { Proc(UNUSED, 0, None, NoChan, 0, Idle, None) }

  predicate Alive(x: Proc) { x.state.RUNNABLE? || x.state.RUNNING? || x.state.SLEEPING? }

  /** Holds no spinlock, so may be interrupted and give up the CPU. */
  predicate NoLock(pc: Pc) {
    pc.Idle? || pc.ForkAcquire? || pc.ForkStart? || pc.ExitAcquire? || pc.WaitAcquire? || pc.WaitReacquire?
  }

  predicate CanGo(s: State, p: nat)
    requires p < |s.procs|
  {
    var x := s.procs[p];
    (x.state.RUNNING? || x.pc.WaitSched? || x.pc.ExitRelease? || x.pc.ExitSched?)
    && (CanFork(s, p) || CanExit(s, p) || CanWait(s, p))
  }

  predicate CanFork(s: State, p: nat)
    requires p < |s.procs|
  {
    match s.procs[p].pc
    case ForkCopy(np) => np < |s.procs|
    case ForkAcquire(_) => s.waitLock.None?
    case ForkSetParent(np) => np < |s.procs|
    case ForkRelease(_) => true
    case ForkStart(np) => np < |s.procs| && s.procs[np].plock.None?
    case _ => false
  }

  predicate CanExit(s: State, p: nat)
    requires p < |s.procs|
  {
    match s.procs[p].pc
    case ExitAcquire(_) => s.waitLock.None?
    case Reparent(_, _) => true
    case Wakeup(_, _, j, _) => j < |s.procs| && j != p ==> s.procs[j].plock.None?
    case ExitLock(_) => s.procs[p].plock.None?
    case ExitZombie(_) => true
    case ExitRelease => true
    case ExitSched => true
    case _ => false
  }

  predicate CanWait(s: State, p: nat)
    requires p < |s.procs|
  {
    match s.procs[p].pc
    case WaitAcquire => s.waitLock.None?
    case WaitReacquire => s.waitLock.None?
    case Scan(i, _) => i < |s.procs| && s.procs[i].parent == Some(p) ==> s.procs[i].plock.None?
    case WaitReturn => true
    case WaitLock => s.procs[p].plock.None?
    case WaitRelease => true
    case WaitSetState => true
    case WaitSched => true
    case _ => false
  }

  predicate Enabled(s: State, e: Event) {
    e.p < |s.procs| && var x := s.procs[e.p];
    match e
    case Fork(p, np) => x.state.RUNNING? && x.pc.Idle? && np < |s.procs| &&
      s.procs[np].state.UNUSED? && s.procs[np].plock.None?
    case Exit(p, _) => x.state.RUNNING? && x.pc.Idle? && p != INIT
    case Wait(p) => x.state.RUNNING? && x.pc.Idle?
    case Go(p, _) => CanGo(s, p)
    case Yield(p) => x.state.RUNNING? && NoLock(x.pc) && x.plock.None?
    case SleepElsewhere(p) => x.state.RUNNING? && x.pc.Idle? && x.plock.None?
    case WakeElsewhere(p) => x.state.SLEEPING? && x.chan.Elsewhere? && x.plock.None?
    case Kill(p) => x.plock.None?
    case Schedule(p) => x.state.RUNNABLE? && x.plock.None?
  }

  function Put(s: State, p: nat, x: Proc): State
    requires p < |s.procs|
  {
    s.(procs := s.procs[p := x])
  }

  function At(s: State, p: nat, pc: Pc): State
    requires p < |s.procs|
  {
    Put(s, p, s.procs[p].(pc := pc))
  }

  function Resume(k: Cont, status: int): Pc {
    match k case Reparenting(i) => Reparent(status, i) case Parting => ExitLock(status)
  }

  /** wakeup's visit to one process. */
  function Rouse(x: Proc, chan: nat): Proc {
    if x.state.SLEEPING? && x.chan == OnProc(chan) then x.(state := RUNNABLE) else x
  }

  /** kwait finds zombie i: unless the copy of its status fails, it is freed and its pid returned. */
  function Reap(s: State, p: nat, i: nat, fails: bool): State
    requires p < |s.procs| && i < |s.procs|
  {
    if fails then At(s, p, WaitReturn)
    else At(Put(s, i, Fresh()), p, WaitReturn).(reaped := s.reaped[s.procs[i].pid := s.procs[i].xstate])
  }

  function GoFork(s: State, p: nat, choice: bool): State
    requires p < |s.procs| && CanFork(s, p)
  {
    match s.procs[p].pc
    case ForkCopy(np) =>
      if choice then At(Put(s, np, s.procs[np].(plock := None)), p, ForkAcquire(np))
      else At(Put(s, np, Fresh()), p, Idle)
    case ForkAcquire(np) => At(s, p, ForkSetParent(np)).(waitLock := Some(p))
    case ForkSetParent(np) => At(Put(s, np, s.procs[np].(parent := Some(p))), p, ForkRelease(np))
    case ForkRelease(np) => At(s, p, ForkStart(np)).(waitLock := None)
    case ForkStart(np) => At(Put(s, np, s.procs[np].(state := RUNNABLE)), p, Idle)
  }

  function GoExit(s: State, p: nat): State
    requires p < |s.procs| && CanExit(s, p)
  {
    var x := s.procs[p];
    match x.pc
    case ExitAcquire(st) => At(s, p, Reparent(st, 0)).(waitLock := Some(p))
    case Reparent(st, i) =>
      if i >= |s.procs| then
        At(s, p, if x.parent.Some? then Wakeup(st, x.parent.value, 0, Parting) else ExitLock(st))
      else if s.procs[i].parent == Some(p) then
        At(Put(s, i, s.procs[i].(parent := Some(INIT))), p, Wakeup(st, INIT, 0, Reparenting(i + 1)))
      else At(s, p, Reparent(st, i + 1))
    case Wakeup(st, c, j, k) =>
      if j >= |s.procs| then At(s, p, Resume(k, st))
      else if j == p then At(s, p, Wakeup(st, c, j + 1, k))
      else At(Put(s, j, Rouse(s.procs[j], c)), p, Wakeup(st, c, j + 1, k))
    case ExitLock(st) => Put(s, p, x.(pc := ExitZombie(st), plock := Some(p)))
    case ExitZombie(st) =>
      Put(s, p, x.(pc := ExitRelease, xstate := st, state := ZOMBIE)).(exited := s.exited[x.pid := st])
    case ExitRelease => At(s, p, ExitSched).(waitLock := None)
    case ExitSched => Put(s, p, x.(pc := Gone, plock := None))
  }

  function GoWait(s: State, p: nat, choice: bool): State
    requires p < |s.procs| && CanWait(s, p)
  {
    var x := s.procs[p];
    match x.pc
    case WaitAcquire => At(s, p, Scan(0, false)).(waitLock := Some(p))
    case Scan(i, kids) =>
      if i >= |s.procs| then At(s, p, if !kids || choice then WaitReturn else WaitLock)
      else if s.procs[i].parent != Some(p) then At(s, p, Scan(i + 1, kids))
      else if s.procs[i].state.ZOMBIE? then Reap(s, p, i, choice)
      else At(s, p, Scan(i + 1, true))
    case WaitReturn => At(s, p, Idle).(waitLock := None)
    case WaitLock => Put(s, p, x.(pc := WaitRelease, plock := Some(p)))
    case WaitRelease => At(s, p, WaitSetState).(waitLock := None)
    case WaitSetState => Put(s, p, x.(pc := WaitSched, chan := OnProc(p), state := SLEEPING))
    case WaitSched => Put(s, p, x.(pc := Asleep, plock := None))
    case WaitReacquire => At(s, p, Scan(0, false)).(waitLock := Some(p))
  }

  function Go1(s: State, p: nat, choice: bool): State
    requires p < |s.procs| && CanGo(s, p)
  {
    if CanFork(s, p) then GoFork(s, p, choice) else if CanExit(s, p) then GoExit(s, p) else GoWait(s, p, choice)
  }

  function Step(s: State, e: Event): State
    requires Enabled(s, e)
  {
    var x := s.procs[e.p];
    match e
    case Fork(p, np) =>
      At(Put(s, np, Fresh().(state := USED, pid := s.nextPid, plock := Some(p))), p, ForkCopy(np))
      .(nextPid := s.nextPid + 1)
    case Exit(p, status) => At(s, p, ExitAcquire(status))
    case Wait(p) => At(s, p, WaitAcquire)
    case Go(p, choice) => Go1(s, p, choice)
    case Yield(p) => Put(s, p, x.(state := RUNNABLE))
    case SleepElsewhere(p) => Put(s, p, x.(state := SLEEPING, chan := Elsewhere))
    case WakeElsewhere(p) => Put(s, p, x.(state := RUNNABLE))
    case Kill(p) => Put(s, p, if x.state.SLEEPING? then x.(state := RUNNABLE) else x)
    case Schedule(p) =>
      Put(s, p, x.(state := RUNNING, chan := NoChan, pc := if x.pc.Asleep? then WaitReacquire else x.pc))
  }

  predicate Runs(s: State, es: seq<Event>)
    decreases |es|
  {
    es == [] || (Enabled(s, es[0]) && Runs(Step(s, es[0]), es[1..]))
  }

  function Final(s: State, es: seq<Event>): State
    requires Runs(s, es)
    decreases |es|
  {
    if es == [] then s else Final(Step(s, es[0]), es[1..])
  }

  /** Only the first process exists. */
  predicate Init(s: State) {
    && s.waitLock.None? && s.nextPid == 2 && s.exited == map[] && s.reaped == map[]
    && |s.procs| > 0 && s.procs[INIT] == Fresh().(state := RUNNABLE, pid := 1)
    && forall p :: 0 < p < |s.procs| ==> s.procs[p] == Fresh()
  }

  // ----- The invariant -----

  predicate HasWait(pc: Pc) {
    pc.ForkSetParent? || pc.ForkRelease? || pc.Reparent? || pc.Wakeup? || pc.ExitLock? || pc.ExitZombie?
    || pc.ExitRelease? || pc.Scan? || pc.WaitReturn? || pc.WaitLock? || pc.WaitRelease?
  }

  predicate OwnLock(pc: Pc) {
    pc.ExitZombie? || pc.ExitRelease? || pc.ExitSched? || pc.WaitRelease? || pc.WaitSetState? || pc.WaitSched?
  }

  predicate Forking(pc: Pc) {
    pc.ForkCopy? || pc.ForkAcquire? || pc.ForkSetParent? || pc.ForkRelease? || pc.ForkStart?
  }

  predicate Exiting(pc: Pc) {
    pc.ExitAcquire? || pc.Reparent? || pc.Wakeup? || pc.ExitLock? || pc.ExitZombie? || pc.ExitRelease?
    || pc.ExitSched? || pc.Gone?
  }

  /** Asleep in kwait, or past release(&wait_lock) and about to be. */
  predicate InWait(x: Proc) { x.pc.WaitSetState? || x.pc.WaitSched? || (x.pc.Asleep? && x.state.SLEEPING?) }

  predicate LocksOk(s: State, p: nat)
    requires p < |s.procs|
  {
    var x := s.procs[p];
    && (s.waitLock == Some(p) <==> HasWait(x.pc))
    && (x.plock == Some(p) <==> OwnLock(x.pc))
    && (x.plock.Some? && x.plock.value != p ==> x.plock.value < |s.procs| && s.procs[x.plock.value].pc == ForkCopy(p))
    && (x.pc.ForkCopy? ==> x.pc.np < |s.procs| && s.procs[x.pc.np].plock == Some(p))
  }

  predicate StateOk(x: Proc, p: nat) {
    && (x.state.UNUSED? ==> x == Fresh())
    && (x.state.USED? ==> x.pc.Idle?)
    && (x.state.ZOMBIE? <==> x.pc.ExitRelease? || x.pc.ExitSched? || x.pc.Gone?)
    && (x.state.RUNNABLE? ==> x.pc.Asleep? || NoLock(x.pc))
    && (x.state.SLEEPING? ==> x.pc.WaitSched? || x.pc.Asleep? || x.pc.Idle?)
    && (x.pc.WaitSched? ==> x.state.SLEEPING?)
    && (x.pc.Asleep? ==> x.state.SLEEPING? || x.state.RUNNABLE?)
    && (x.chan.OnProc? <==> x.pc.WaitSched? || x.pc.Asleep?)
    && (x.chan.OnProc? ==> x.chan.q == p)
    && (p == INIT ==> Alive(x) && x.parent.None? && !Exiting(x.pc))
  }

  predicate ForkOk(s: State, p: nat)
    requires p < |s.procs|
  {
    var x := s.procs[p];
    Forking(x.pc) ==>
      && x.pc.np < |s.procs| && x.pc.np != p && s.procs[x.pc.np].state.USED?
      && s.procs[x.pc.np].parent == if x.pc.ForkRelease? || x.pc.ForkStart? then Some(p) else None
  }

  predicate OneForker(s: State, p: nat, q: nat)
    requires p < |s.procs| && q < |s.procs|
  {
    Forking(s.procs[p].pc) && Forking(s.procs[q].pc) && s.procs[p].pc.np == s.procs[q].pc.np ==> p == q
  }

  /** A parent is alive, and everyone but init who has started has one. */
  predicate ParentOk(s: State, p: nat)
    requires p < |s.procs|
  {
    var x := s.procs[p];
    && (x.parent.Some? ==> x.parent.value < |s.procs| && x.parent.value != p && Alive(s.procs[x.parent.value]))
    && ((Alive(x) || x.state.ZOMBIE?) && p != INIT ==> x.parent.Some?)
  }

  /** The part of the table that an exiting process has searched for children. */
  function Searched(pc: Pc, n: nat): nat {
    match pc
    case Reparent(_, i) => i
    case Wakeup(_, _, _, Reparenting(i)) => i
    case Wakeup(_, _, _, Parting) => n
    case ExitLock(_) => n
    case ExitZombie(_) => n
    case _ => 0
  }

  /** The part of the table that a waiting process has searched for zombies. */
  function Scanned(pc: Pc, n: nat): nat {
    match pc case Scan(i, _) => i case WaitLock => n case WaitRelease => n case _ => 0
  }

  /** What p, exiting or waiting, knows of slot c. */
  predicate KidOk(s: State, p: nat, c: nat)
    requires p < |s.procs| && c < |s.procs|
  {
    var pc := s.procs[p].pc;
    s.procs[c].parent == Some(p) ==>
      && c >= Searched(pc, |s.procs|)
      && (c < Scanned(pc, |s.procs|) ==> !s.procs[c].state.ZOMBIE? && (pc.Scan? ==> pc.kids))
  }

  /** An exiting process past its wakeup has left no parent asleep in kwait. */
  predicate WakeOk(s: State, p: nat)
    requires p < |s.procs|
  {
    var x := s.procs[p];
    && (x.pc.Wakeup? ==> Some(x.pc.chan) == if x.pc.next.Parting? then x.parent else Some(INIT))
    && (x.pc.Wakeup? && x.pc.next.Parting? && x.pc.chan < |s.procs| && InWait(s.procs[x.pc.chan]) ==>
       x.pc.j <= x.pc.chan)
    && (x.pc.ExitLock? || x.pc.ExitZombie? ==>
          x.parent.Some? && x.parent.value < |s.procs| && !InWait(s.procs[x.parent.value]))
  }

  /** p sleeps in kwait over a zombie child only while reparent's wakeup that will visit p is under way. */
  predicate NotMissed(s: State, p: nat, c: nat)
    requires p < |s.procs| && c < |s.procs|
  {
    s.procs[c].parent == Some(p) && s.procs[c].state.ZOMBIE? && InWait(s.procs[p]) ==>
      s.waitLock.Some? && s.waitLock.value < |s.procs| && Rousing(s.procs[s.waitLock.value].pc, p)
  }

  predicate Rousing(pc: Pc, p: nat) {
    pc.Wakeup? && pc.next.Reparenting? && pc.chan == p && pc.j <= p
  }

  predicate PidOk(s: State, p: nat)
    requires p < |s.procs|
  {
    var x := s.procs[p];
    !x.state.UNUSED? ==>
      && 0 < x.pid < s.nextPid && x.pid !in s.reaped
      && (x.pid in s.exited <==> x.state.ZOMBIE?) && (x.state.ZOMBIE? ==> s.exited[x.pid] == x.xstate)
  }

  predicate PidPair(s: State, p: nat, q: nat)
    requires p < |s.procs| && q < |s.procs|
  {
    !s.procs[p].state.UNUSED? && !s.procs[q].state.UNUSED? && s.procs[p].pid == s.procs[q].pid ==> p == q
  }

  predicate Records(s: State) {
    && (forall k :: k in s.exited ==> k < s.nextPid)
    && (forall k :: k in s.reaped ==> k in s.exited && s.reaped[k] == s.exited[k])
    && (s.waitLock.Some? ==> s.waitLock.value < |s.procs|) && |s.procs| > 0
  }

  predicate One(s: State, p: nat)
    requires p < |s.procs|
  {
    Locking(s, p) && Family(s, p)
  }

  predicate Locking(s: State, p: nat)
    requires p < |s.procs|
  {
    LocksOk(s, p) && Shape(s, p)
  }

  predicate Shape(s: State, p: nat)
    requires p < |s.procs|
  {
    StateOk(s.procs[p], p) && ForkOk(s, p)
  }

  predicate Family(s: State, p: nat)
    requires p < |s.procs|
  {
    ParentOk(s, p) && WakeOk(s, p) && PidOk(s, p)
  }

  predicate Two(s: State, p: nat, q: nat)
    requires p < |s.procs| && q < |s.procs|
  {
    Apart(s, p, q) && Kids(s, p, q)
  }

  predicate Apart(s: State, p: nat, q: nat)
    requires p < |s.procs| && q < |s.procs|
  {
    OneForker(s, p, q) && PidPair(s, p, q)
  }

  predicate Kids(s: State, p: nat, q: nat)
    requires p < |s.procs| && q < |s.procs|
  {
    KidOk(s, p, q) && NotMissed(s, p, q)
  }

  predicate Inv(s: State) {
    && Records(s)
    && (forall p :: 0 <= p < |s.procs| ==> One(s, p))
    && (forall p, q :: 0 <= p < |s.procs| && 0 <= q < |s.procs| ==> Two(s, p, q))
  }

  lemma InitInv(s: State)
    requires Init(s)
    ensures Inv(s)
  {
  }

  // ----- Steps that change the acting process alone -----

  /** Process p0 moves on by itself, perhaps taking or giving up wait_lock or its own lock. */
  predicate Local(s: State, s': State, p0: nat)
    requires p0 < |s.procs|
  {
    && |s'.procs| == |s.procs|
    && var x, y := s.procs[p0], s'.procs[p0];
    && s' == s.(procs := s.procs[p0 := y], waitLock := s'.waitLock)
    && y == x.(pc := y.pc, state := y.state, chan := y.chan, plock := y.plock)
    && (y.state.ZOMBIE? <==> x.state.ZOMBIE?) && (Alive(y) <==> Alive(x)) && !x.state.UNUSED? && !y.state.UNUSED?
    && StateOk(y, p0) && LocalLocks(s, s', p0) && LocalFork(x.pc, y.pc) && LocalSleep(s, s', p0)
  }

  predicate LocalLocks(s: State, s': State, p0: nat)
    requires p0 < |s.procs| == |s'.procs|
  {
    var x, y := s.procs[p0], s'.procs[p0];
    && (if HasWait(y.pc) then s'.waitLock == Some(p0) && s.waitLock in {None, Some(p0)}
        else s'.waitLock == if s.waitLock == Some(p0) then None else s.waitLock)
    && (if OwnLock(y.pc) then y.plock == Some(p0) else y.plock == if x.plock == Some(p0) then None else x.plock)
    && (x.plock.None? || x.plock == Some(p0) || y.plock == x.plock)
  }

  predicate LocalFork(pc: Pc, pc': Pc) {
    && (Forking(pc) <==> Forking(pc')) && (pc.ForkCopy? <==> pc'.ForkCopy?)
    && (Forking(pc) ==> pc'.np == pc.np && (pc'.ForkRelease? || pc'.ForkStart? <==> pc.ForkRelease? || pc.ForkStart?))
  }

  predicate LocalSleep(s: State, s': State, p0: nat)
    requires p0 < |s.procs| == |s'.procs|
  {
    var x, y := s.procs[p0], s'.procs[p0];
    && WakeOk(s', p0)
    && (InWait(y) && !InWait(x) ==> HasWait(x.pc) && Scanned(x.pc, |s.procs|) == |s.procs|)
    && (forall c :: 0 <= c < |s.procs| ==> KidOk(s', p0, c))
    && (forall p :: 0 <= p < |s.procs| && p != p0 && InWait(s.procs[p]) && Rousing(x.pc, p) ==> Rousing(y.pc, p))
  }

  lemma LocalLocking(s: State, s': State, p0: nat, p: nat)
    requires Inv(s) && p0 < |s.procs| && Local(s, s', p0) && p < |s.procs|
    ensures Locking(s', p)
  {
    assert One(s, p) && One(s, p0);
  }

  lemma LocalFamily(s: State, s': State, p0: nat, p: nat)
    requires Inv(s) && p0 < |s.procs| && Local(s, s', p0) && p < |s.procs|
    ensures Family(s', p)
  {
    assert One(s, p) && One(s, p0);
  }

  lemma LocalTwo(s: State, s': State, p0: nat, p: nat, q: nat)
    requires Inv(s) && p0 < |s.procs| && Local(s, s', p0) && p < |s.procs| && q < |s.procs|
    ensures Two(s', p, q)
  {
    assert One(s, p) && One(s, p0) && Two(s, p, q);
  }

  lemma QuietKids(s: State, e: Event)
    requires Inv(s) && Enabled(s, e) && !e.Go? && !e.Fork? && Step(s, e) != s
    ensures e.p < |s.procs| == |Step(s, e).procs| && forall c :: 0 <= c < |s.procs| ==> KidOk(Step(s, e), e.p, c)
  {
    var s' := Step(s, e);
    forall c | 0 <= c < |s.procs| ensures KidOk(s', e.p, c) {
      assert Two(s, e.p, c);
    }
  }

  lemma QuietLocal(s: State, e: Event)
    requires Inv(s) && Enabled(s, e) && !e.Go? && !e.Fork? && Step(s, e) != s
    ensures Local(s, Step(s, e), e.p)
  {
    assert One(s, e.p);
    QuietKids(s, e);
  }

  lemma ForkLocal(s: State, p: nat, choice: bool)
    requires Inv(s) && p < |s.procs| && CanGo(s, p) && CanFork(s, p)
    requires s.procs[p].pc.ForkAcquire? || s.procs[p].pc.ForkRelease?
    ensures Local(s, GoFork(s, p, choice), p)
  {
    assert One(s, p);
    forall c | 0 <= c < |s.procs| ensures KidOk(GoFork(s, p, choice), p, c) {
      assert Two(s, p, c);
    }
  }

  /** reparent finds a child at its place in the table. */
  predicate Gives(s: State, p: nat)
    requires p < |s.procs|
  {
    var pc := s.procs[p].pc;
    pc.Reparent? && pc.i < |s.procs| && s.procs[pc.i].parent == Some(p)
  }

  predicate Visits(s: State, p: nat)
    requires p < |s.procs|
  {
    var pc := s.procs[p].pc;
    pc.Wakeup? && pc.j < |s.procs| && pc.j != p
  }

  /** kwait finds a zombie child at its place in the table. */
  predicate Finds(s: State, p: nat)
    requires p < |s.procs|
  {
    var pc := s.procs[p].pc;
    pc.Scan? && pc.i < |s.procs| && s.procs[pc.i].parent == Some(p) && s.procs[pc.i].state.ZOMBIE?
  }

  lemma LoopLocal(s: State, p: nat)
    requires Inv(s) && p < |s.procs| && CanGo(s, p) && CanExit(s, p)
    requires !Gives(s, p) && !Visits(s, p) && (s.procs[p].pc.Reparent? || s.procs[p].pc.Wakeup?)
    ensures Local(s, GoExit(s, p), p)
  {
    assert One(s, p);
    var s' := GoExit(s, p);
    forall c | 0 <= c < |s.procs| ensures KidOk(s', p, c) {
      assert Two(s, p, c);
    }
    assert LocalLocks(s, s', p) && WakeOk(s', p);
  }

  lemma ExitLocal(s: State, p: nat)
    requires Inv(s) && p < |s.procs| && CanGo(s, p) && CanExit(s, p)
    requires !s.procs[p].pc.Reparent? && !s.procs[p].pc.Wakeup? && !s.procs[p].pc.ExitZombie?
    ensures Local(s, GoExit(s, p), p)
  {
    assert One(s, p);
    var s' := GoExit(s, p);
    forall c | 0 <= c < |s.procs| ensures KidOk(s', p, c) {
      assert Two(s, p, c);
    }
    assert LocalLocks(s, s', p) && WakeOk(s', p);
  }

  lemma ScanKids(s: State, p: nat, choice: bool)
    requires Inv(s) && p < |s.procs| && CanGo(s, p) && CanWait(s, p) && s.procs[p].pc.Scan? && !(Finds(s, p) && !choice)
    ensures var s' := GoWait(s, p, choice);
      |s'.procs| == |s.procs| && forall c :: 0 <= c < |s.procs| ==> KidOk(s', p, c)
  {
    var s' := GoWait(s, p, choice);
    forall c | 0 <= c < |s.procs| ensures KidOk(s', p, c) {
      assert Two(s, p, c);
    }
  }

  lemma ScanLocal(s: State, p: nat, choice: bool)
    requires Inv(s) && p < |s.procs| && CanGo(s, p) && CanWait(s, p) && s.procs[p].pc.Scan? && !(Finds(s, p) && !choice)
    ensures Local(s, GoWait(s, p, choice), p)
  {
    assert One(s, p);
    ScanKids(s, p, choice);
    assert LocalLocks(s, GoWait(s, p, choice), p);
  }

  lemma WaitLockLocal(s: State, p: nat, choice: bool)
    requires Inv(s) && p < |s.procs| && CanGo(s, p) && CanWait(s, p)
    requires (s.procs[p].pc.WaitAcquire? || s.procs[p].pc.WaitReacquire? || s.procs[p].pc.WaitReturn?)
    ensures Local(s, GoWait(s, p, choice), p)
  {
    assert One(s, p);
    var s' := GoWait(s, p, choice);
    forall c | 0 <= c < |s.procs| ensures KidOk(s', p, c) {
      assert Two(s, p, c);
    }
    assert LocalLocks(s, s', p);
  }

  lemma SleepLocal(s: State, p: nat, choice: bool)
    requires Inv(s) && p < |s.procs| && CanGo(s, p) && CanWait(s, p)
    requires s.procs[p].pc.WaitLock? || s.procs[p].pc.WaitRelease?
      || s.procs[p].pc.WaitSetState? || s.procs[p].pc.WaitSched?
    ensures Local(s, GoWait(s, p, choice), p)
  {
    assert One(s, p);
    var s' := GoWait(s, p, choice);
    forall c | 0 <= c < |s.procs| ensures KidOk(s', p, c) {
      assert Two(s, p, c);
    }
    assert LocalLocks(s, s', p);
  }

  /** wakeup's visit to j: first j, if asleep, is made runnable; then the loop moves on. */
  lemma VisitRouses(s: State, p: nat)
    requires Inv(s) && p < |s.procs| && CanGo(s, p) && Visits(s, p)
    ensures var j := s.procs[p].pc.j; var y := Rouse(s.procs[j], s.procs[p].pc.chan);
      y == s.procs[j] || Local(s, Put(s, j, y), j)
  {
    var j := s.procs[p].pc.j;
    var s' := Put(s, j, Rouse(s.procs[j], s.procs[p].pc.chan));
    assert One(s, p) && One(s, j);
    forall c | 0 <= c < |s.procs| ensures KidOk(s', j, c) {
      assert Two(s, j, c);
    }
  }

  lemma VisitKids(s: State, p: nat)
    requires Inv(s) && p < |s.procs| && CanGo(s, p) && Visits(s, p)
    ensures var pc := s.procs[p].pc; var s' := At(s, p, pc.(j := pc.j + 1));
      |s'.procs| == |s.procs| && forall c :: 0 <= c < |s.procs| ==> KidOk(s', p, c)
  {
    var pc := s.procs[p].pc;
    var s' := At(s, p, pc.(j := pc.j + 1));
    forall c | 0 <= c < |s.procs| ensures KidOk(s', p, c) {
      assert Two(s, p, c);
    }
  }

  lemma VisitMovesOn(s: State, p: nat)
    requires Inv(s) && p < |s.procs| && CanGo(s, p) && Visits(s, p)
    requires var pc := s.procs[p].pc; Rouse(s.procs[pc.j], pc.chan) == s.procs[pc.j]
    ensures var pc := s.procs[p].pc; Local(s, At(s, p, pc.(j := pc.j + 1)), p)
  {
    assert One(s, p) && One(s, s.procs[p].pc.j);
    VisitKids(s, p);
  }

  // ----- Steps that change another process too -----

  lemma CopiedLocks(s: State, p0: nat, p: nat)
    requires Inv(s) && p0 < |s.procs| && CanGo(s, p0) && s.procs[p0].pc.ForkCopy? && p < |s.procs|
    ensures LocksOk(GoFork(s, p0, true), p)
  {
    CopiedIs(s, p0);
    assert One(s, p) && One(s, p0);
  }

  /** The copy done: the child's lock is given up, and the parent goes on. */
  lemma CopiedIs(s: State, p0: nat)
    requires Inv(s) && p0 < |s.procs| && CanGo(s, p0) && s.procs[p0].pc.ForkCopy?
    ensures var s', np := GoFork(s, p0, true), s.procs[p0].pc.np;
      && np < |s.procs| && np != p0 && s.procs[np].plock == Some(p0) && LocksOk(s, np) && s'.waitLock == s.waitLock
      && s'.procs == s.procs[np := s.procs[np].(plock := None)][p0 := s.procs[p0].(pc := ForkAcquire(np))]
  {
    assert One(s, p0) && One(s, s.procs[p0].pc.np);
  }

  lemma CopiedShape(s: State, p0: nat, p: nat)
    requires Inv(s) && p0 < |s.procs| && CanGo(s, p0) && s.procs[p0].pc.ForkCopy? && p < |s.procs|
    ensures Shape(GoFork(s, p0, true), p)
  {
    var np := s.procs[p0].pc.np;
    assert One(s, p) && One(s, p0) && One(s, np) && Two(s, p0, p);
  }

  lemma CopiedParents(s: State, p0: nat, p: nat)
    requires Inv(s) && p0 < |s.procs| && CanGo(s, p0) && s.procs[p0].pc.ForkCopy? && p < |s.procs|
    ensures ParentOk(GoFork(s, p0, true), p)
  {
    var np := s.procs[p0].pc.np;
    assert One(s, p) && One(s, p0) && One(s, np) && Two(s, p0, p);
  }

  lemma CopiedWakes(s: State, p0: nat, p: nat)
    requires Inv(s) && p0 < |s.procs| && CanGo(s, p0) && s.procs[p0].pc.ForkCopy? && p < |s.procs|
    ensures WakeOk(GoFork(s, p0, true), p) && PidOk(GoFork(s, p0, true), p)
  {
    var np := s.procs[p0].pc.np;
    assert One(s, p) && One(s, p0) && One(s, np) && Two(s, p0, p);
  }

  lemma CopiedApart(s: State, p0: nat, p: nat, q: nat)
    requires Inv(s) && p0 < |s.procs| && CanGo(s, p0) && s.procs[p0].pc.ForkCopy? && p < |s.procs| && q < |s.procs|
    ensures Apart(GoFork(s, p0, true), p, q)
  {
    assert One(s, p) && One(s, p0) && One(s, s.procs[p0].pc.np) && Two(s, p, q);
  }

  lemma CopiedKids(s: State, p0: nat, p: nat, q: nat)
    requires Inv(s) && p0 < |s.procs| && CanGo(s, p0) && s.procs[p0].pc.ForkCopy? && p < |s.procs| && q < |s.procs|
    ensures Kids(GoFork(s, p0, true), p, q)
  {
    assert One(s, p) && One(s, p0) && One(s, s.procs[p0].pc.np) && Two(s, p, q);
  }

  lemma NotCopiedLocking(s: State, p0: nat, p: nat)
    requires Inv(s) && p0 < |s.procs| && CanGo(s, p0) && s.procs[p0].pc.ForkCopy? && p < |s.procs|
    ensures Locking(GoFork(s, p0, false), p)
  {
    var np := s.procs[p0].pc.np;
    assert One(s, p) && One(s, p0) && One(s, np) && Two(s, p0, p);
  }

  lemma NotCopiedFamily(s: State, p0: nat, p: nat)
    requires Inv(s) && p0 < |s.procs| && CanGo(s, p0) && s.procs[p0].pc.ForkCopy? && p < |s.procs|
    ensures Family(GoFork(s, p0, false), p)
  {
    var np := s.procs[p0].pc.np;
    assert One(s, p) && One(s, p0) && One(s, np) && Two(s, p0, p);
  }

  lemma NotCopiedTwo(s: State, p0: nat, p: nat, q: nat)
    requires Inv(s) && p0 < |s.procs| && CanGo(s, p0) && s.procs[p0].pc.ForkCopy? && p < |s.procs| && q < |s.procs|
    ensures Two(GoFork(s, p0, false), p, q)
  {
    assert One(s, p) && One(s, p0) && One(s, s.procs[p0].pc.np) && Two(s, p, q);
  }

  lemma ParentLocks(s: State, p0: nat, p: nat)
    requires Inv(s) && p0 < |s.procs| && CanGo(s, p0) && s.procs[p0].pc.ForkSetParent? && p < |s.procs|
    ensures LocksOk(GoFork(s, p0, true), p)
  {
    assert One(s, p) && One(s, p0) && One(s, s.procs[p0].pc.np) && Two(s, p0, p);
  }

  lemma ParentShape(s: State, p0: nat, p: nat)
    requires Inv(s) && p0 < |s.procs| && CanGo(s, p0) && s.procs[p0].pc.ForkSetParent? && p < |s.procs|
    ensures Shape(GoFork(s, p0, true), p)
  {
    assert One(s, p) && One(s, p0) && One(s, s.procs[p0].pc.np) && Two(s, p0, p);
  }

  lemma ParentFamily(s: State, p0: nat, p: nat)
    requires Inv(s) && p0 < |s.procs| && CanGo(s, p0) && s.procs[p0].pc.ForkSetParent? && p < |s.procs|
    ensures Family(GoFork(s, p0, true), p)
  {
    assert One(s, p) && One(s, p0) && One(s, s.procs[p0].pc.np) && Two(s, p0, p);
  }

  lemma ParentApart(s: State, p0: nat, p: nat, q: nat)
    requires Inv(s) && p0 < |s.procs| && CanGo(s, p0) && s.procs[p0].pc.ForkSetParent? && p < |s.procs| && q < |s.procs|
    ensures Apart(GoFork(s, p0, true), p, q)
  {
    assert One(s, p) && One(s, p0) && One(s, s.procs[p0].pc.np) && Two(s, p, q);
  }

  lemma ParentKids(s: State, p0: nat, p: nat, q: nat)
    requires Inv(s) && p0 < |s.procs| && CanGo(s, p0) && s.procs[p0].pc.ForkSetParent? && p < |s.procs| && q < |s.procs|
    ensures Kids(GoFork(s, p0, true), p, q)
  {
    assert One(s, p) && One(s, p0) && One(s, s.procs[p0].pc.np) && Two(s, p, q);
  }

  lemma StartLocks(s: State, p0: nat, p: nat)
    requires Inv(s) && p0 < |s.procs| && CanGo(s, p0) && s.procs[p0].pc.ForkStart? && p < |s.procs|
    ensures LocksOk(GoFork(s, p0, true), p)
  {
    assert One(s, p) && One(s, p0) && One(s, s.procs[p0].pc.np) && Two(s, p0, p);
  }

  lemma StartShape(s: State, p0: nat, p: nat)
    requires Inv(s) && p0 < |s.procs| && CanGo(s, p0) && s.procs[p0].pc.ForkStart? && p < |s.procs|
    ensures Shape(GoFork(s, p0, true), p)
  {
    assert One(s, p) && One(s, p0) && One(s, s.procs[p0].pc.np) && Two(s, p0, p);
  }

  lemma StartFamily(s: State, p0: nat, p: nat)
    requires Inv(s) && p0 < |s.procs| && CanGo(s, p0) && s.procs[p0].pc.ForkStart? && p < |s.procs|
    ensures Family(GoFork(s, p0, true), p)
  {
    assert One(s, p) && One(s, p0) && One(s, s.procs[p0].pc.np) && Two(s, p0, p);
  }

  lemma StartApart(s: State, p0: nat, p: nat, q: nat)
    requires Inv(s) && p0 < |s.procs| && CanGo(s, p0) && s.procs[p0].pc.ForkStart? && p < |s.procs| && q < |s.procs|
    ensures Apart(GoFork(s, p0, true), p, q)
  {
    assert One(s, p) && One(s, p0) && One(s, s.procs[p0].pc.np) && Two(s, p, q);
  }

  lemma StartKids(s: State, p0: nat, p: nat, q: nat)
    requires Inv(s) && p0 < |s.procs| && CanGo(s, p0) && s.procs[p0].pc.ForkStart? && p < |s.procs| && q < |s.procs|
    ensures Kids(GoFork(s, p0, true), p, q)
  {
    assert One(s, p) && One(s, p0) && One(s, s.procs[p0].pc.np) && Two(s, p, q);
  }

  lemma GiveLocks(s: State, p0: nat, p: nat)
    requires Inv(s) && p0 < |s.procs| && CanGo(s, p0) && Gives(s, p0) && p < |s.procs|
    ensures LocksOk(GoExit(s, p0), p)
  {
    GiveIs(s, p0);
    assert One(s, p) && One(s, p0) && One(s, s.procs[p0].pc.i);
  }

  /** Giving a child to init changes its parent, and where the giver is. */
  lemma GiveIs(s: State, p0: nat)
    requires Inv(s) && p0 < |s.procs| && CanGo(s, p0) && Gives(s, p0)
    ensures var s', i := GoExit(s, p0), s.procs[p0].pc.i;
      && i < |s.procs| && i != p0 && |s'.procs| == |s.procs| && s'.procs[p0].pc.Wakeup? && s'.waitLock == s.waitLock
      && s'.procs == s.procs[i := s.procs[i].(parent := Some(INIT))][p0 := s.procs[p0].(pc := s'.procs[p0].pc)]
  {
    assert One(s, p0);
  }

  lemma GiveShape(s: State, p0: nat, p: nat)
    requires Inv(s) && p0 < |s.procs| && CanGo(s, p0) && Gives(s, p0) && p < |s.procs|
    ensures Shape(GoExit(s, p0), p)
  {
    assert One(s, p) && One(s, p0) && One(s, s.procs[p0].pc.i) && One(s, INIT) && Two(s, p0, p);
    var s' := GoExit(s, p0);
    var i, y := s.procs[p0].pc.i, s'.procs[p0].pc;
    assert i != p0 && y.Wakeup?;
    assert s'.procs == s.procs[i := s.procs[i].(parent := Some(INIT))][p0 := s.procs[p0].(pc := y)];
  }

  lemma GiveFamily(s: State, p0: nat, p: nat)
    requires Inv(s) && p0 < |s.procs| && CanGo(s, p0) && Gives(s, p0) && p < |s.procs|
    ensures Family(GoExit(s, p0), p)
  {
    assert One(s, p) && One(s, p0) && One(s, s.procs[p0].pc.i) && One(s, INIT) && Two(s, p0, p);
  }

  lemma GiveApart(s: State, p0: nat, p: nat, q: nat)
    requires Inv(s) && p0 < |s.procs| && CanGo(s, p0) && Gives(s, p0) && p < |s.procs| && q < |s.procs|
    ensures Apart(GoExit(s, p0), p, q)
  {
    assert One(s, p) && One(s, p0) && One(s, s.procs[p0].pc.i) && One(s, INIT) && Two(s, p, q);
  }

  lemma GiveKids(s: State, p0: nat, p: nat, q: nat)
    requires Inv(s) && p0 < |s.procs| && CanGo(s, p0) && Gives(s, p0) && p < |s.procs| && q < |s.procs|
    ensures Kids(GoExit(s, p0), p, q)
  {
    assert One(s, p) && One(s, p0) && One(s, s.procs[p0].pc.i) && One(s, INIT) && Two(s, p, q);
  }

  lemma ZombieOne(s: State, p0: nat, p: nat)
    requires Inv(s) && p0 < |s.procs| && CanGo(s, p0) && s.procs[p0].pc.ExitZombie? && p < |s.procs|
    ensures One(GoExit(s, p0), p)
  {
    assert One(s, p) && One(s, p0) && Two(s, p0, p);
  }

  lemma ZombieTwo(s: State, p0: nat, p: nat, q: nat)
    requires Inv(s) && p0 < |s.procs| && CanGo(s, p0) && s.procs[p0].pc.ExitZombie? && p < |s.procs| && q < |s.procs|
    ensures Two(GoExit(s, p0), p, q)
  {
    assert One(s, p) && One(s, p0) && Two(s, p, q);
  }

  lemma ReapLocking(s: State, p0: nat, p: nat)
    requires Inv(s) && p0 < |s.procs| && CanGo(s, p0) && Finds(s, p0) && p < |s.procs|
    ensures Locking(GoWait(s, p0, false), p)
  {
    var i := s.procs[p0].pc.i;
    assert One(s, p) && One(s, p0) && One(s, i) && Two(s, i, p);
  }

  lemma ReapFamily(s: State, p0: nat, p: nat)
    requires Inv(s) && p0 < |s.procs| && CanGo(s, p0) && Finds(s, p0) && p < |s.procs|
    ensures Family(GoWait(s, p0, false), p)
  {
    var i := s.procs[p0].pc.i;
    assert One(s, p) && One(s, p0) && One(s, i) && Two(s, i, p);
  }

  lemma ReapTwo(s: State, p0: nat, p: nat, q: nat)
    requires Inv(s) && p0 < |s.procs| && CanGo(s, p0) && Finds(s, p0) && p < |s.procs| && q < |s.procs|
    ensures Two(GoWait(s, p0, false), p, q)
  {
    assert One(s, p) && One(s, p0) && One(s, s.procs[p0].pc.i) && Two(s, p, q);
  }

  lemma CallLocks(s: State, e: Event, p: nat)
    requires Inv(s) && Enabled(s, e) && e.Fork? && p < |s.procs|
    ensures LocksOk(Step(s, e), p)
  {
    assert One(s, p) && One(s, e.p) && One(s, e.np);
  }

  lemma CallShape(s: State, e: Event, p: nat)
    requires Inv(s) && Enabled(s, e) && e.Fork? && p < |s.procs|
    ensures Shape(Step(s, e), p)
  {
    assert One(s, p) && One(s, e.p) && One(s, e.np);
  }

  lemma CallParents(s: State, e: Event, p: nat)
    requires Inv(s) && Enabled(s, e) && e.Fork? && p < |s.procs|
    ensures ParentOk(Step(s, e), p)
  {
    assert One(s, p) && One(s, e.p) && One(s, e.np);
  }

  lemma CallWakes(s: State, e: Event, p: nat)
    requires Inv(s) && Enabled(s, e) && e.Fork? && p < |s.procs|
    ensures WakeOk(Step(s, e), p) && PidOk(Step(s, e), p)
  {
    assert One(s, p) && One(s, e.p) && One(s, e.np);
  }

  lemma CallApart(s: State, e: Event, p: nat, q: nat)
    requires Inv(s) && Enabled(s, e) && e.Fork? && p < |s.procs| && q < |s.procs|
    ensures Apart(Step(s, e), p, q)
  {
    assert One(s, p) && One(s, q) && One(s, e.p) && One(s, e.np) && Two(s, p, q);
  }

  lemma CallKids(s: State, e: Event, p: nat, q: nat)
    requires Inv(s) && Enabled(s, e) && e.Fork? && p < |s.procs| && q < |s.procs|
    ensures Kids(Step(s, e), p, q)
  {
    assert One(s, p) && One(s, q) && One(s, e.p) && One(s, e.np) && Two(s, p, q);
  }

  // ----- Every step, every run -----

  lemma LocalKeepsInv(s: State, s': State, p0: nat)
    requires Inv(s) && p0 < |s.procs| && Local(s, s', p0)
    ensures Inv(s')
  {
    forall p | 0 <= p < |s'.procs| ensures One(s', p) {
      LocalLocking(s, s', p0, p);
      LocalFamily(s, s', p0, p);
    }
    forall p, q | 0 <= p < |s'.procs| && 0 <= q < |s'.procs| ensures Two(s', p, q) {
      LocalTwo(s, s', p0, p, q);
    }
  }

  lemma ForkKeepsInv(s: State, p: nat, choice: bool)
    requires Inv(s) && p < |s.procs| && CanGo(s, p) && CanFork(s, p)
    ensures Inv(GoFork(s, p, choice))
  {
    var pc := s.procs[p].pc;
    var s' := GoFork(s, p, choice);
    if pc.ForkAcquire? || pc.ForkRelease? {
      ForkLocal(s, p, choice);
      LocalKeepsInv(s, s', p);
    } else {
      forall r | 0 <= r < |s'.procs| ensures One(s', r) {
        if pc.ForkCopy? && choice {
          CopiedLocks(s, p, r);
          CopiedShape(s, p, r);
          CopiedParents(s, p, r);
          CopiedWakes(s, p, r);
        } else if pc.ForkCopy? {
          NotCopiedLocking(s, p, r);
          NotCopiedFamily(s, p, r);
        } else if pc.ForkSetParent? {
          ParentLocks(s, p, r);
          ParentShape(s, p, r);
          ParentFamily(s, p, r);
        } else {
          StartLocks(s, p, r);
          StartShape(s, p, r);
          StartFamily(s, p, r);
        }
      }
      forall r, q | 0 <= r < |s'.procs| && 0 <= q < |s'.procs| ensures Two(s', r, q) {
        if pc.ForkCopy? && choice {
          CopiedApart(s, p, r, q);
          CopiedKids(s, p, r, q);
        } else if pc.ForkCopy? {
          NotCopiedTwo(s, p, r, q);
        } else if pc.ForkSetParent? {
          ParentApart(s, p, r, q);
          ParentKids(s, p, r, q);
        } else {
          StartApart(s, p, r, q);
          StartKids(s, p, r, q);
        }
      }
      assert Records(s');
    }
  }

  /** The first half of a visit: the process visited is made runnable. */
  lemma RouseKeepsInv(s: State, p: nat)
    requires Inv(s) && p < |s.procs| && CanGo(s, p) && Visits(s, p)
    ensures var pc := s.procs[p].pc; Inv(Put(s, pc.j, Rouse(s.procs[pc.j], pc.chan)))
  {
    var pc := s.procs[p].pc;
    var s1 := Put(s, pc.j, Rouse(s.procs[pc.j], pc.chan));
    VisitRouses(s, p);
    if s1.procs[pc.j] == s.procs[pc.j] {
      assert s1 == s;
    } else {
      LocalKeepsInv(s, s1, pc.j);
    }
  }

  lemma VisitKeepsInv(s: State, p: nat)
    requires Inv(s) && p < |s.procs| && CanGo(s, p) && Visits(s, p)
    ensures Inv(GoExit(s, p))
  {
    var pc := s.procs[p].pc;
    var s1 := Put(s, pc.j, Rouse(s.procs[pc.j], pc.chan));
    RouseKeepsInv(s, p);
    assert s1.procs[p] == s.procs[p] && CanGo(s1, p) && Visits(s1, p);
    VisitMovesOn(s1, p);
    LocalKeepsInv(s1, At(s1, p, pc.(j := pc.j + 1)), p);
  }

  lemma ExitKeepsInv(s: State, p: nat)
    requires Inv(s) && p < |s.procs| && CanGo(s, p) && CanExit(s, p)
    ensures Inv(GoExit(s, p))
  {
    var pc := s.procs[p].pc;
    var s' := GoExit(s, p);
    if Visits(s, p) {
      VisitKeepsInv(s, p);
    } else if Gives(s, p) || pc.ExitZombie? {
      forall r | 0 <= r < |s'.procs| ensures One(s', r) {
        if pc.ExitZombie? {
          ZombieOne(s, p, r);
        } else {
          GiveLocks(s, p, r);
          GiveShape(s, p, r);
          GiveFamily(s, p, r);
        }
      }
      forall r, q | 0 <= r < |s'.procs| && 0 <= q < |s'.procs| ensures Two(s', r, q) {
        if pc.ExitZombie? {
          ZombieTwo(s, p, r, q);
        } else {
          GiveApart(s, p, r, q);
          GiveKids(s, p, r, q);
        }
      }
      ExitRecords(s, p);
    } else {
      if pc.Reparent? || pc.Wakeup? {
        LoopLocal(s, p);
      } else {
        ExitLocal(s, p);
      }
      LocalKeepsInv(s, s', p);
    }
  }

  lemma ExitRecords(s: State, p: nat)
    requires Inv(s) && p < |s.procs| && CanGo(s, p) && (Gives(s, p) || s.procs[p].pc.ExitZombie?)
    ensures Records(GoExit(s, p))
  {
    assert One(s, p);
  }

  lemma WaitKeepsInv(s: State, p: nat, choice: bool)
    requires Inv(s) && p < |s.procs| && CanGo(s, p) && CanWait(s, p)
    ensures Inv(GoWait(s, p, choice))
  {
    var pc := s.procs[p].pc;
    var s' := GoWait(s, p, choice);
    if Finds(s, p) && !choice {
      forall r | 0 <= r < |s'.procs| ensures One(s', r) {
        ReapLocking(s, p, r);
        ReapFamily(s, p, r);
      }
      forall r, q | 0 <= r < |s'.procs| && 0 <= q < |s'.procs| ensures Two(s', r, q) {
        ReapTwo(s, p, r, q);
      }
      assert One(s, pc.i);
    } else {
      if pc.Scan? {
        ScanLocal(s, p, choice);
      } else if pc.WaitAcquire? || pc.WaitReacquire? || pc.WaitReturn? {
        WaitLockLocal(s, p, choice);
      } else {
        SleepLocal(s, p, choice);
      }
      LocalKeepsInv(s, s', p);
    }
  }

  lemma CallForkKeepsInv(s: State, e: Event)
    requires Inv(s) && Enabled(s, e) && e.Fork?
    ensures Inv(Step(s, e))
  {
    var s' := Step(s, e);
    forall p | 0 <= p < |s'.procs| ensures One(s', p) {
      CallLocks(s, e, p);
      CallShape(s, e, p);
      CallParents(s, e, p);
      CallWakes(s, e, p);
    }
    forall p, q | 0 <= p < |s'.procs| && 0 <= q < |s'.procs| ensures Two(s', p, q) {
      CallApart(s, e, p, q);
      CallKids(s, e, p, q);
    }
  }

  lemma StepKeepsInv(s: State, e: Event)
    requires Inv(s) && Enabled(s, e)
    ensures Inv(Step(s, e))
  {
    match e
    case Go(p, choice) =>
      if CanFork(s, p) {
        ForkKeepsInv(s, p, choice);
      } else if CanExit(s, p) {
        ExitKeepsInv(s, p);
      } else {
        WaitKeepsInv(s, p, choice);
      }
    case Fork(_, _) => CallForkKeepsInv(s, e);
    case _ =>
      if Step(s, e) != s {
        QuietLocal(s, e);
        LocalKeepsInv(s, Step(s, e), e.p);
      }
  }

  lemma {:induction false} RunKeepsInv(s: State, es: seq<Event>)
    requires Inv(s) && Runs(s, es)
    ensures Inv(Final(s, es))
    decreases |es|
  {
    if es != [] {
      StepKeepsInv(s, es[0]);
      RunKeepsInv(Step(s, es[0]), es[1..]);
    }
  }

  /**
   In every run, whenever wait_lock is free: every process that has started, except init, has a parent that is
   neither unused nor a zombie; and no process sleeps in kwait, or is on its way there, while it has a zombie child.
   */
  lemma ExitWaitSafety(s: State, es: seq<Event>, p: nat)
    requires Init(s) && Runs(s, es) && p < |Final(s, es).procs|
    ensures var t := Final(s, es); var x := t.procs[p];
      && ((Alive(x) || x.state.ZOMBIE?) && p != INIT ==>
            x.parent.Some? && x.parent.value < |t.procs| && Alive(t.procs[x.parent.value]))
      && (t.waitLock.None? && InWait(x) ==>
            forall c :: 0 <= c < |t.procs| && t.procs[c].parent == Some(p) ==> !t.procs[c].state.ZOMBIE?)
  {
    InitInv(s);
    RunKeepsInv(s, es);
    var t := Final(s, es);
    assert One(t, p);
    if t.waitLock.None? && InWait(t.procs[p]) {
      forall c | 0 <= c < |t.procs| && t.procs[c].parent == Some(p) ensures !t.procs[c].state.ZOMBIE? {
        assert Two(t, p, c);
      }
    }
  }

  /** kwait returns a pid not returned before, with the status that process exited with, once it is off the CPU. */
  lemma ReapedOnce(s: State, es: seq<Event>, p: nat)
    requires Init(s) && Runs(s, es)
    requires var t := Final(s, es); p < |t.procs| && CanGo(t, p) && Finds(t, p)
    ensures var t := Final(s, es); var z := t.procs[t.procs[p].pc.i];
      z.pid !in t.reaped && z.pid in t.exited && t.exited[z.pid] == z.xstate && z.pc.Gone?
  {
    InitInv(s);
    RunKeepsInv(s, es);
    var t := Final(s, es);
    var i := t.procs[p].pc.i;
    assert One(t, i) && One(t, p);
    assert CanWait(t, p) && t.procs[i].plock.None? && !OwnLock(t.procs[i].pc);
  }

  /** kwait gives up for want of children only when there is none. */
  lemma NoChildren(s: State, es: seq<Event>, p: nat, c: nat)
    requires Init(s) && Runs(s, es)
    requires var t := Final(s, es); p < |t.procs| && c < |t.procs| && t.procs[p].pc == Scan(|t.procs|, false)
    ensures Final(s, es).procs[c].parent != Some(p)
  {
    InitInv(s);
    RunKeepsInv(s, es);
    assert Two(Final(s, es), p, c);
  }
}
