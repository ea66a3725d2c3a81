/**
 Sleep locks (kernel/sleeplock.c) over sleep, wakeup, the scheduler and kill (kernel/proc.c), as
 interleaved atomic steps.  Each process runs acquiresleep and releasesleep on one lock any number
 of times; between two steps of one process any step of another process, of a scheduler, or of
 another waker or killer may happen.
 */
module SleepLock {

  datatype Option = None | Some(value: nat)

  /** The channel of the modelled lock; other channels are other numbers, 0 is none. */
  const CHAN: nat := 1

  datatype ProcState = RUNNABLE | RUNNING | SLEEPING

  /** The next step of a process, named by what it is about to do. */
  datatype Pc =
    | Outside
    | AcquireLk          // acquiresleep: acquire(&lk->lk)
    | TestLocked         //   while (lk->locked)
    | SetLocked          //   lk->locked = 1; lk->pid = pid
    | ReleaseLk          //   release(&lk->lk)
    | Critical
    | SleepAcquireP      // sleep: acquire(&p->lock)
    | SleepReleaseLk     //   release(lk)
    | SleepSetChan       //   p->chan = chan
    | SleepSetState      //   p->state = SLEEPING
    | SleepSched         //   sched(): switch to the scheduler
    | Asleep             //   off the CPU inside sched()
    | SleepTidy          //   p->chan = 0
    | SleepReleaseP      //   release(&p->lock)
    | SleepReacquire     //   acquire(lk)
    | RelAcquireLk       // releasesleep: acquire(&lk->lk)
    | RelClear           //   lk->locked = 0; lk->pid = 0
    | WakeAcquire(i: nat) // wakeup: next process; acquire(&p->lock)
    | WakeCheck(i: nat)  //   if SLEEPING on the channel, RUNNABLE
    | WakeRelease(i: nat) //  release(&p->lock)
    | RelReleaseLk       //   release(&lk->lk)

  /** A process may also yield, or sleep on some other channel, where it holds no spinlock. */
  datatype Pause = Going | PauseSet(chan: nat) | PauseSched | Paused | PauseTidy | PauseRelease

  /** Who holds a p->lock. */
  datatype Holder = Free | Self | Taker | Scheduler | Waker(q: nat) | Other

  datatype Proc = Proc(pc: Pc, pause: Pause, state: ProcState, chan: nat, plock: Holder)

  datatype State = State(procs: seq<Proc>, lk: Option, locked: bool, pid: nat)

  datatype Event =
    | Acquire(p: nat)             // call acquiresleep
    | Release(p: nat)             // call releasesleep
    | Go(p: nat)                  // the next step of p
    | StartPause(p: nat, chan: nat) // yield (chan 0) or sleep elsewhere
    | GoPause(p: nat)
    | SchedTake(p: nat)           // scheduler: acquire(&p->lock)
    | SchedRun(p: nat)            // if RUNNABLE, RUNNING and switch; else release
    | SchedDrop(p: nat)           // release(&p->lock) after the switch back
    | OtherTake(p: nat)           // kkill, or a wakeup elsewhere: acquire(&p->lock)
    | OtherKill(p: nat)           // if SLEEPING, RUNNABLE
    | OtherWake(p: nat, chan: nat) // if SLEEPING on another channel, RUNNABLE
    | OtherDrop(p: nat)           // release(&p->lock)

  function Pid(p: nat): nat { p + 1 }

  // ----- Steps -----

  predicate HoldsNoLock(pc: Pc) {
    pc.Outside? || pc.AcquireLk? || pc.Critical? || pc.SleepReacquire? || pc.RelAcquireLk?
  }

  predicate CanGo(s: State, p: nat)
    requires p < |s.procs|
  {
    var x := s.procs[p];
    x.pause.Going? && match x.pc
      case Outside => false
      case Critical => false
      case Asleep => false
      case AcquireLk => s.lk.None?
      case SleepReacquire => s.lk.None?
      case RelAcquireLk => s.lk.None?
      case SleepAcquireP => x.plock.Free?
      case WakeAcquire(i) => i < |s.procs| && i != p ==> s.procs[i].plock.Free?
      case _ => true
  }

  predicate Enabled(s: State, e: Event) {
    e.p < |s.procs| && var x := s.procs[e.p];
    match e
    case Acquire(p) => x.pc.Outside? && x.pause.Going?
    case Release(p) => x.pc.Critical? && x.pause.Going?
    case Go(p) => CanGo(s, p)
    case StartPause(p, chan) => x.pause.Going? && HoldsNoLock(x.pc) && x.plock.Free? && chan != CHAN
    case GoPause(p) => !x.pause.Going? && !x.pause.Paused?
    case SchedTake(p) => x.plock.Free?
    case SchedRun(p) => x.plock.Taker?
    case SchedDrop(p) => x.plock.Scheduler?
    case OtherTake(p) => x.plock.Free?
    case OtherKill(p) => x.plock.Other?
    case OtherWake(p, chan) => x.plock.Other? && chan != CHAN
    case OtherDrop(p) => x.plock.Other?
  }

  function Put(s: State, p: nat, x: Proc): State
    requires p < |s.procs|
  {
    s.(procs := s.procs[p := x])
  }

  function At(s: State, p: nat, pc: Pc): State
    requires p < |s.procs|
  {
    Put(s, p, s.procs[p].(pc := pc))
  }

  function Go1(s: State, p: nat): State
    requires p < |s.procs| && CanGo(s, p)
  {
    var x := s.procs[p];
    match x.pc
    case Outside => s
    case Critical => s
    case Asleep => s
    case AcquireLk => At(s, p, TestLocked).(lk := Some(p))
    case TestLocked => At(s, p, if s.locked then SleepAcquireP else SetLocked)
    case SetLocked => At(s, p, ReleaseLk).(locked := true, pid := Pid(p))
    case ReleaseLk => At(s, p, Critical).(lk := None)
    case SleepAcquireP => Put(s, p, x.(pc := SleepReleaseLk, plock := Self))
    case SleepReleaseLk => At(s, p, SleepSetChan).(lk := None)
    case SleepSetChan => Put(s, p, x.(pc := SleepSetState, chan := CHAN))
    case SleepSetState => Put(s, p, x.(pc := SleepSched, state := SLEEPING))
    case SleepSched => Put(s, p, x.(pc := Asleep, plock := Scheduler))
    case SleepTidy => Put(s, p, x.(pc := SleepReleaseP, chan := 0))
    case SleepReleaseP => Put(s, p, x.(pc := SleepReacquire, plock := Free))
    case SleepReacquire => At(s, p, TestLocked).(lk := Some(p))
    case RelAcquireLk => At(s, p, RelClear).(lk := Some(p))
    case RelClear => At(s, p, WakeAcquire(0)).(locked := false, pid := 0)
    case RelReleaseLk => At(s, p, Outside).(lk := None)
    case WakeAcquire(i) =>
      if i >= |s.procs| then At(s, p, RelReleaseLk)
      else if i == p then At(s, p, WakeAcquire(i + 1))
      else Put(At(s, p, WakeCheck(i)), i, s.procs[i].(plock := Waker(p)))
    case WakeCheck(i) =>
      var t := At(s, p, WakeRelease(i));
      if i < |s.procs| && i != p && s.procs[i].state == SLEEPING && s.procs[i].chan == CHAN
      then Put(t, i, s.procs[i].(state := RUNNABLE)) else t
    case WakeRelease(i) =>
      var t := At(s, p, WakeAcquire(i + 1));
      if i < |s.procs| && i != p then Put(t, i, s.procs[i].(plock := Free)) else t
  }

  function Pause1(x: Proc): Proc
    requires !x.pause.Going? && !x.pause.Paused?
  {
    match x.pause
    case PauseSet(chan) => x.(pause := PauseSched, chan := chan, state := if chan == 0 then RUNNABLE else SLEEPING)
    case PauseSched => x.(pause := Paused, plock := Scheduler)
    case PauseTidy => x.(pause := PauseRelease, chan := 0)
    case PauseRelease => x.(pause := Going, plock := Free)
  }

  /** The scheduler switches to a process: it goes on where it switched away, holding its own lock. */
  function Resume(x: Proc): Proc {
    var y := x.(state := RUNNING, plock := Self);
    if x.pause.Paused? then y.(pause := PauseTidy) else y.(pc := SleepTidy)
  }

  function Step(s: State, e: Event): State
    requires Enabled(s, e)
  {
    var x := s.procs[e.p];
    match e
    case Acquire(p) => At(s, p, AcquireLk)
    case Release(p) => At(s, p, RelAcquireLk)
    case Go(p) => Go1(s, p)
    case StartPause(p, chan) => Put(s, p, x.(pause := PauseSet(chan), plock := Self))
    case GoPause(p) => Put(s, p, Pause1(x))
    case SchedTake(p) => Put(s, p, x.(plock := Taker))
    case SchedRun(p) => Put(s, p, if x.state.RUNNABLE? then Resume(x) else x.(plock := Free))
    case SchedDrop(p) => Put(s, p, x.(plock := Free))
    case OtherTake(p) => Put(s, p, x.(plock := Other))
    case OtherKill(p) => Put(s, p, if x.state.SLEEPING? then x.(state := RUNNABLE) else x)
    case OtherWake(p, chan) => Put(s, p, if x.state.SLEEPING? && x.chan == chan then x.(state := RUNNABLE) else x)
    case OtherDrop(p) => Put(s, p, x.(plock := Free))
  }

  predicate Runs(s: State, es: seq<Event>)
    decreases |es|
  {
    es == [] || (Enabled(s, es[0]) && Runs(Step(s, es[0]), es[1..]))
  }

  function Final(s: State, es: seq<Event>): State
    requires Runs(s, es)
    decreases |es|
  {
    if es == [] then s else Final(Step(s, es[0]), es[1..])
  }

  predicate Init(s: State) {
    && s.lk.None? && !s.locked
    && forall p :: 0 <= p < |s.procs| ==> s.procs[p] == Proc(Outside, Going, RUNNING, 0, Free)
  }

  // ----- The invariant -----

  /** Between acquire and release of the inner spinlock. */
  predicate HasLk(pc: Pc) {
    pc.TestLocked? || pc.SetLocked? || pc.ReleaseLk? || pc.SleepAcquireP? || pc.SleepReleaseLk? || pc.RelClear?
    || pc.WakeAcquire? || pc.WakeCheck? || pc.WakeRelease? || pc.RelReleaseLk?
  }

  /** Between acquire and release of its own p->lock. */
  predicate HasP(x: Proc) {
    if x.pause.Going? then
      x.pc.SleepReleaseLk? || x.pc.SleepSetChan? || x.pc.SleepSetState? || x.pc.SleepSched? || x.pc.SleepTidy?
      || x.pc.SleepReleaseP?
    else !x.pause.Paused?
  }

  /** Has the sleep lock. */
  predicate Holds(pc: Pc) { pc.ReleaseLk? || pc.Critical? || pc.RelAcquireLk? || pc.RelClear? }

  /** Asleep on the lock, or past release(lk) and about to be. */
  predicate InSleep(x: Proc) {
    x.pc.SleepSetChan? || x.pc.SleepSetState? || x.pc.SleepSched? || (x.pc.Asleep? && x.state.SLEEPING?)
  }

  predicate ProcOk(x: Proc) {
    && (x.plock.Self? <==> HasP(x))
    && (x.chan == CHAN <==> x.pc.SleepSetState? || x.pc.SleepSched? || x.pc.Asleep? || x.pc.SleepTidy?)
    && if x.pause.Going? then
         if x.pc.Asleep? then !x.state.RUNNING? else if x.pc.SleepSched? then x.state.SLEEPING? else x.state.RUNNING?
       else
         && HoldsNoLock(x.pc) && (x.pause.PauseSet? ==> x.pause.chan != CHAN)
         && (x.state.RUNNING? <==> !x.pause.PauseSched? && !x.pause.Paused?)
  }

  /** Still to be visited by the wakeup loop at pc. */
  predicate Pending(pc: Pc, p: nat) {
    match pc
    case WakeAcquire(i) => p >= i
    case WakeCheck(i) => p >= i
    case WakeRelease(i) => p > i
    case _ => false
  }

  /** What process p's place in the code says about the locks. */
  predicate LockOk(s: State, p: nat)
    requires p < |s.procs|
  {
    var x := s.procs[p];
    && (s.lk == Some(p) <==> HasLk(x.pc))
    && (Holds(x.pc) ==> s.locked && s.pid == Pid(p))
    && (x.pc.SleepAcquireP? || x.pc.SleepReleaseLk? ==> s.locked)
    && (x.pc.SetLocked? || x.pc.WakeAcquire? || x.pc.WakeCheck? ==> !s.locked)
    && (x.pc.WakeRelease? || x.pc.RelReleaseLk? ==> !s.locked)
  }

  /** The waker of a process and the process it has locked name each other. */
  predicate WakerOk(s: State, p: nat)
    requires p < |s.procs|
  {
    var x := s.procs[p];
    && (x.pc.WakeCheck? || x.pc.WakeRelease? ==>
          x.pc.i < |s.procs| && x.pc.i != p && s.procs[x.pc.i].plock == Waker(p))
    && (x.plock.Waker? ==>
       x.plock.q < |s.procs| && var y := s.procs[x.plock.q].pc; y == WakeCheck(p) || y == WakeRelease(p))
  }

  /** Asleep with the lock free only while a wakeup that will still visit p is under way. */
  predicate NotLost(s: State, p: nat)
    requires p < |s.procs|
  {
    InSleep(s.procs[p]) && !s.locked ==> s.lk.Some? && s.lk.value < |s.procs| && Pending(s.procs[s.lk.value].pc, p)
  }

  predicate Owned(s: State) {
    && (s.locked ==> 0 < s.pid <= |s.procs| && Holds(s.procs[s.pid - 1].pc))
    && (s.lk.Some? ==> s.lk.value < |s.procs|)
  }

  predicate ProcInv(s: State, p: nat)
    requires p < |s.procs|
  {
    ProcOk(s.procs[p]) && LockOk(s, p) && WakerOk(s, p) && NotLost(s, p)
  }

  predicate Inv(s: State) {
    Owned(s) && forall p :: 0 <= p < |s.procs| ==> ProcInv(s, p)
  }

  lemma InitInv(s: State)
    requires Init(s)
    ensures Inv(s)
  {
  }

  /** Calls, pauses, schedulers, killers and other wakers touch one process and neither lock. */
  lemma QuietStep(s: State, e: Event, p: nat)
    requires Inv(s) && Enabled(s, e) && !e.Go? && p < |s.procs|
    ensures ProcInv(Step(s, e), p)
  {
    var s' := Step(s, e);
    assert ProcInv(s, p) && ProcInv(s, e.p);
    assert forall q :: 0 <= q < |s.procs| && q != e.p ==> s'.procs[q] == s.procs[q];
    QuietProc(s, e);
    if p != e.p {
      assert s.procs[p].plock.Waker? ==> s'.procs[s.procs[p].plock.q].pc == s.procs[s.procs[p].plock.q].pc;
    }
  }

  lemma QuietProc(s: State, e: Event)
    requires Inv(s) && Enabled(s, e) && !e.Go?
    ensures var x, y := s.procs[e.p], Step(s, e).procs[e.p];
      && ProcOk(y) && (HasLk(x.pc) || HasLk(y.pc) ==> y.pc == x.pc) && (Holds(y.pc) <==> Holds(x.pc))
      && (InSleep(y) ==> InSleep(x)) && (x.plock.Waker? || y.plock.Waker? ==> y.plock == x.plock)
  {
    assert ProcInv(s, e.p);
  }

  lemma GoProcOk(s: State, p0: nat, p: nat)
    requires Inv(s) && p0 < |s.procs| && CanGo(s, p0) && p < |s.procs|
    ensures ProcOk(Go1(s, p0).procs[p])
  {
    assert ProcInv(s, p) && ProcInv(s, p0);
  }

  lemma GoLockOk(s: State, p0: nat, p: nat)
    requires Inv(s) && p0 < |s.procs| && CanGo(s, p0) && p < |s.procs|
    ensures LockOk(Go1(s, p0), p)
  {
    if p == p0 {
      OwnLockOk(s, p);
    } else {
      assert ProcInv(s, p) && ProcInv(s, p0);
    }
  }

  lemma OwnLockOk(s: State, p: nat)
    requires Inv(s) && p < |s.procs| && CanGo(s, p)
    ensures LockOk(Go1(s, p), p)
  {
    assert ProcInv(s, p);
  }

  predicate InWakeup(pc: Pc) { pc.WakeAcquire? || pc.WakeCheck? || pc.WakeRelease? }

  lemma GoWakerOk(s: State, p0: nat, p: nat)
    requires Inv(s) && p0 < |s.procs| && CanGo(s, p0) && p < |s.procs|
    ensures WakerOk(Go1(s, p0), p)
  {
    assert ProcInv(s, p) && ProcInv(s, p0);
    if InWakeup(s.procs[p0].pc) {
      WakeupWakerOk(s, p0, p);
    } else {
      PlainWakerOk(s, p0, p);
    }
  }

  /** Outside the wakeup loop a process changes only its own entry, and locks no other. */
  lemma PlainWakerOk(s: State, p0: nat, p: nat)
    requires Inv(s) && p0 < |s.procs| && CanGo(s, p0) && p < |s.procs| && !InWakeup(s.procs[p0].pc)
    ensures WakerOk(Go1(s, p0), p)
  {
    assert ProcInv(s, p) && ProcInv(s, p0);
    var s' := Go1(s, p0);
    var y := s'.procs[p0];
    assert !y.pc.WakeCheck? && !y.pc.WakeRelease? && (y.plock.Waker? ==> y.plock == s.procs[p0].plock);
    assert s' == s'.(procs := s.procs[p0 := y]);
  }

  lemma WakeupWakerOk(s: State, p0: nat, p: nat)
    requires Inv(s) && p0 < |s.procs| && CanGo(s, p0) && p < |s.procs| && InWakeup(s.procs[p0].pc)
    ensures WakerOk(Go1(s, p0), p)
  {
    assert ProcInv(s, p) && ProcInv(s, p0);
    assert p != p0 ==> !InWakeup(s.procs[p].pc);
  }

  lemma GoNotLost(s: State, p0: nat, p: nat)
    requires Inv(s) && p0 < |s.procs| && CanGo(s, p0) && p < |s.procs|
    ensures NotLost(Go1(s, p0), p)
  {
    assert ProcInv(s, p) && ProcInv(s, p0);
  }

  lemma StepOwned(s: State, e: Event)
    requires Inv(s) && Enabled(s, e)
    ensures Owned(Step(s, e))
  {
    assert ProcInv(s, e.p);
  }

  lemma StepKeepsInv(s: State, e: Event)
    requires Inv(s) && Enabled(s, e)
    ensures Inv(Step(s, e))
  {
    forall p | 0 <= p < |Step(s, e).procs| ensures ProcInv(Step(s, e), p) {
      if e.Go? {
        GoProcOk(s, e.p, p);
        GoLockOk(s, e.p, p);
        GoWakerOk(s, e.p, p);
        GoNotLost(s, e.p, p);
      } else {
        QuietStep(s, e, p);
      }
    }
    StepOwned(s, e);
  }

  lemma {:induction false} RunKeepsInv(s: State, es: seq<Event>)
    requires Inv(s) && Runs(s, es)
    ensures Inv(Final(s, es))
    decreases |es|
  {
    if es != [] {
      StepKeepsInv(s, es[0]);
      RunKeepsInv(Step(s, es[0]), es[1..]);
    }
  }

  /** holdingsleep, read under the inner spinlock. */
  predicate HoldingSleep(s: State, p: nat) { s.locked && s.pid == Pid(p) }

  /**
   In every run: a process asleep on the lock, or past release(lk) on its way there, finds the lock taken
   whenever the inner spinlock is free, so nobody sleeps on a free lock; at most one process has the lock,
   and holdingsleep tells it exactly.
   */
  lemma NoLostWakeup(s: State, es: seq<Event>, p: nat, q: nat)
    requires Init(s) && Runs(s, es)
    requires p < |Final(s, es).procs| && q < |Final(s, es).procs|
    ensures var t := Final(s, es);
      && (t.lk.None? && InSleep(t.procs[p]) ==> t.locked)
      && (t.lk.None? && !t.locked && t.procs[p].pc.Asleep? ==> t.procs[p].state.RUNNABLE?)
      && (Holds(t.procs[p].pc) && Holds(t.procs[q].pc) ==> p == q)
      && (t.lk.None? ==> (HoldingSleep(t, p) <==> Holds(t.procs[p].pc)))
  {
    InitInv(s);
    RunKeepsInv(s, es);
    assert ProcInv(Final(s, es), p) && ProcInv(Final(s, es), q);
  }

  /** sched is reached only with p->lock as the one spinlock held and a state other than RUNNING: no panic. */
  lemma SchedNeverPanics(s: State, es: seq<Event>, p: nat)
    requires Init(s) && Runs(s, es) && p < |Final(s, es).procs|
    ensures var x := Final(s, es).procs[p];
      (x.pause.Going? && x.pc.SleepSched?) || x.pause.PauseSched? ==>
        x.plock.Self? && !HasLk(x.pc) && !x.state.RUNNING?
  {
    InitInv(s);
    RunKeepsInv(s, es);
    assert ProcInv(Final(s, es), p);
  }
}
