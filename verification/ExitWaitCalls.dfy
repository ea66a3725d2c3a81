/**
 What fork, exit and wait do (kernel/proc.c): what kwait decides at the end of its scan, in every run, and what each
 call does from beginning to end when nothing else runs.
 */
module ExitWaitCalls {
  import opened ExitWait
  import opened Folding

  // ----- kwait knows whether there are children, in every run -----

  predicate HasChild(s: State, p: nat) { exists c :: 0 <= c < |s.procs| && IsChild(s, p, c) }

  predicate IsChild(s: State, p: nat, c: nat)
    requires c < |s.procs|
  {
    s.procs[c].parent == Some(p)
  }

  /** Once kwait has noted a child, there is one. */
  predicate Noted(s: State, p: nat) {
    p < |s.procs| && s.procs[p].pc.Scan? && s.procs[p].pc.kids ==> HasChild(s, p)
  }

  /** While p has wait_lock, nobody else takes a child from it. */
  lemma ChildStays(s: State, e: Event, p: nat, c: nat)
    requires Inv(s) && Enabled(s, e) && p < |s.procs| && c < |s.procs| && IsChild(s, p, c)
    requires s.waitLock == Some(p) && !(e.Go? && e.p == p)
    ensures c < |Step(s, e).procs| && IsChild(Step(s, e), p, c)
  {
    assert One(s, e.p) && One(s, c);
  }

  lemma StepNoted(s: State, e: Event, p: nat)
    requires Inv(s) && Enabled(s, e) && Noted(s, p)
    ensures Noted(Step(s, e), p)
  {
    var s' := Step(s, e);
    if p < |s'.procs| && s'.procs[p].pc.Scan? && s'.procs[p].pc.kids {
      assert One(s, p);
      if e.Go? && e.p == p {
        ScanFrom(s, p, e.choice);
        OwnScan(s, p, s');
      } else {
        OthersScan(s, e, p);
        var c :| 0 <= c < |s.procs| && IsChild(s, p, c);
        ChildStays(s, e, p, c);
      }
    }
  }

  predicate PcKept(s: State, s': State, p: nat) {
    p < |s.procs| && p < |s'.procs| && (s'.procs[p].pc == s.procs[p].pc || s'.procs[p].pc.Idle?)
  }

  lemma OtherForks(s: State, q: nat, choice: bool, p: nat)
    requires q < |s.procs| && CanFork(s, q) && p < |s.procs| && q != p
    ensures PcKept(s, GoFork(s, q, choice), p)
  {
  }

  lemma OtherExits(s: State, q: nat, p: nat)
    requires q < |s.procs| && CanExit(s, q) && p < |s.procs| && q != p
    ensures PcKept(s, GoExit(s, q), p)
  {
  }

  lemma OtherWaits(s: State, q: nat, choice: bool, p: nat)
    requires q < |s.procs| && CanWait(s, q) && p < |s.procs| && q != p
    ensures PcKept(s, GoWait(s, q, choice), p)
  {
  }

  /** Another process's step leaves where p is, or frees its slot. */
  lemma OtherPc(s: State, e: Event, p: nat)
    requires Enabled(s, e) && p < |s.procs| && e.p != p
    ensures PcKept(s, Step(s, e), p)
  {
    if e.Go? {
      if CanFork(s, e.p) {
        OtherForks(s, e.p, e.choice, p);
      } else if CanExit(s, e.p) {
        OtherExits(s, e.p, p);
      } else {
        OtherWaits(s, e.p, e.choice, p);
      }
    }
  }

  lemma OthersScan(s: State, e: Event, p: nat)
    requires Inv(s) && Enabled(s, e) && p < |s.procs| && !(e.Go? && e.p == p)
    requires p < |Step(s, e).procs| && Step(s, e).procs[p].pc.Scan?
    ensures s.procs[p].pc == Step(s, e).procs[p].pc && s.waitLock == Some(p)
  {
    if e.p != p {
      OtherPc(s, e, p);
    }
    assert One(s, p);
  }

  lemma ForkNoScan(s: State, p: nat, choice: bool)
    requires p < |s.procs| && CanFork(s, p)
    ensures p < |GoFork(s, p, choice).procs| && !GoFork(s, p, choice).procs[p].pc.Scan?
  {
  }

  lemma ExitNoScan(s: State, p: nat)
    requires p < |s.procs| && CanExit(s, p)
    ensures p < |GoExit(s, p).procs| && !GoExit(s, p).procs[p].pc.Scan?
  {
  }

  /** A scan that has noted a child noted it before, or does so now. */
  lemma ScanFrom(s: State, p: nat, choice: bool)
    requires p < |s.procs| && CanGo(s, p)
    requires p < |Go1(s, p, choice).procs| && Go1(s, p, choice).procs[p].pc.Scan? && Go1(s, p, choice).procs[p].pc.kids
    ensures var pc, s' := s.procs[p].pc, Go1(s, p, choice);
      && pc.Scan? && pc.i < |s.procs| && (pc.kids || IsChild(s, p, pc.i)) && s' == At(s, p, s'.procs[p].pc)
  {
    if CanFork(s, p) {
      ForkNoScan(s, p, choice);
    } else if CanExit(s, p) {
      ExitNoScan(s, p);
    }
  }

  lemma OwnScan(s: State, p: nat, s': State)
    requires p < |s.procs| && Noted(s, p) && p < |s'.procs| && s' == At(s, p, s'.procs[p].pc)
    requires var pc := s.procs[p].pc; pc.Scan? && pc.i < |s.procs| && (pc.kids || IsChild(s, p, pc.i))
    ensures HasChild(s', p)
  {
    SameChildren(s, p, s'.procs[p].pc);
    assert !s.procs[p].pc.kids ==> IsChild(s, p, s.procs[p].pc.i);
  }

  lemma SameChildren(s: State, p: nat, pc: Pc)
    requires p < |s.procs|
    ensures HasChild(s, p) ==> HasChild(At(s, p, pc), p)
  {
    if HasChild(s, p) {
      var c :| 0 <= c < |s.procs| && IsChild(s, p, c);
      assert IsChild(At(s, p, pc), p, c);
    }
  }

  lemma {:induction false} RunNoted(s: State, es: seq<Event>, p: nat)
    requires Inv(s) && Runs(s, es) && Noted(s, p)
    ensures Noted(Final(s, es), p)
    decreases |es|
  {
    if es != [] {
      StepKeepsInv(s, es[0]);
      StepNoted(s, es[0], p);
      RunNoted(Step(s, es[0]), es[1..], p);
    }
  }

  /**
   In every run, what kwait does at the end of its scan: it returns -1 if it was killed or no process has it as parent,
   and goes to sleep otherwise; and nothing else changes.
   */
  lemma WaitDecides(s: State, es: seq<Event>, p: nat, killed: bool)
    requires Init(s) && Runs(s, es)
    requires var t := Final(s, es);
      p < |t.procs| && CanGo(t, p) && t.procs[p].pc.Scan? && t.procs[p].pc.i >= |t.procs|
    ensures var t := Final(s, es);
      Step(t, Go(p, killed)) == At(t, p, if killed || !HasChild(t, p) then WaitReturn else WaitLock)
  {
    InitInv(s);
    RunKeepsInv(s, es);
    RunNoted(s, es, p);
    var t := Final(s, es);
    assert One(t, p);
    forall c | 0 <= c < |t.procs| && IsChild(t, p, c) ensures t.procs[p].pc.kids {
      assert Two(t, p, c);
    }
  }

  /**
   In every run, what kwait does with a zombie child that it finds: its pid and the status it exited with are
   returned, for the first time, its slot is free, and no other process changes.  If the status cannot be copied, the
   zombie stays.
   */
  lemma WaitReaps(s: State, es: seq<Event>, p: nat, fails: bool)
    requires Init(s) && Runs(s, es)
    requires var t := Final(s, es); p < |t.procs| && CanGo(t, p) && Finds(t, p)
    ensures var t := Final(s, es); var t' := Step(t, Go(p, fails)); var i := t.procs[p].pc.i; var z := t.procs[i];
      && i != p && |t'.procs| == |t.procs| && t'.procs[p] == t.procs[p].(pc := WaitReturn)
      && z.pid !in t.reaped && z.pid in t.exited
      && (if fails then t'.procs[i] == z && t'.reaped == t.reaped
          else t'.procs[i].state.UNUSED? && t'.reaped == t.reaped[z.pid := t.exited[z.pid]])
      && forall q :: 0 <= q < |t.procs| && q != p && q != i ==> t'.procs[q] == t.procs[q]
  {
    InitInv(s);
    RunKeepsInv(s, es);
    ReapedOnce(s, es, p);
    var t := Final(s, es);
    assert One(t, p) && One(t, t.procs[p].pc.i);
  }

  // ----- Calls from beginning to end, when nothing else runs -----

  predicate NoPlocks(s: State) { forall q :: 0 <= q < |s.procs| ==> s.procs[q].plock.None? }

  /** p runs, and no lock is held. */
  predicate Quiet(s: State, p: nat) {
    && p < |s.procs| && s.procs[p].state.RUNNING? && s.procs[p].pc.Idle? && s.waitLock.None?
    && forall q :: 0 <= q < |s.procs| ==> s.procs[q].plock.None?
  }

  predicate Path(s: State, p: nat, choice: bool, n: nat, t: State)
    decreases n
  {
    if n == 0 then s == t
    else p < |s.procs| && CanGo(s, p) && Path(Go1(s, p, choice), p, choice, n - 1, t)
  }

  /** s goes to t by n steps of p alone. */
  ghost predicate Alone(s: State, p: nat, choice: bool, n: nat, t: State) {
    forall k {:trigger Unfold(k)} :: Unfold(k) ==> Path(s, p, choice, n, t)
  }

  lemma {:induction false} PathRuns(s: State, p: nat, choice: bool, n: nat, t: State) returns (es: seq<Event>)
    requires Path(s, p, choice, n, t)
    ensures Runs(s, es) && Final(s, es) == t && |es| == n && forall i :: 0 <= i < n ==> es[i] == Go(p, choice)
    decreases n
  {
    if n == 0 {
      es := [];
    } else {
      var rest := PathRuns(Go1(s, p, choice), p, choice, n - 1, t);
      es := [Go(p, choice)] + rest;
      assert es[1..] == rest;
    }
  }

  lemma AloneRuns(s: State, p: nat, choice: bool, n: nat, t: State) returns (es: seq<Event>)
    requires Alone(s, p, choice, n, t)
    ensures Runs(s, es) && Final(s, es) == t && |es| == n && forall i :: 0 <= i < n ==> es[i] == Go(p, choice)
  {
    assert Unfold(KEY);
    es := PathRuns(s, p, choice, n, t);
  }

  lemma AloneNone(s: State, p: nat, choice: bool)
    ensures Alone(s, p, choice, 0, s)
  {
  }

  lemma AloneFirst(s: State, p: nat, choice: bool, s1: State, j: nat, k: nat, u: State)
    requires k == j + 1 && p < |s.procs| && CanGo(s, p) && Go1(s, p, choice) == s1 && Alone(s1, p, choice, j, u)
    ensures Alone(s, p, choice, k, u)
  {
    assert Unfold(KEY);
  }

  lemma AloneSplit(s: State, p: nat, choice: bool, n: nat, t: State)
    requires Alone(s, p, choice, n, t)
    ensures n == 0 ==> s == t
    ensures n > 0 ==> p < |s.procs| && CanGo(s, p) && Alone(Go1(s, p, choice), p, choice, n - 1, t)
  {
    assert Unfold(KEY);
  }

  lemma {:induction false} AloneThen(s: State, p: nat, choice: bool, n: nat, t: State, m: nat, u: State, k: nat)
    requires Alone(s, p, choice, n, t) && Alone(t, p, choice, m, u) && k == n + m
    ensures Alone(s, p, choice, k, u)
    decreases n
  {
    AloneSplit(s, p, choice, n, t);
    if n > 0 {
      var s1 := Go1(s, p, choice);
      AloneThen(s1, p, choice, n - 1, t, m, u, k - 1);
      AloneFirst(s, p, choice, s1, k - 1, k, u);
    }
  }

  /** One step. */
  lemma AloneOne(s: State, p: nat, choice: bool, t: State)
    requires p < |s.procs| && CanGo(s, p) && Go1(s, p, choice) == t
    ensures Alone(s, p, choice, 1, t)
  {
    AloneNone(t, p, choice);
    AloneFirst(s, p, choice, t, 0, 1, t);
  }

  // ----- kfork -----

  /** The child that kfork makes. */
  function Child(s: State, p: nat): Proc { Proc(RUNNABLE, s.nextPid, Some(p), NoChan, 0, Idle, None) }

  /** kfork makes a runnable child with a new pid and p as its parent, and changes nothing else. */
  lemma ForkAlone(s: State, p: nat, np: nat)
    requires Quiet(s, p) && np < |s.procs| && s.procs[np].state.UNUSED?
    ensures Enabled(s, Fork(p, np))
    ensures Alone(Step(s, Fork(p, np)), p, true, 5, s.(procs := s.procs[np := Child(s, p)], nextPid := s.nextPid + 1))
  {
    var s1 := Step(s, Fork(p, np));
    var s2 := Go1(s1, p, true);
    var s3 := Go1(s2, p, true);
    var s4 := Go1(s3, p, true);
    var s5 := Go1(s4, p, true);
    var s6 := Go1(s5, p, true);
    assert s6.procs == s.procs[np := Child(s, p)];
    AloneOne(s5, p, true, s6);
    AloneFirst(s4, p, true, s5, 1, 2, s6);
    AloneFirst(s3, p, true, s4, 2, 3, s6);
    AloneFirst(s2, p, true, s3, 3, 4, s6);
    AloneFirst(s1, p, true, s2, 4, 5, s6);
  }

  /** If the copy fails, everything but the next pid is as before. */
  lemma ForkFails(s: State, p: nat, np: nat)
    requires Quiet(s, p) && np < |s.procs| && s.procs[np] == Fresh()
    ensures Enabled(s, Fork(p, np))
    ensures Alone(Step(s, Fork(p, np)), p, false, 1, s.(nextPid := s.nextPid + 1))
  {
    var s1 := Step(s, Fork(p, np));
    var s2 := Go1(s1, p, false);
    assert s2.procs == s.procs;
    AloneOne(s1, p, false, s2);
  }

  // ----- kwait -----

  predicate ZombieChild(s: State, p: nat, c: nat)
    requires c < |s.procs|
  {
    IsChild(s, p, c) && s.procs[c].state.ZOMBIE?
  }

  /** The first zombie child from i on; the size of the table if there is none. */
  function FirstZombie(s: State, p: nat, i: nat): (z: nat)
    requires i <= |s.procs|
    ensures i <= z <= |s.procs| && (z < |s.procs| ==> ZombieChild(s, p, z))
    ensures forall c :: i <= c < z ==> !ZombieChild(s, p, c)
    decreases |s.procs| - i
  {
    if i == |s.procs| || ZombieChild(s, p, i) then i else FirstZombie(s, p, i + 1)
  }

  predicate HasChildBefore(s: State, p: nat, i: nat) { exists c :: 0 <= c < i && c < |s.procs| && IsChild(s, p, c) }

  function Scanning(s: State, p: nat, i: nat, kids: bool): State
    requires p < |s.procs|
  {
    At(s, p, Scan(i, kids)).(waitLock := Some(p))
  }

  /** What kwait leaves: the first zombie child is reaped; without children all is as before; else p is asleep. */
  function Waited(s: State, p: nat): State
    requires p < |s.procs|
  {
    var z := FirstZombie(s, p, 0);
    if z < |s.procs| then
      s.(procs := s.procs[z := Fresh()], reaped := s.reaped[s.procs[z].pid := s.procs[z].xstate])
    else if !HasChild(s, p) then s
    else Put(s, p, s.procs[p].(state := SLEEPING, chan := OnProc(p), pc := Asleep))
  }

  lemma ScanStep(s: State, p: nat, i: nat, kids: bool)
    requires Quiet(s, p) && i < |s.procs| && !ZombieChild(s, p, i)
    ensures var t := Scanning(s, p, i, kids);
      CanGo(t, p) && Go1(t, p, false) == Scanning(s, p, i + 1, kids || IsChild(s, p, i))
  {
    var t := Scanning(s, p, i, kids);
    assert t.procs[i].parent == s.procs[i].parent && t.procs[i].plock.None? && t.procs[i].state == s.procs[i].state;
    assert Go1(t, p, false).procs == Scanning(s, p, i + 1, kids || IsChild(s, p, i)).procs;
  }

  lemma ScanEnds(s: State, p: nat, kids: bool) returns (n: nat)
    requires Quiet(s, p) && FirstZombie(s, p, 0) == |s.procs| && kids == HasChildBefore(s, p, |s.procs|)
    ensures Alone(Scanning(s, p, |s.procs|, kids), p, false, n, Waited(s, p))
  {
    assert kids == HasChild(s, p);
    if kids {
      SleepAlone(s, p, |s.procs|);
      n := 5;
    } else {
      GiveUpAlone(s, p, |s.procs|);
      n := 2;
    }
  }

  lemma {:induction false} ScanAlone(s: State, p: nat, i: nat, kids: bool) returns (n: nat)
    requires Quiet(s, p) && s.procs[p].parent != Some(p) && i <= |s.procs|
    requires FirstZombie(s, p, 0) == FirstZombie(s, p, i) && kids == HasChildBefore(s, p, i)
    ensures Alone(Scanning(s, p, i, kids), p, false, n, Waited(s, p))
    decreases |s.procs| - i
  {
    var t := Scanning(s, p, i, kids);
    assert t.procs[p].pc == Scan(i, kids);
    if i == |s.procs| {
      n := ScanEnds(s, p, kids);
    } else if ZombieChild(s, p, i) {
      ReapAlone(s, p, i, kids);
      n := 2;
    } else {
      var kids' := kids || IsChild(s, p, i);
      ScanStep(s, p, i, kids);
      assert kids' == HasChildBefore(s, p, i + 1);
      var m := ScanAlone(s, p, i + 1, kids');
      AloneFirst(t, p, false, Scanning(s, p, i + 1, kids'), m, 1 + m, Waited(s, p));
      n := 1 + m;
    }
  }

  lemma GiveUpAlone(s: State, p: nat, i: nat)
    requires Quiet(s, p) && i == |s.procs|
    ensures Alone(Scanning(s, p, i, false), p, false, 2, s)
  {
    var t := Scanning(s, p, i, false);
    var t1 := Go1(t, p, false);
    var t2 := Go1(t1, p, false);
    assert t2.procs == s.procs;
    AloneOne(t1, p, false, t2);
    AloneFirst(t, p, false, t1, 1, 2, t2);
  }

  function Dozing(s: State, p: nat): State
    requires p < |s.procs|
  {
    Put(s, p, s.procs[p].(pc := WaitSetState, plock := Some(p)))
  }

  lemma LieDown(s: State, p: nat, i: nat)
    requires Quiet(s, p) && i == |s.procs|
    ensures Alone(Scanning(s, p, i, true), p, false, 3, Dozing(s, p))
  {
    var x, t := s.procs[p], Scanning(s, p, i, true);
    var t1 := At(s, p, WaitLock).(waitLock := Some(p));
    var t2 := Put(s, p, x.(pc := WaitRelease, plock := Some(p))).(waitLock := Some(p));
    var t3 := Dozing(s, p);
    AloneOne(t2, p, false, t3);
    AloneFirst(t1, p, false, t2, 1, 2, t3);
    AloneFirst(t, p, false, t1, 2, 3, t3);
  }

  lemma FallAsleep(s: State, p: nat)
    requires Quiet(s, p)
    ensures Alone(Dozing(s, p), p, false, 2,
                  Put(s, p, s.procs[p].(state := SLEEPING, chan := OnProc(p), pc := Asleep)))
  {
    var x := s.procs[p];
    var t4 := Put(s, p, x.(pc := WaitSched, plock := Some(p), chan := OnProc(p), state := SLEEPING));
    var t5 := Put(s, p, x.(state := SLEEPING, chan := OnProc(p), pc := Asleep));
    AloneOne(t4, p, false, t5);
    AloneFirst(Dozing(s, p), p, false, t4, 1, 2, t5);
  }

  lemma SleepAlone(s: State, p: nat, i: nat)
    requires Quiet(s, p) && i == |s.procs|
    ensures Alone(Scanning(s, p, i, true), p, false, 5,
                  Put(s, p, s.procs[p].(state := SLEEPING, chan := OnProc(p), pc := Asleep)))
  {
    LieDown(s, p, i);
    FallAsleep(s, p);
    var t5 := Put(s, p, s.procs[p].(state := SLEEPING, chan := OnProc(p), pc := Asleep));
    AloneThen(Scanning(s, p, i, true), p, false, 3, Dozing(s, p), 2, t5, 5);
  }

  lemma ReapAlone(s: State, p: nat, i: nat, kids: bool)
    requires Quiet(s, p) && i < |s.procs| && i != p && ZombieChild(s, p, i)
    ensures Alone(Scanning(s, p, i, kids), p, false, 2,
                  s.(procs := s.procs[i := Fresh()], reaped := s.reaped[s.procs[i].pid := s.procs[i].xstate]))
  {
    var t := Scanning(s, p, i, kids);
    assert t.procs[i] == s.procs[i];
    var t1 := Go1(t, p, false);
    var t2 := Go1(t1, p, false);
    assert t2.procs == s.procs[i := Fresh()];
    AloneOne(t1, p, false, t2);
    AloneFirst(t, p, false, t1, 1, 2, t2);
  }

  /** kwait, alone and not killed: the first zombie child is reaped; without children nothing changes; else p sleeps. */
  lemma WaitAlone(s: State, p: nat) returns (n: nat)
    requires Inv(s) && Quiet(s, p)
    ensures Enabled(s, Wait(p)) && Alone(Step(s, Wait(p)), p, false, n, Waited(s, p))
  {
    assert One(s, p);
    var s1 := Step(s, Wait(p));
    var s2 := Scanning(s, p, 0, false);
    assert Go1(s1, p, false).procs == s2.procs;
    AloneOne(s1, p, false, s2);
    var m := ScanAlone(s, p, 0, false);
    AloneThen(s1, p, false, 1, s2, m, Waited(s, p), 1 + m);
    n := 1 + m;
  }

  /** A waiter that was woken, once it is scheduled, looks again: the same as a new call of kwait. */
  lemma WokenLooksAgain(s: State, p: nat) returns (n: nat)
    requires Inv(s) && p < |s.procs| && s.procs[p].pc.Asleep? && s.procs[p].state.RUNNABLE? && s.waitLock.None?
    requires NoPlocks(s)
    ensures Enabled(s, Schedule(p))
    ensures Alone(Step(s, Schedule(p)), p, false, n,
                  Waited(Put(s, p, s.procs[p].(state := RUNNING, chan := NoChan, pc := Idle)), p))
  {
    assert One(s, p);
    var s0 := Put(s, p, s.procs[p].(state := RUNNING, chan := NoChan, pc := Idle));
    var s1 := Step(s, Schedule(p));
    var s2 := Scanning(s0, p, 0, false);
    assert Go1(s1, p, false).procs == s2.procs;
    var m := ScanAlone(s0, p, 0, false);
    AloneFirst(s1, p, false, s2, m, 1 + m, Waited(s0, p));
    n := 1 + m;
  }

  // ----- kexit -----

  /** The processes after wakeup(chan) by p, from slot j on. */
  function RouseAll(procs: seq<Proc>, chan: nat, p: nat, j: nat): (r: seq<Proc>)
    ensures |r| == |procs|
  {
    seq(|procs|, q requires 0 <= q < |procs| => if j <= q && q != p then Rouse(procs[q], chan) else procs[q])
  }

  /** The end of a wakeup. */
  function Woken(t: State, p: nat, j: nat): State
    requires p < |t.procs| && t.procs[p].pc.Wakeup?
  {
    var pc := t.procs[p].pc;
    t.(procs := RouseAll(t.procs, pc.chan, p, j)[p := t.procs[p].(pc := Resume(pc.next, pc.status))])
  }

  lemma {:induction false} WakeAlone(t: State, p: nat) returns (n: nat)
    requires p < |t.procs| && t.procs[p].state.RUNNING? && NoPlocks(t)
    requires t.procs[p].pc.Wakeup? && t.procs[p].pc.j <= |t.procs|
    ensures Alone(t, p, false, n, Woken(t, p, t.procs[p].pc.j))
    decreases |t.procs| - t.procs[p].pc.j
  {
    var pc := t.procs[p].pc;
    var t1 := Go1(t, p, false);
    if pc.j == |t.procs| {
      assert t1.procs == Woken(t, p, pc.j).procs;
      AloneOne(t, p, false, t1);
      n := 1;
    } else {
      WakeNext(t, p);
      var m := WakeAlone(t1, p);
      AloneFirst(t, p, false, t1, m, 1 + m, Woken(t, p, pc.j));
      n := 1 + m;
    }
  }

  lemma WakeNext(t: State, p: nat)
    requires p < |t.procs| && t.procs[p].state.RUNNING? && NoPlocks(t)
    requires t.procs[p].pc.Wakeup? && t.procs[p].pc.j < |t.procs|
    ensures CanGo(t, p) && var pc, t1 := t.procs[p].pc, Go1(t, p, false);
      && |t1.procs| == |t.procs| && t1.procs[p] == t.procs[p].(pc := pc.(j := pc.j + 1)) && NoPlocks(t1)
      && Woken(t1, p, pc.j + 1) == Woken(t, p, pc.j)
  {
    var pc, t1 := t.procs[p].pc, Go1(t, p, false);
    assert Woken(t1, p, pc.j + 1).procs == Woken(t, p, pc.j).procs;
  }

  /** Slot q once p has given its children below i to init. */
  function Given(s: State, p: nat, i: nat, q: nat): Proc
    requires q < |s.procs|
  {
    var x := s.procs[q];
    var y := if q < i && IsChild(s, p, q) then x.(parent := Some(INIT)) else x;
    if HasChildBefore(s, p, i) && q != p then Rouse(y, INIT) else y
  }

  function Giving(s: State, p: nat, i: nat, st: int): State
    requires p < |s.procs|
  {
    s.(procs := seq(|s.procs|, q requires 0 <= q < |s.procs| =>
         if q == p then s.procs[p].(pc := Reparent(st, i)) else Given(s, p, i, q)),
       waitLock := Some(p))
  }

  lemma GivingQuiet(s: State, p: nat, i: nat, st: int)
    requires Quiet(s, p) && s.procs[p].parent != Some(p)
    ensures var t := Giving(s, p, i, st);
      && |t.procs| == |s.procs| && NoPlocks(t) && t.procs[p] == s.procs[p].(pc := Reparent(st, i))
      && (forall c :: i <= c < |s.procs| ==> (IsChild(t, p, c) <==> IsChild(s, p, c)))
  {
  }

  lemma GiveNone(s: State, p: nat, i: nat, st: int)
    requires Quiet(s, p) && s.procs[p].parent != Some(p) && i < |s.procs| && !IsChild(s, p, i)
    ensures CanGo(Giving(s, p, i, st), p) && Go1(Giving(s, p, i, st), p, false) == Giving(s, p, i + 1, st)
  {
    var t, t' := Giving(s, p, i, st), Giving(s, p, i + 1, st);
    GivingQuiet(s, p, i, st);
    assert HasChildBefore(s, p, i + 1) == HasChildBefore(s, p, i);
    assert Go1(t, p, false).procs == t'.procs;
  }

  /** Giving child i to init: its parent changes, and init is woken. */
  lemma GiveOne(s: State, p: nat, i: nat, st: int)
    requires Quiet(s, p) && s.procs[p].parent != Some(p) && i < |s.procs| && IsChild(s, p, i)
    ensures var t := Giving(s, p, i, st);
      && CanGo(t, p) && var t1 := Go1(t, p, false);
      && |t1.procs| == |s.procs| && t1.procs[p] == s.procs[p].(pc := Wakeup(st, INIT, 0, Reparenting(i + 1)))
      && NoPlocks(t1) && Woken(t1, p, 0) == Giving(s, p, i + 1, st)
  {
    var t := Giving(s, p, i, st);
    GivingQuiet(s, p, i, st);
    var t1 := Go1(t, p, false);
    assert HasChildBefore(s, p, i + 1);
    assert i != p;
    assert Woken(t1, p, 0).procs == Giving(s, p, i + 1, st).procs;
  }

  lemma {:induction false} GiveAlone(s: State, p: nat, i: nat, st: int) returns (n: nat)
    requires Quiet(s, p) && s.procs[p].parent != Some(p) && i <= |s.procs|
    ensures Alone(Giving(s, p, i, st), p, false, n, Giving(s, p, |s.procs|, st))
    decreases |s.procs| - i
  {
    var t, u := Giving(s, p, i, st), Giving(s, p, |s.procs|, st);
    if i == |s.procs| {
      AloneNone(t, p, false);
      n := 0;
    } else {
      var m := GiveAlone(s, p, i + 1, st);
      if IsChild(s, p, i) {
        GiveOne(s, p, i, st);
        var t1 := Go1(t, p, false);
        var k := WakeAlone(t1, p);
        AloneThen(t1, p, false, k, Giving(s, p, i + 1, st), m, u, k + m);
        AloneFirst(t, p, false, t1, k + m, 1 + k + m, u);
        n := 1 + k + m;
      } else {
        GiveNone(s, p, i, st);
        AloneFirst(t, p, false, Giving(s, p, i + 1, st), m, 1 + m, u);
        n := 1 + m;
      }
    }
  }

  /**
   What kexit leaves: p is a zombie with its status, off its processor; its children are init's, and init is awake if
   there were any; its parent is awake; nothing else has changed.
   */
  function Exited(s: State, p: nat, st: int): State
    requires p < |s.procs| && s.procs[p].parent.Some?
  {
    var x := s.procs[p];
    s.(procs := seq(|s.procs|, q requires 0 <= q < |s.procs| =>
         if q == p then x.(state := ZOMBIE, xstate := st, pc := Gone, plock := None)
         else Rouse(Given(s, p, |s.procs|, q), x.parent.value)),
       exited := s.exited[x.pid := st])
  }

  function Died(t: State, p: nat, st: int): State
    requires p < |t.procs|
  {
    var x := t.procs[p];
    Put(t, p, x.(state := ZOMBIE, xstate := st, pc := Gone, plock := None))
    .(waitLock := None, exited := t.exited[x.pid := st])
  }

  lemma DieAlone(t: State, p: nat, st: int)
    requires p < |t.procs| && t.procs[p].state.RUNNING? && t.procs[p].pc == ExitLock(st) && t.procs[p].plock.None?
    ensures Alone(t, p, false, 4, Died(t, p, st))
  {
    var t1 := Go1(t, p, false);
    var t2 := Go1(t1, p, false);
    var t3 := Go1(t2, p, false);
    var t4 := Go1(t3, p, false);
    assert t4.procs == Died(t, p, st).procs;
    AloneOne(t3, p, false, t4);
    AloneFirst(t2, p, false, t3, 1, 2, t4);
    AloneFirst(t1, p, false, t2, 2, 3, t4);
    AloneFirst(t, p, false, t1, 3, 4, t4);
  }

  lemma PartStarts(s: State, p: nat, st: int)
    requires Quiet(s, p) && s.procs[p].parent.Some? && s.procs[p].parent != Some(p)
    ensures var t := Giving(s, p, |s.procs|, st);
      && CanGo(t, p) && var t1 := Go1(t, p, false);
      && |t1.procs| == |s.procs| && t1.procs[p] == s.procs[p].(pc := Wakeup(st, s.procs[p].parent.value, 0, Parting))
      && NoPlocks(t1) && Died(Woken(t1, p, 0), p, st) == Exited(s, p, st)
  {
    var t := Giving(s, p, |s.procs|, st);
    GivingQuiet(s, p, |s.procs|, st);
    var t1 := Go1(t, p, false);
    assert Died(Woken(t1, p, 0), p, st).procs == Exited(s, p, st).procs;
  }

  /** From the end of reparent to the end. */
  lemma PartAlone(s: State, p: nat, st: int) returns (n: nat)
    requires Quiet(s, p) && s.procs[p].parent.Some? && s.procs[p].parent != Some(p)
    ensures Alone(Giving(s, p, |s.procs|, st), p, false, n, Exited(s, p, st))
  {
    var t := Giving(s, p, |s.procs|, st);
    PartStarts(s, p, st);
    var t1 := Go1(t, p, false);
    var k := WakeAlone(t1, p);
    var t2, u := Woken(t1, p, 0), Exited(s, p, st);
    DieAlone(t2, p, st);
    AloneThen(t1, p, false, k, t2, 4, u, k + 4);
    AloneFirst(t, p, false, t1, k + 4, k + 5, u);
    n := k + 5;
  }

  lemma ExitAlone(s: State, p: nat, st: int) returns (n: nat)
    requires Inv(s) && Quiet(s, p) && p != INIT
    ensures Enabled(s, Exit(p, st)) && s.procs[p].parent.Some?
    ensures Alone(Step(s, Exit(p, st)), p, false, n, Exited(s, p, st))
  {
    assert One(s, p);
    var s1 := Step(s, Exit(p, st));
    var s2 := Giving(s, p, 0, st);
    assert !HasChildBefore(s, p, 0);
    assert Go1(s1, p, false).procs == s2.procs;
    var k := GiveAlone(s, p, 0, st);
    var m := PartAlone(s, p, st);
    AloneThen(s2, p, false, k, Giving(s, p, |s.procs|, st), m, Exited(s, p, st), k + m);
    AloneFirst(s1, p, false, s2, k + m, 1 + k + m, Exited(s, p, st));
    n := 1 + k + m;
  }
}
