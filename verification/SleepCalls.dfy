/**
 What acquiresleep and releasesleep do (kernel/sleeplock.c), from beginning to end, when nothing else runs.
 */
module SleepCalls {
  import opened Folding
  import opened SleepLock

  /** No spinlock is held, and p runs. */
  predicate Quiet(s: State, p: nat) {
    && p < |s.procs| && s.lk.None? && s.procs[p].pause.Going? && s.procs[p].state.RUNNING?
    && forall q :: 0 <= q < |s.procs| ==> s.procs[q].plock.Free?
  }

  predicate Path(s: State, p: nat, n: nat, t: State)
    decreases n
  {
    if n == 0 then s == t else p < |s.procs| && CanGo(s, p) && Path(Go1(s, p), p, n - 1, t)
  }

  /** s goes to t by n steps of p alone. */
  ghost predicate Alone(s: State, p: nat, n: nat, t: State) {
    forall k {:trigger Unfold(k)} :: Unfold(k) ==> Path(s, p, n, t)
  }

  lemma {:induction false} PathRuns(s: State, p: nat, n: nat, t: State) returns (es: seq<Event>)
    requires Path(s, p, n, t)
    ensures Runs(s, es) && Final(s, es) == t && |es| == n && forall i :: 0 <= i < n ==> es[i] == Go(p)
    decreases n
  {
    if n == 0 {
      es := [];
    } else {
      var rest := PathRuns(Go1(s, p), p, n - 1, t);
      es := [Go(p)] + rest;
      assert es[1..] == rest;
    }
  }

  lemma AloneRuns(s: State, p: nat, n: nat, t: State) returns (es: seq<Event>)
    requires Alone(s, p, n, t)
    ensures Runs(s, es) && Final(s, es) == t && |es| == n && forall i :: 0 <= i < n ==> es[i] == Go(p)
  {
    assert Unfold(KEY);
    es := PathRuns(s, p, n, t);
  }

  lemma AloneNone(s: State, p: nat)
    ensures Alone(s, p, 0, s)
  {
  }

  lemma AloneFirst(s: State, p: nat, s1: State, j: nat, k: nat, u: State)
    requires k == j + 1 && p < |s.procs| && CanGo(s, p) && Go1(s, p) == s1 && Alone(s1, p, j, u)
    ensures Alone(s, p, k, u)
  {
    assert Unfold(KEY);
  }

  lemma AloneOne(s: State, p: nat, t: State)
    requires p < |s.procs| && CanGo(s, p) && Go1(s, p) == t
    ensures Alone(s, p, 1, t)
  {
    AloneNone(t, p);
    AloneFirst(s, p, t, 0, 1, t);
  }

  lemma AloneSplit(s: State, p: nat, n: nat, t: State)
    requires Alone(s, p, n, t)
    ensures n == 0 ==> s == t
    ensures n > 0 ==> p < |s.procs| && CanGo(s, p) && Alone(Go1(s, p), p, n - 1, t)
  {
    assert Unfold(KEY);
  }

  lemma {:induction false} AloneThen(s: State, p: nat, n: nat, t: State, m: nat, u: State, k: nat)
    requires Alone(s, p, n, t) && Alone(t, p, m, u) && k == n + m
    ensures Alone(s, p, k, u)
    decreases n
  {
    AloneSplit(s, p, n, t);
    if n > 0 {
      var s1 := Go1(s, p);
      AloneThen(s1, p, n - 1, t, m, u, k - 1);
      AloneFirst(s, p, s1, k - 1, k, u);
    }
  }

  // ----- acquiresleep -----

  /** With the lock free, p has it. */
  lemma AcquireFree(s: State, p: nat)
    requires Quiet(s, p) && s.procs[p].pc.Outside? && !s.locked
    ensures Enabled(s, Acquire(p))
    ensures Alone(Step(s, Acquire(p)), p, 4, At(s, p, Critical).(locked := true, pid := Pid(p)))
  {
    var s1 := Step(s, Acquire(p));
    TakeFree(At(s1, p, TestLocked).(lk := Some(p)), p);
    var t := At(s, p, Critical).(locked := true, pid := Pid(p));
    var s2 := Go1(s1, p);
    assert t.procs == At(s2, p, Critical).procs;
    AloneFirst(s1, p, s2, 3, 4, t);
  }

  /** The test in acquiresleep's loop, and what follows it, with the lock free. */
  lemma TakeFree(s: State, p: nat)
    requires p < |s.procs| && s.lk == Some(p) && s.procs[p].pc.TestLocked? && s.procs[p].pause.Going? && !s.locked
    ensures Alone(s, p, 3, At(s, p, Critical).(lk := None, locked := true, pid := Pid(p)))
  {
    var s1 := Go1(s, p);
    var s2 := Go1(s1, p);
    var s3 := Go1(s2, p);
    assert s3.procs == At(s, p, Critical).procs;
    AloneOne(s2, p, s3);
    AloneFirst(s1, p, s2, 1, 2, s3);
    AloneFirst(s, p, s1, 2, 3, s3);
  }

  /** p asleep on the lock. */
  function Sleeper(x: Proc): Proc { x.(pc := Asleep, state := SLEEPING, chan := CHAN, plock := Scheduler) }

  /** With the lock taken, p sleeps on it, with no lock held but its own, which the scheduler lets go. */
  lemma AcquireTaken(s: State, p: nat)
    requires Quiet(s, p) && s.procs[p].pc.Outside? && s.locked
    ensures Enabled(s, Acquire(p)) && Alone(Step(s, Acquire(p)), p, 7, Put(s, p, Sleeper(s.procs[p])))
    ensures var t := Put(s, p, Sleeper(s.procs[p]));
      Enabled(t, SchedDrop(p)) && Step(t, SchedDrop(p)) == Put(s, p, Sleeper(s.procs[p]).(plock := Free))
  {
    var s1 := Step(s, Acquire(p));
    var s2 := Go1(s1, p);
    var s3 := Go1(s2, p);
    DozeAlone(s3, p);
    var t := Put(s, p, Sleeper(s.procs[p]));
    assert t.procs == Put(s3, p, Sleeper(s3.procs[p])).procs;
    AloneFirst(s2, p, s3, 5, 6, t);
    AloneFirst(s1, p, s2, 6, 7, t);
    assert Step(t, SchedDrop(p)).procs == Put(s, p, Sleeper(s.procs[p]).(plock := Free)).procs;
  }

  /** sleep, up to the switch to the scheduler. */
  lemma DozeAlone(s: State, p: nat)
    requires p < |s.procs| && s.lk == Some(p) && s.procs[p].pc.SleepAcquireP? && s.procs[p].pause.Going?
    requires s.procs[p].plock.Free?
    ensures Alone(s, p, 5, Put(s, p, Sleeper(s.procs[p])).(lk := None))
  {
    var x := s.procs[p];
    var s1 := Put(s, p, x.(pc := SleepReleaseLk, plock := Self));
    var s2 := Put(s, p, x.(pc := SleepSetChan, plock := Self)).(lk := None);
    var s3 := Put(s, p, x.(pc := SleepSetState, plock := Self, chan := CHAN)).(lk := None);
    var s4 := Put(s, p, x.(pc := SleepSched, plock := Self, chan := CHAN, state := SLEEPING)).(lk := None);
    var t := Put(s, p, Sleeper(x)).(lk := None);
    AloneOne(s4, p, t);
    AloneFirst(s3, p, s4, 1, 2, t);
    AloneFirst(s2, p, s3, 2, 3, t);
    AloneFirst(s1, p, s2, 3, 4, t);
    AloneFirst(s, p, s1, 4, 5, t);
  }

  /** A sleeper that was woken, once it is scheduled: with the lock free, it has it. */
  lemma WokenTakes(s: State, p: nat)
    requires p < |s.procs| && s.lk.None? && !s.locked
    requires s.procs[p].pause.Going? && s.procs[p].pc.Asleep? && s.procs[p].state.RUNNABLE? && s.procs[p].plock.Free?
    ensures Enabled(s, SchedTake(p)) && Enabled(Step(s, SchedTake(p)), SchedRun(p))
    ensures Alone(Step(Step(s, SchedTake(p)), SchedRun(p)), p, 6,
                  Put(s, p, s.procs[p].(pc := Critical, state := RUNNING, chan := 0))
                  .(locked := true, pid := Pid(p)))
  {
    var s1 := Step(Step(s, SchedTake(p)), SchedRun(p));
    var s2 := Go1(s1, p);
    var s3 := Go1(s2, p);
    var s4 := Go1(s3, p);
    TakeFree(s4, p);
    var t := At(s4, p, Critical).(lk := None, locked := true, pid := Pid(p));
    assert t.procs == s.procs[p := s.procs[p].(pc := Critical, state := RUNNING, chan := 0)];
    AloneFirst(s3, p, s4, 3, 4, t);
    AloneFirst(s2, p, s3, 4, 5, t);
    AloneFirst(s1, p, s2, 5, 6, t);
  }

  // ----- releasesleep -----

  function Roused(x: Proc): Proc { if x.state.SLEEPING? && x.chan == CHAN then x.(state := RUNNABLE) else x }

  /** The processes after wakeup by p, from slot i on. */
  function RouseFrom(procs: seq<Proc>, p: nat, i: nat): (r: seq<Proc>)
    ensures |r| == |procs|
  {
    seq(|procs|, q requires 0 <= q < |procs| => if i <= q && q != p then Roused(procs[q]) else procs[q])
  }

  function Woken(s: State, p: nat, i: nat): State
    requires p < |s.procs|
  {
    s.(procs := RouseFrom(s.procs, p, i)[p := s.procs[p].(pc := RelReleaseLk)])
  }

  predicate OthersFree(s: State, p: nat) {
    forall q :: 0 <= q < |s.procs| && q != p ==> s.procs[q].plock.Free?
  }

  function Visited(s: State, p: nat, i: nat): State
    requires p < |s.procs| && i < |s.procs|
  {
    At(Put(s, i, Roused(s.procs[i])), p, WakeAcquire(i + 1))
  }

  lemma WokenNext(s: State, s': State, p: nat, i: nat)
    requires p < |s.procs| == |s'.procs| && i < |s.procs| && s' == s.(procs := s'.procs)
    requires s'.procs[p] == s.procs[p].(pc := s'.procs[p].pc)
    requires forall q :: 0 <= q < |s.procs| && q != p ==>
      s'.procs[q] == if q == i then Roused(s.procs[q]) else s.procs[q]
    ensures Woken(s', p, i + 1) == Woken(s, p, i)
  {
    assert Woken(s', p, i + 1).procs == Woken(s, p, i).procs;
  }

  lemma WakeEnds(s: State, p: nat)
    requires p < |s.procs| && s.procs[p].pause.Going? && s.procs[p].pc == WakeAcquire(|s.procs|)
    ensures Alone(s, p, 1, Woken(s, p, |s.procs|))
  {
    var s1 := At(s, p, RelReleaseLk);
    assert s1.procs == Woken(s, p, |s.procs|).procs;
    AloneOne(s, p, s1);
  }

  lemma VisitedFree(s: State, p: nat, i: nat)
    requires p < |s.procs| && s.procs[p].pause.Going? && i < |s.procs| && i != p && OthersFree(s, p)
    ensures var s' := Visited(s, p, i);
      && |s'.procs| == |s.procs| && s'.procs[p] == s.procs[p].(pc := WakeAcquire(i + 1)) && OthersFree(s', p)
      && Woken(s', p, i + 1) == Woken(s, p, i)
  {
    WokenNext(s, Visited(s, p, i), p, i);
  }

  lemma {:induction false} WakeAlone(s: State, p: nat, i: nat) returns (n: nat)
    requires p < |s.procs| && s.procs[p].pause.Going? && s.procs[p].pc == WakeAcquire(i) && i <= |s.procs|
    requires OthersFree(s, p)
    ensures Alone(s, p, n, Woken(s, p, i))
    decreases |s.procs| - i
  {
    if i == |s.procs| {
      WakeEnds(s, p);
      n := 1;
    } else if i == p {
      var s1 := At(s, p, WakeAcquire(i + 1));
      WokenNext(s, s1, p, i);
      var m := WakeAlone(s1, p, i + 1);
      AloneFirst(s, p, s1, m, 1 + m, Woken(s, p, i));
      n := 1 + m;
    } else {
      VisitAlone(s, p, i);
      var s3 := Visited(s, p, i);
      VisitedFree(s, p, i);
      var m := WakeAlone(s3, p, i + 1);
      AloneThen(s, p, 3, s3, m, Woken(s, p, i), 3 + m);
      n := 3 + m;
    }
  }

  function Visiting(s: State, p: nat, i: nat): State
    requires p < |s.procs| && i < |s.procs|
  {
    Put(At(s, p, WakeCheck(i)), i, s.procs[i].(plock := Waker(p)))
  }

  function Checked(s: State, p: nat, i: nat): State
    requires p < |s.procs| && i < |s.procs|
  {
    Put(At(s, p, WakeRelease(i)), i, Roused(s.procs[i]).(plock := Waker(p)))
  }

  lemma VisitTakes(s: State, p: nat, i: nat)
    requires p < |s.procs| && s.procs[p].pause.Going? && s.procs[p].pc == WakeAcquire(i) && i < |s.procs| && i != p
    requires s.procs[i].plock.Free?
    ensures CanGo(s, p) && Go1(s, p) == Visiting(s, p, i)
  {
  }

  lemma VisitChecks(s: State, p: nat, i: nat)
    requires p < |s.procs| && s.procs[p].pause.Going? && i < |s.procs| && i != p
    ensures var s1 := Visiting(s, p, i); CanGo(s1, p) && Go1(s1, p) == Checked(s, p, i)
  {
    var s1 := Visiting(s, p, i);
    assert s1.procs[p].pc == WakeCheck(i) && s1.procs[i] == s.procs[i].(plock := Waker(p));
    assert Go1(s1, p).procs == Checked(s, p, i).procs;
  }

  lemma VisitDrops(s: State, p: nat, i: nat)
    requires p < |s.procs| && s.procs[p].pause.Going? && i < |s.procs| && i != p && s.procs[i].plock.Free?
    ensures var s2 := Checked(s, p, i); CanGo(s2, p) && Go1(s2, p) == Visited(s, p, i)
  {
    var s2 := Checked(s, p, i);
    assert s2.procs[p].pc == WakeRelease(i) && s2.procs[i] == Roused(s.procs[i]).(plock := Waker(p));
    assert Go1(s2, p).procs == Visited(s, p, i).procs;
  }

  lemma VisitAlone(s: State, p: nat, i: nat)
    requires p < |s.procs| && s.procs[p].pause.Going? && s.procs[p].pc == WakeAcquire(i) && i < |s.procs| && i != p
    requires s.procs[i].plock.Free?
    ensures Alone(s, p, 3, Visited(s, p, i))
  {
    VisitTakes(s, p, i);
    VisitChecks(s, p, i);
    VisitDrops(s, p, i);
    var s1, s2, s3 := Visiting(s, p, i), Checked(s, p, i), Visited(s, p, i);
    AloneOne(s2, p, s3);
    AloneFirst(s1, p, s2, 1, 2, s3);
    AloneFirst(s, p, s1, 2, 3, s3);
  }

  /** The lock is free, whoever slept on it can run, and nothing else changes. */
  function Released(s: State, p: nat): State
    requires p < |s.procs|
  {
    s.(procs := RouseFrom(s.procs, p, 0)[p := s.procs[p].(pc := Outside)], locked := false, pid := 0)
  }

  lemma ReleaseAlone(s: State, p: nat) returns (n: nat)
    requires Quiet(s, p) && s.procs[p].pc.Critical?
    ensures Enabled(s, Release(p)) && Alone(Step(s, Release(p)), p, n, Released(s, p))
  {
    var s1 := Step(s, Release(p));
    var s2 := At(s, p, RelClear).(lk := Some(p));
    var s3 := At(s, p, WakeAcquire(0)).(lk := Some(p), locked := false, pid := 0);
    assert Go1(s1, p).procs == s2.procs && Go1(s2, p).procs == s3.procs;
    var m := WakeAlone(s3, p, 0);
    var s4, t := Woken(s3, p, 0), Released(s, p);
    ReleasedEnds(s, p);
    AloneOne(s4, p, t);
    AloneThen(s3, p, m, s4, 1, t, m + 1);
    AloneFirst(s2, p, s3, m + 1, m + 2, t);
    AloneFirst(s1, p, s2, m + 2, m + 3, t);
    n := m + 3;
  }

  lemma ReleasedEnds(s: State, p: nat)
    requires p < |s.procs| && s.lk.None? && s.procs[p].pause.Going?
    ensures var s3 := At(s, p, WakeAcquire(0)).(lk := Some(p), locked := false, pid := 0);
      CanGo(Woken(s3, p, 0), p) && Go1(Woken(s3, p, 0), p) == Released(s, p)
  {
    var s3 := At(s, p, WakeAcquire(0)).(lk := Some(p), locked := false, pid := 0);
    assert Go1(Woken(s3, p, 0), p).procs == Released(s, p).procs;
  }
}
