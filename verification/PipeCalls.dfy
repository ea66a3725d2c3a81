/**
 What pipewrite and piperead do (kernel/pipe.c), from beginning to end or until they sleep, when nothing else runs.
 */
module PipeCalls {
  import opened Folding
  import opened Pipe
  import opened PipeRuns

  /** Thread t starts on a pipe that nobody has locked. */
  ghost predicate Quiet(s: State, t: nat) { Inv(s) && t < |s.pcs| && s.pcs[t].Idle? && s.lock.None? }

  predicate Path(s: State, t: nat, n: nat, u: State)
    requires Size(s.ring) > 0
    decreases n
  {
    if n == 0 then s == u
    else t < |s.pcs| && HasLock(s.pcs[t]) && Path(Step(s, Go(t, false)), t, n - 1, u)
  }

  /** s goes to u by n steps of t alone, in which no copy fails. */
  ghost predicate Alone(s: State, t: nat, n: nat, u: State)
    requires Size(s.ring) > 0
  {
    forall k {:trigger Unfold(k)} :: Unfold(k) ==> Path(s, t, n, u)
  }

  lemma {:induction false} PathRuns(s: State, t: nat, n: nat, u: State) returns (es: seq<Event>)
    requires Size(s.ring) > 0 && Path(s, t, n, u)
    ensures Runs(s, es) && Final(s, es) == u && |es| == n && forall i :: 0 <= i < n ==> es[i] == Go(t, false)
    decreases n
  {
    if n == 0 {
      es := [];
    } else {
      var rest := PathRuns(Step(s, Go(t, false)), t, n - 1, u);
      es := [Go(t, false)] + rest;
      assert es[1..] == rest;
    }
  }

  lemma AloneRuns(s: State, t: nat, n: nat, u: State) returns (es: seq<Event>)
    requires Size(s.ring) > 0 && Alone(s, t, n, u)
    ensures Runs(s, es) && Final(s, es) == u && |es| == n && forall i :: 0 <= i < n ==> es[i] == Go(t, false)
  {
    assert Unfold(KEY);
    es := PathRuns(s, t, n, u);
  }

  lemma AloneFirst(s: State, t: nat, s1: State, j: nat, k: nat, u: State)
    requires Size(s.ring) > 0 && Size(s1.ring) > 0 && k == j + 1
    requires t < |s.pcs| && HasLock(s.pcs[t]) && Step(s, Go(t, false)) == s1 && Alone(s1, t, j, u)
    ensures Alone(s, t, k, u)
  {
    assert Unfold(KEY);
  }

  lemma AloneOne(s: State, t: nat, u: State)
    requires Size(s.ring) > 0 && Size(u.ring) > 0
    requires t < |s.pcs| && HasLock(s.pcs[t]) && Step(s, Go(t, false)) == u
    ensures Alone(s, t, 1, u)
  {
    assert Alone(u, t, 0, u);
    AloneFirst(s, t, u, 0, 1, u);
  }

  // ----- pipewrite -----

  function Room(s: State): int
    requires s.ring.nread < U32 && s.ring.nwrite < U32
  {
    Size(s.ring) - Count(s.ring)
  }

  /** u differs from s in its ring, which has the bytes bs more, and in its threads. */
  ghost predicate Added(s: State, u: State, bs: seq<Byte>) {
    && Shaped(s.ring) && Shaped(u.ring) && Size(u.ring) == Size(s.ring)
    && Contents(u.ring) == Contents(s.ring) + bs && u.stored == s.stored + bs
    && u == s.(ring := u.ring, stored := u.stored, pcs := u.pcs, lock := u.lock)
  }

  lemma AddedNext(s: State, s1: State, u: State, b: Byte, bs: seq<Byte>)
    requires Added(s, s1, [b]) && Added(s1, u, bs)
    ensures Added(s, u, [b] + bs)
  {
    assert Contents(s.ring) + [b] + bs == Contents(s.ring) + ([b] + bs);
    assert s.stored + [b] + bs == s.stored + ([b] + bs);
  }

  /** Where the threads are once t has written all, or sleeps after the first k bytes: readers have been woken. */
  function AfterWrite(s: State, t: nat, src: seq<Byte>, k: nat): seq<Pc>
    requires t < |s.pcs|
  {
    WakeReaders(s).pcs[t := if k == |src| then Idle else WriteAsleep(src, k)]
  }

  lemma DoneAlone(s: State, t: nat, src: seq<Byte>, i: nat) returns (n: nat, u: State)
    requires Shaped(s.ring) && t < |s.pcs| && s.lock == Some(t) && s.pcs[t] == WriteLoop(src, i) && i == |src|
    ensures Size(s.ring) > 0 && Alone(s, t, n, u)
    ensures Added(s, u, src[i..i]) && u.lock.None? && u.pcs == AfterWrite(s, t, src, |src|)
  {
    var s1 := PipeRuns.At(s, t, WriteDone);
    u := Unlocked(PipeRuns.At(WakeReaders(s1), t, Idle));
    assert u.pcs == AfterWrite(s, t, src, |src|);
    assert src[i..i] == [] && Contents(s.ring) + [] == Contents(s.ring) && s.stored + [] == s.stored;
    AloneOne(s1, t, u);
    AloneFirst(s, t, s1, 1, 2, u);
    n := 2;
  }

  lemma StoreStep(s: State, t: nat, src: seq<Byte>, i: nat)
    requires Shaped(s.ring) && t < |s.pcs| && s.lock == Some(t) && s.pcs[t] == WriteLoop(src, i) && i < |src|
    requires s.readopen && t !in s.killed && !Full(s.ring)
    ensures Size(s.ring) > 0 && var s1 := GoWrite(s, t, false);
      && Added(s, s1, [src[i]]) && s1.pcs == s.pcs[t := WriteLoop(src, i + 1)] && s1.lock == s.lock
      && Room(s1) == Room(s) - 1
  {
    FullEmpty(s.ring);
    PushContents(s.ring, src[i]);
  }

  /** How far a write of src that is at byte i gets. */
  function Reach(s: State, src: seq<Byte>, i: nat): int
    requires s.ring.nread < U32 && s.ring.nwrite < U32
  {
    if |src| - i <= Room(s) then |src| else i + Room(s)
  }

  lemma SleepsFull(s: State, t: nat, src: seq<Byte>, i: nat) returns (u: State)
    requires Shaped(s.ring) && t < |s.pcs| && s.lock == Some(t) && s.pcs[t] == WriteLoop(src, i) && i < |src|
    requires s.readopen && t !in s.killed && Full(s.ring)
    ensures Size(s.ring) > 0 && Alone(s, t, 1, u)
    ensures Reach(s, src, i) == i && Added(s, u, src[i..i]) && u.lock.None? && u.pcs == AfterWrite(s, t, src, i)
  {
    FullEmpty(s.ring);
    u := Unlocked(PipeRuns.At(WakeReaders(s), t, WriteAsleep(src, i)));
    assert src[i..i] == [] && Contents(s.ring) + [] == Contents(s.ring) && s.stored + [] == s.stored;
    AloneOne(s, t, u);
  }

  lemma StoreJoin(s: State, s1: State, u: State, t: nat, src: seq<Byte>, i: nat, k: nat)
    requires i < k <= |src| && Added(s, s1, [src[i]]) && Added(s1, u, src[i + 1..k]) && t < |s.pcs|
    requires s1.pcs == s.pcs[t := WriteLoop(src, i + 1)]
    ensures Added(s, u, src[i..k]) && AfterWrite(s1, t, src, k) == AfterWrite(s, t, src, k)
  {
    AddedNext(s, s1, u, src[i], src[i + 1..k]);
    assert [src[i]] + src[i + 1..k] == src[i..k];
  }

  /** The loop of pipewrite from byte i on, with the read end open and t not killed. */
  lemma {:induction false} StoreAlone(s: State, t: nat, src: seq<Byte>, i: nat) returns (n: nat, u: State)
    requires Shaped(s.ring) && t < |s.pcs| && s.lock == Some(t) && s.pcs[t] == WriteLoop(src, i) && i <= |src|
    requires s.readopen && t !in s.killed
    ensures Size(s.ring) > 0 && Alone(s, t, n, u)
    ensures var k := Reach(s, src, i);
      i <= k <= |src| && Added(s, u, src[i..k]) && u.lock.None? && u.pcs == AfterWrite(s, t, src, k)
    decreases |src| - i
  {
    FullEmpty(s.ring);
    if i == |src| {
      n, u := DoneAlone(s, t, src, i);
    } else if Full(s.ring) {
      u := SleepsFull(s, t, src, i);
      n := 1;
    } else {
      var s1 := GoWrite(s, t, false);
      StoreStep(s, t, src, i);
      var m;
      m, u := StoreAlone(s1, t, src, i + 1);
      assert Reach(s1, src, i + 1) == Reach(s, src, i);
      StoreJoin(s, s1, u, t, src, i, Reach(s, src, i));
      AloneFirst(s, t, s1, m, m + 1, u);
      n := m + 1;
    }
  }

  /**
   pipewrite: with the read end open and the writer not killed, the bytes are appended, all of them or as many as there
   is room for, and readers are woken; the writer returns, or sleeps with the rest to write.
   */
  lemma WriteAlone(s: State, t: nat, src: seq<Byte>) returns (n: nat, u: State)
    requires Quiet(s, t) && s.readopen && t !in s.killed
    ensures Size(s.ring) > 0 && Enabled(s, Write(t, src)) && Enabled(Step(s, Write(t, src)), Lock(t))
    ensures Alone(Step(Step(s, Write(t, src)), Lock(t)), t, n, u)
    ensures var k := Reach(s, src, 0);
      0 <= k <= |src| && Added(s, u, src[..k]) && u.lock.None? && u.pcs == AfterWrite(s, t, src, k)
  {
    FullEmpty(s.ring);
    var s1 := Step(Step(s, Write(t, src)), Lock(t));
    assert s1.pcs == s.pcs[t := WriteLoop(src, 0)];
    n, u := StoreAlone(s1, t, src, 0);
    var k := Reach(s, src, 0);
    assert src[0..k] == src[..k];
    assert AfterWrite(s1, t, src, k) == AfterWrite(s, t, src, k);
  }

  /** With the read end closed, or killed, a write of anything fails and stores nothing. */
  lemma WriteRefused(s: State, t: nat, src: seq<Byte>)
    requires Quiet(s, t) && (!s.readopen || t in s.killed) && |src| > 0
    ensures Size(s.ring) > 0 && Enabled(s, Write(t, src)) && Enabled(Step(s, Write(t, src)), Lock(t))
    ensures Alone(Step(Step(s, Write(t, src)), Lock(t)), t, 1, s)
  {
    FullEmpty(s.ring);
    var s1 := Step(Step(s, Write(t, src)), Lock(t));
    assert Step(s1, Go(t, false)).pcs == s.pcs;
    AloneOne(s1, t, s);
  }

  // ----- piperead -----

  /** u differs from s in its ring, from which the bytes bs are gone, and in its threads. */
  ghost predicate Taken(s: State, u: State, bs: seq<Byte>) {
    && Shaped(s.ring) && Shaped(u.ring) && Size(u.ring) == Size(s.ring)
    && Contents(s.ring) == bs + Contents(u.ring) && u.consumed == s.consumed + bs
    && u == s.(ring := u.ring, consumed := u.consumed, pcs := u.pcs, lock := u.lock)
  }

  lemma TakenNext(s: State, s1: State, u: State, b: Byte, bs: seq<Byte>)
    requires Taken(s, s1, [b]) && Taken(s1, u, bs)
    ensures Taken(s, u, [b] + bs)
  {
    assert [b] + (bs + Contents(u.ring)) == ([b] + bs) + Contents(u.ring);
    assert s.consumed + [b] + bs == s.consumed + ([b] + bs);
  }

  lemma FetchStep(s: State, t: nat, n: nat, i: nat)
    requires Shaped(s.ring) && t < |s.pcs| && s.lock == Some(t) && s.pcs[t] == ReadLoop(n, i) && i < n
    requires Count(s.ring) > 0
    ensures Size(s.ring) > 0 && var s1 := GoRead(s, t, false);
      && Taken(s, s1, Contents(s.ring)[..1]) && s1.pcs == s.pcs[t := ReadLoop(n, i + 1)] && s1.lock == s.lock
  {
    FullEmpty(s.ring);
    PopContents(s.ring);
    var s1 := GoRead(s, t, false);
    assert Contents(s.ring)[..1] == [s.ring.data[s.ring.nread % Size(s.ring)]];
  }

  lemma FetchEnds(s: State, t: nat, n: nat, i: nat) returns (u: State)
    requires Shaped(s.ring) && t < |s.pcs| && s.lock == Some(t) && s.pcs[t] == ReadLoop(n, i) && i <= n
    requires i == n || Count(s.ring) == 0
    ensures Size(s.ring) > 0 && Alone(s, t, 2, u)
    ensures Taken(s, u, []) && u.lock.None? && u.pcs == WakeWriters(s).pcs[t := Idle]
  {
    FullEmpty(s.ring);
    var s1 := PipeRuns.At(s, t, ReadDone);
    u := Unlocked(PipeRuns.At(WakeWriters(s1), t, Idle));
    assert u.pcs == WakeWriters(s).pcs[t := Idle];
    assert [] + Contents(s.ring) == Contents(s.ring) && s.consumed + [] == s.consumed;
    AloneOne(s1, t, u);
    AloneFirst(s, t, s1, 1, 2, u);
  }

  lemma {:induction false} FetchAlone(s: State, t: nat, n: nat, i: nat) returns (m: nat, u: State)
    requires Shaped(s.ring) && t < |s.pcs| && s.lock == Some(t) && s.pcs[t] == ReadLoop(n, i) && i <= n
    ensures Size(s.ring) > 0 && Alone(s, t, m, u)
    ensures var k := if n - i <= Count(s.ring) then n - i else Count(s.ring);
      Taken(s, u, Contents(s.ring)[..k]) && u.lock.None? && u.pcs == WakeWriters(s).pcs[t := Idle]
    decreases n - i
  {
    FullEmpty(s.ring);
    var all := Contents(s.ring);
    var k := if n - i <= Count(s.ring) then n - i else Count(s.ring);
    if i == n || Count(s.ring) == 0 {
      u := FetchEnds(s, t, n, i);
      assert all[..k] == [];
      m := 2;
    } else {
      FetchStep(s, t, n, i);
      var s1 := GoRead(s, t, false);
      var j;
      j, u := FetchAlone(s1, t, n, i + 1);
      assert all == all[..1] + Contents(s1.ring) && |Contents(s1.ring)| == |all| - 1;
      TakenNext(s, s1, u, all[0], Contents(s1.ring)[..k - 1]);
      assert all[..1] == [all[0]] && [all[0]] + Contents(s1.ring)[..k - 1] == all[..k];
      assert WakeWriters(s1).pcs[t := Idle] == WakeWriters(s).pcs[t := Idle];
      AloneFirst(s, t, s1, j, j + 1, u);
      m := j + 1;
    }
  }

  /**
   piperead: from a pipe with bytes, or whose write end is closed, the oldest bytes are taken, n of them or all there
   are, and writers are woken.
   */
  lemma ReadAlone(s: State, t: nat, n: nat) returns (m: nat, u: State)
    requires Quiet(s, t) && s.readopen && (Count(s.ring) > 0 || !s.writeopen)
    ensures Size(s.ring) > 0 && Enabled(s, Read(t, n)) && Enabled(Step(s, Read(t, n)), Lock(t))
    ensures Alone(Step(Step(s, Read(t, n)), Lock(t)), t, m, u)
    ensures var k := if n <= Count(s.ring) then n else Count(s.ring);
      Taken(s, u, Contents(s.ring)[..k]) && u.lock.None? && u.pcs == WakeWriters(s).pcs[t := Idle]
  {
    FullEmpty(s.ring);
    var s1 := Step(Step(s, Read(t, n)), Lock(t));
    assert s1.pcs == s.pcs[t := ReadTest(n)];
    var s2 := PipeRuns.At(s1, t, ReadLoop(n, 0));
    var j;
    j, u := FetchAlone(s2, t, n, 0);
    assert WakeWriters(s2).pcs[t := Idle] == WakeWriters(s).pcs[t := Idle];
    AloneFirst(s1, t, s2, j, j + 1, u);
    m := j + 1;
  }

  /** From an empty pipe whose write end is open a reader sleeps, or returns if killed, and nothing else changes. */
  lemma ReadWaits(s: State, t: nat, n: nat)
    requires Quiet(s, t) && s.readopen && s.writeopen && Count(s.ring) == 0
    ensures Size(s.ring) > 0 && Enabled(s, Read(t, n)) && Enabled(Step(s, Read(t, n)), Lock(t))
    ensures Alone(Step(Step(s, Read(t, n)), Lock(t)), t, 1,
                  if t in s.killed then s else PipeRuns.At(s, t, ReadAsleep(n)))
  {
    FullEmpty(s.ring);
    var s1 := Step(Step(s, Read(t, n)), Lock(t));
    var u := if t in s.killed then s else PipeRuns.At(s, t, ReadAsleep(n));
    assert Step(s1, Go(t, false)).pcs == u.pcs;
    AloneOne(s1, t, u);
  }
}
