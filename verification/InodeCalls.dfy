/**
 What iget, ilock, iupdate, iput and ialloc do (kernel/fs.c), each from beginning to end.
 */
module InodeCalls {
  import opened InodeTable

  lemma RunsFirst(s: State, e: Event, es: seq<Event>, t: State)
    requires Enabled(s, e) && Runs(Step(s, e), es) && Final(Step(s, e), es) == t
    ensures Runs(s, [e] + es) && Final(s, [e] + es) == t
  {
    assert ([e] + es)[1..] == es;
  }

  /** The code of iget takes a step of the machine whenever one is possible, and panics only when none is. */
  method RunIget(tab: Table, ghost s: State, ghost h: nat, ino: Ino) returns (i: nat, ghost s': State)
    requires Inv(s) && tab.inode == s.table && h !in s.refs && ino in s.disk
    modifies tab
    ensures Inv(s') && tab.inode == s'.table
    ensures i == |s.table| <==> forall j: nat :: !Enabled(s, InodeTable.Iget(h, ino, j))
    ensures if i == |s.table| then s' == s
            else Enabled(s, InodeTable.Iget(h, ino, i)) && s' == Step(s, InodeTable.Iget(h, ino, i))
    ensures i != |s.table| ==> i < |s'.table| && s'.table[i].ino == ino && s'.refs == s.refs[h := Open(i)]
  {
    i := tab.Iget(ino);
    s' := s;
    if i != |s.table| {
      assert Enabled(s, InodeTable.Iget(h, ino, i));
      StepKeepsInv(s, InodeTable.Iget(h, ino, i));
      s' := Step(s, InodeTable.Iget(h, ino, i));
    }
  }

  /** ilock, when the lock is free: the holder sees the inode as it is on disk, and nothing else changes. */
  lemma IlockReads(s: State, h: nat)
    requires Inv(s) && IsOpen(s, h) && Free(s, s.refs[h].i)
    requires var x := s.table[s.refs[h].i]; x.valid || (x.ino in s.disk && s.disk[x.ino].typ != 0)
    ensures var i := s.refs[h].i; var x := s.table[i]; var es := [Ilock(h), Load(h)];
      && Runs(s, es) && x.ino in s.disk
      && Final(s, es) ==
           s.(table := s.table[i := x.(valid := true, node := s.disk[x.ino])], refs := s.refs[h := Locked(i)])
  {
    var i := s.refs[h].i;
    var x := s.table[i];
    InUse(s, h);
    assert EntryOk(s, i) && (i in s.dirty ==> DirtyOk(s, i));
    var s1 := Step(s, Ilock(h));
    var s2 := Step(s1, Load(h));
    assert s2.table == s.table[i := x.(valid := true, node := s.disk[x.ino])];
    assert s2.refs == s.refs[h := Locked(i)];
    RunsFirst(s1, Load(h), [], s2);
    RunsFirst(s, Ilock(h), [Load(h)], s2);
    assert [Ilock(h)] + [Load(h)] == [Ilock(h), Load(h)];
  }

  /** A change, iupdate and iunlock: the disk has the new inode, and so has the table; nothing else changes. */
  lemma IupdateWrites(s: State, h: nat, node: Dinode)
    requires Inv(s) && IsLocked(s, h) && node.typ != 0
    ensures var i := s.refs[h].i; var x := s.table[i]; var es := [Change(h, node), Iupdate(h), Iunlock(h)];
      && Runs(s, es)
      && Final(s, es) == s.(table := s.table[i := x.(node := node)], disk := s.disk[x.ino := node],
                            refs := s.refs[h := Open(i)], dirty := s.dirty - {i})
  {
    var s1 := Step(s, Change(h, node));
    var s2 := Step(s1, Iupdate(h));
    var s3 := Step(s2, Iunlock(h));
    assert s3.dirty == s.dirty - {s.refs[h].i};
    RunsFirst(s2, Iunlock(h), [], s3);
    RunsFirst(s1, Iupdate(h), [Iunlock(h)], s3);
    RunsFirst(s, Change(h, node), [Iupdate(h)] + [Iunlock(h)], s3);
    assert [Change(h, node)] + ([Iupdate(h)] + [Iunlock(h)]) == [Change(h, node), Iupdate(h), Iunlock(h)];
  }

  /** ialloc marks a free inode with its type, otherwise zero, and refers to it. */
  lemma IallocMarks(s: State, h: nat, ino: Ino, typ: nat, i: nat)
    requires Inv(s) && Enabled(s, Ialloc(h, ino, typ)) && CanGet(s.table, ino, i)
    ensures var es := [Ialloc(h, ino, typ), IallocGet(h, i)];
      && Runs(s, es) && var t := Final(s, es);
      && t.disk == s.disk[ino := Dinode(typ, 0, 0, [])] && t.refs == s.refs[h := Open(i)]
      && i < |t.table| && t.table[i].ino == ino && t.dirty == s.dirty
  {
    var s1 := Step(s, Ialloc(h, ino, typ));
    var s2 := Step(s1, IallocGet(h, i));
    assert s2.refs == s.refs[h := Open(i)];
    RunsFirst(s1, IallocGet(h, i), [], s2);
    RunsFirst(s, Ialloc(h, ino, typ), [IallocGet(h, i)], s2);
    assert [Ialloc(h, ino, typ)] + [IallocGet(h, i)] == [Ialloc(h, ino, typ), IallocGet(h, i)];
  }

  /** iput of a reference that is not the last, or to an inode with links, or not read: one reference less. */
  lemma IputDrops(s: State, h: nat)
    requires Inv(s) && IsOpen(s, h)
    requires var x := s.table[s.refs[h].i]; x.ref > 1 || !x.valid || x.node.nlink > 0
    ensures var i := s.refs[h].i;
      && Enabled(s, Iput(h)) && s.table[i].ref > 0
      && Step(s, Iput(h)) == s.(table := s.table[i := s.table[i].(ref := s.table[i].ref - 1)], refs := s.refs - {h})
  {
    InUse(s, h);
  }

  function Steps(h: nat, n: nat): seq<Event> { if n == 0 then [] else [IputStep(h)] + Steps(h, n - 1) }

  /**
   The last iput of an inode without links: its blocks are given up, it is free on disk, its entry is unused, and no
   other inode or reference changes.
   */
  lemma IputFrees(s: State, h: nat)
    requires Inv(s) && IsOpen(s, h)
    requires var x := s.table[s.refs[h].i]; x.ref == 1 && x.valid && x.node.nlink == 0
    ensures var i := s.refs[h].i; var x := s.table[i]; var es := [Iput(h)] + Steps(h, 6);
      && Runs(s, es)
      && Final(s, es) == s.(table := s.table[i := Entry(x.ino, 0, false, Dinode(0, 0, 0, []))],
                            disk := s.disk[x.ino := Dinode(0, 0, 0, [])], refs := s.refs - {h})
  {
    LastEntry(s, h);
    var s1 := Step(s, Iput(h));
    var s3 := FreeSteps(s1, h);
    var t := VoidSteps(s3, h);
    StepsJoin(s1, h, 3, s3, 3, t, 6);
    var i := s.refs[h].i;
    var x := s.table[i];
    assert t.table == s.table[i := Entry(x.ino, 0, false, Dinode(0, 0, 0, []))];
    assert t.disk == s.disk[x.ino := Dinode(0, 0, 0, [])] && t.refs == s.refs - {h};
    RunsFirst(s, Iput(h), Steps(h, 6), t);
  }

  /** itrunc, ip->type = 0 and iupdate. */
  lemma FreeSteps(s: State, h: nat) returns (t: State)
    requires h in s.refs && s.refs[h].Truncating? && s.refs[h].i < |s.table|
    ensures Runs(s, Steps(h, 3)) && Final(s, Steps(h, 3)) == t
    ensures var i := s.refs[h].i; var x := s.table[i]; var free := Dinode(0, x.node.nlink, 0, []);
      && t.refs == s.refs[h := Voiding(i)] && t.table == s.table[i := x.(node := free)]
      && t.disk == s.disk[x.ino := free] && t.dirty == s.dirty
  {
    var s1 := Step(s, IputStep(h));
    var s2 := Step(s1, IputStep(h));
    t := Step(s2, IputStep(h));
    assert Steps(h, 1) == [IputStep(h)] + [] && Steps(h, 2) == [IputStep(h)] + Steps(h, 1);
    RunsFirst(s2, IputStep(h), [], t);
    RunsFirst(s1, IputStep(h), Steps(h, 1), t);
    RunsFirst(s, IputStep(h), Steps(h, 2), t);
  }

  /** ip->valid = 0, the release of the lock, and ip->ref--. */
  lemma VoidSteps(s: State, h: nat) returns (t: State)
    requires h in s.refs && s.refs[h].Voiding? && s.refs[h].i < |s.table| && s.table[s.refs[h].i].ref > 0
    ensures Runs(s, Steps(h, 3)) && Final(s, Steps(h, 3)) == t
    ensures var i := s.refs[h].i; var x := s.table[i];
      && t.refs == s.refs - {h} && t.table == s.table[i := x.(valid := false, ref := x.ref - 1)]
      && t.disk == s.disk && t.dirty == s.dirty
  {
    var s1 := Step(s, IputStep(h));
    var s2 := Step(s1, IputStep(h));
    t := Step(s2, IputStep(h));
    assert t.refs == s.refs - {h};
    assert Steps(h, 1) == [IputStep(h)] + [] && Steps(h, 2) == [IputStep(h)] + Steps(h, 1);
    RunsFirst(s2, IputStep(h), [], t);
    RunsFirst(s1, IputStep(h), Steps(h, 1), t);
    RunsFirst(s, IputStep(h), Steps(h, 2), t);
  }

  lemma StepsSplit(s: State, h: nat, n: nat)
    requires n > 0 && Runs(s, Steps(h, n))
    ensures Enabled(s, IputStep(h)) && Runs(Step(s, IputStep(h)), Steps(h, n - 1))
    ensures Final(s, Steps(h, n)) == Final(Step(s, IputStep(h)), Steps(h, n - 1))
  {
    assert Steps(h, n)[0] == IputStep(h) && Steps(h, n)[1..] == Steps(h, n - 1);
  }

  lemma {:induction false} StepsJoin(s: State, h: nat, n: nat, t: State, m: nat, u: State, k: nat)
    requires Runs(s, Steps(h, n)) && Final(s, Steps(h, n)) == t && Runs(t, Steps(h, m)) && Final(t, Steps(h, m)) == u
    requires k == n + m
    ensures Runs(s, Steps(h, k)) && Final(s, Steps(h, k)) == u
    decreases n
  {
    if n > 0 {
      StepsSplit(s, h, n);
      StepsJoin(Step(s, IputStep(h)), h, n - 1, t, m, u, k - 1);
      RunsFirst(s, IputStep(h), Steps(h, k - 1), u);
    }
  }
}
