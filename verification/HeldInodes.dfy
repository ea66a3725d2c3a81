/**
 That a referenced inode is never free on disk (iget, ilock, iput and ialloc of kernel/fs.c), so that the panic
 "no type" of ilock is unreachable.  iget is called with numbers found in directories, and what a directory names has
 a link (LinkFloors): it is allocated, and has a link on disk and in the table.
 */
module HeldInodes {
  import opened InodeTable

  /** An iget of a number found in a directory. */
  ghost predicate NamedGet(s: State, e: Event) {
    e.Iget? ==>
      && e.ino in s.disk && s.disk[e.ino].typ != 0 && s.disk[e.ino].nlink > 0
      && forall i :: 0 <= i < |s.table| && InodeTable.Names(s.table[i], e.ino) && s.table[i].valid ==>
           s.table[i].node.nlink > 0
  }

  ghost predicate NamedRuns(s: State, es: seq<Event>)
    requires Runs(s, es)
    decreases |es|
  {
    es == [] || (NamedGet(s, es[0]) && NamedRuns(Step(s, es[0]), es[1..]))
  }

  // ----- The invariant -----

  /** iput has yet to write the inode free. */
  predicate Early(st: Stage) { st.Truncating? || st.Clearing? || st.Writing? }

  /** iput has written the inode free. */
  predicate Late(st: Stage) { st.Voiding? || st.Releasing? || st.Dropping? }

  /** A reference is to an inode that is allocated on disk; until iput has freed it, iput knows it to have no links. */
  ghost predicate RefOk(s: State, h: nat)
    requires h in s.refs
  {
    match s.refs[h]
    case Allocated(ino) => ino in s.disk && s.disk[ino].typ != 0 && s.disk[ino].nlink == 0
    case _ =>
      var st := s.refs[h];
      st.i < |s.table| && var x := s.table[st.i];
      && (!Early(st) && !Late(st) ==> x.ino in s.disk && s.disk[x.ino].typ != 0)
      && (Early(st) ==> x.valid && x.node.nlink == 0)
  }

  /** While iput is freeing an inode nobody else refers to it, and while ialloc has yet to, only finished iputs do. */
  ghost predicate PairOk(s: State, h: nat, g: nat)
    requires h in s.refs && g in s.refs
  {
    var a, b := s.refs[h], s.refs[g];
    && (a.Allocated? && b.Allocated? ==> a.ino != b.ino)
    && (a.Allocated? && !b.Allocated? && b.i < |s.table| && s.table[b.i].ino == a.ino ==> Late(b))
    && (Early(a) && !b.Allocated? ==> b.i != a.i)
  }

  ghost predicate Held(s: State) {
    && Inv(s)
    && (forall h :: h in s.refs ==> RefOk(s, h))
    && (forall h, g :: h in s.refs && g in s.refs && h != g ==> PairOk(s, h, g))
  }

  // ----- Steps -----

  /** The reference that a step makes or moves. */
  function Mover(e: Event): nat { if e.Idup? then e.h' else e.h }

  lemma OthersStand(s: State, e: Event, h: nat)
    requires Enabled(s, e) && h in Step(s, e).refs && h != Mover(e)
    ensures h in s.refs && Step(s, e).refs[h] == s.refs[h]
  {
  }

  /** An entry that is referred to stays with its inode. */
  lemma InoStays(s: State, e: Event, h: nat)
    requires Inv(s) && Enabled(s, e) && h in s.refs && !s.refs[h].Allocated?
    ensures var i := s.refs[h].i; i < |s.table| == |Step(s, e).table| && Step(s, e).table[i].ino == s.table[i].ino
  {
    InUse(s, h);
  }

  /** Two references to an inode are to the same entry. */
  lemma SameEntry(s: State, h: nat, g: nat)
    requires Inv(s) && h in s.refs && g in s.refs && !s.refs[h].Allocated? && !s.refs[g].Allocated?
    ensures var i, j := s.refs[h].i, s.refs[g].i;
      i < |s.table| && j < |s.table| && (s.table[i].ino == s.table[j].ino ==> i == j)
  {
    InUse(s, h);
    InUse(s, g);
  }

  /** Only a step of iput writes an inode free, one that it alone refers to. */
  lemma DiskStays(s: State, e: Event, ino: Ino)
    requires Held(s) && Enabled(s, e) && ino in s.disk && s.disk[ino].typ != 0
    ensures ino in Step(s, e).disk
    ensures Step(s, e).disk[ino].typ != 0 ||
      (e.IputStep? && s.refs[e.h].Writing? && s.refs[e.h].i < |s.table| && s.table[s.refs[e.h].i].ino == ino)
  {
    if e.Iupdate? {
      LockedEntry(s, e.h);
    } else if e.IputStep? && s.refs[e.h].Truncating? {
      FreeingEntry(s, e.h);
      assert StageOk(s, e.h);
    }
  }

  /** What others refer to is not written free. */
  lemma OtherHeld(s: State, e: Event, h: nat)
    requires Held(s) && Enabled(s, e) && h in s.refs && h != e.h && !s.refs[h].Allocated?
    requires !Early(s.refs[h]) && !Late(s.refs[h])
    ensures var ino := s.table[s.refs[h].i].ino; ino in Step(s, e).disk && Step(s, e).disk[ino].typ != 0
  {
    assert RefOk(s, h);
    var ino := s.table[s.refs[h].i].ino;
    DiskStays(s, e, ino);
    if e.IputStep? && s.refs[e.h].Writing? {
      SameEntry(s, h, e.h);
      assert PairOk(s, e.h, h);
    }
  }

  /** What ialloc marked is not touched until its iget. */
  lemma AllocatedStays(s: State, e: Event, h: nat)
    requires Held(s) && Enabled(s, e) && h in s.refs && h != e.h && s.refs[h].Allocated?
    ensures var ino := s.refs[h].ino; ino in Step(s, e).disk && Step(s, e).disk[ino] == s.disk[ino]
  {
    assert RefOk(s, h);
    if e.Iupdate? || e.IputStep? {
      InUse(s, e.h);
      assert PairOk(s, h, e.h);
    }
  }

  lemma EarlyStays(s: State, e: Event, h: nat)
    requires Held(s) && Enabled(s, e) && h in s.refs && h != e.h && Early(s.refs[h])
    ensures s.refs[h].i < |s.table| && s.refs[h].i < |Step(s, e).table|
    ensures var x, x' := s.table[s.refs[h].i], Step(s, e).table[s.refs[h].i]; x'.valid == x.valid && x'.node == x.node
  {
    InUse(s, h);
    if e.h in s.refs && !s.refs[e.h].Allocated? {
      assert PairOk(s, h, e.h);
    }
  }

  lemma StepOther(s: State, e: Event, h: nat)
    requires Held(s) && Enabled(s, e) && h in s.refs && h in Step(s, e).refs && h != e.h && h != Mover(e)
    ensures RefOk(Step(s, e), h)
  {
    OthersStand(s, e, h);
    assert RefOk(s, h);
    if s.refs[h].Allocated? {
      AllocatedStays(s, e, h);
    } else {
      InoStays(s, e, h);
      if Early(s.refs[h]) {
        EarlyStays(s, e, h);
      } else if !Late(s.refs[h]) {
        OtherHeld(s, e, h);
      }
    }
  }

  lemma StepMover(s: State, e: Event)
    requires Held(s) && Enabled(s, e) && NamedGet(s, e) && Mover(e) in Step(s, e).refs
    ensures RefOk(Step(s, e), Mover(e))
  {
    var s' := Step(s, e);
    if e.h in s.refs {
      assert RefOk(s, e.h);
    }
    if e.Iupdate? {
      LockedEntry(s, e.h);
    } else if e.IputStep? {
      assert StageOk(s, e.h);
    }
  }

  lemma StepRef(s: State, e: Event, h: nat)
    requires Held(s) && Enabled(s, e) && NamedGet(s, e) && h in Step(s, e).refs
    ensures RefOk(Step(s, e), h)
  {
    if h == Mover(e) {
      StepMover(s, e);
    } else if h == e.h {
      OthersStand(s, e, h);
      assert RefOk(s, h);
      InoStays(s, e, h);
    } else {
      OthersStand(s, e, h);
      StepOther(s, e, h);
    }
  }

  // ----- Pairs -----

  /** Nobody comes to refer to an inode that iput is freeing. */
  lemma EarlyAlone(s: State, e: Event, h: nat)
    requires Held(s) && Enabled(s, e) && NamedGet(s, e) && h in s.refs && Early(s.refs[h]) && h != e.h
    ensures Mover(e) in Step(s, e).refs && !Step(s, e).refs[Mover(e)].Allocated? ==>
      Step(s, e).refs[Mover(e)].i != s.refs[h].i
  {
    InUse(s, h);
    assert RefOk(s, h);
    if e.h in s.refs {
      assert PairOk(s, h, e.h);
      assert PairOk(s, e.h, h);
    }
  }

  /** iput frees an inode that it alone refers to. */
  lemma FreesAlone(s: State, h: nat, g: nat)
    requires Held(s) && IsOpen(s, h) && Frees(s, h) && g in s.refs && g != h
    ensures !s.refs[g].Allocated? ==> s.refs[g].i != s.refs[h].i
  {
    if !s.refs[g].Allocated? && s.refs[g].i == s.refs[h].i {
      Alone(s, h, g);
    }
  }

  /** ialloc finds a free inode, to which only iputs that have freed it refer. */
  lemma IallocAlone(s: State, ino: Ino, g: nat)
    requires Held(s) && ino in s.disk && s.disk[ino].typ == 0 && g in s.refs
    ensures s.refs[g].Allocated? ==> s.refs[g].ino != ino
    ensures !s.refs[g].Allocated? && s.refs[g].i < |s.table| && s.table[s.refs[g].i].ino == ino ==> Late(s.refs[g])
  {
    assert RefOk(s, g);
    if Early(s.refs[g]) {
      FreeingEntry(s, g);
    }
  }

  /** Nobody but its ialloc comes to refer to an inode that ialloc has marked. */
  lemma MarkedAlone(s: State, e: Event, h: nat)
    requires Held(s) && Enabled(s, e) && NamedGet(s, e) && h in s.refs && s.refs[h].Allocated? && h != e.h
    requires Mover(e) in Step(s, e).refs && !Step(s, e).refs[Mover(e)].Allocated?
    requires var j := Step(s, e).refs[Mover(e)].i;
      j < |Step(s, e).table| && Step(s, e).table[j].ino == s.refs[h].ino
    ensures Late(Step(s, e).refs[Mover(e)])
  {
    assert RefOk(s, h);
    if e.h in s.refs {
      assert PairOk(s, h, e.h);
      if !s.refs[e.h].Allocated? {
        InoStays(s, e, e.h);
      }
    }
  }

  lemma PairStands(s: State, e: Event, h: nat, g: nat)
    requires Held(s) && Enabled(s, e) && h != g && h != Mover(e) && g != Mover(e)
    requires h in Step(s, e).refs && g in Step(s, e).refs
    ensures PairOk(Step(s, e), h, g)
  {
    OthersStand(s, e, h);
    OthersStand(s, e, g);
    assert PairOk(s, h, g);
    if !s.refs[g].Allocated? {
      InoStays(s, e, g);
    }
  }

  /** The second of the pair is the one that moves. */
  lemma PairToMover(s: State, e: Event, h: nat)
    requires Held(s) && Enabled(s, e) && NamedGet(s, e) && h != Mover(e)
    requires h in Step(s, e).refs && Mover(e) in Step(s, e).refs
    ensures PairOk(Step(s, e), h, Mover(e))
  {
    OthersStand(s, e, h);
    if h == e.h {
      assert e.Idup?;
    } else {
      if Early(s.refs[h]) {
        EarlyAlone(s, e, h);
      }
      if s.refs[h].Allocated? {
        assert RefOk(s, h);
        var st := Step(s, e).refs[Mover(e)];
        if !st.Allocated? && st.i < |Step(s, e).table| && Step(s, e).table[st.i].ino == s.refs[h].ino {
          MarkedAlone(s, e, h);
        }
        if e.h in s.refs {
          assert PairOk(s, h, e.h);
        }
      }
    }
  }

  /** The first of the pair is the one that moves. */
  lemma PairFromMover(s: State, e: Event, g: nat)
    requires Held(s) && Enabled(s, e) && NamedGet(s, e) && g != Mover(e)
    requires g in Step(s, e).refs && Mover(e) in Step(s, e).refs
    ensures PairOk(Step(s, e), Mover(e), g)
  {
    OthersStand(s, e, g);
    if e.Ialloc? {
      IallocAlone(s, e.ino, g);
    } else if e.Iput? && Frees(s, e.h) {
      FreesAlone(s, e.h, g);
    } else if e.h in s.refs && g != e.h {
      assert PairOk(s, e.h, g);
    }
    if !s.refs[g].Allocated? {
      InoStays(s, e, g);
    }
  }

  lemma StepHeld(s: State, e: Event)
    requires Held(s) && Enabled(s, e) && NamedGet(s, e)
    ensures Held(Step(s, e))
  {
    var s' := Step(s, e);
    StepKeepsInv(s, e);
    forall h | h in s'.refs ensures RefOk(s', h) {
      StepRef(s, e, h);
    }
    forall h, g | h in s'.refs && g in s'.refs && h != g ensures PairOk(s', h, g) {
      if g == Mover(e) {
        PairToMover(s, e, h);
      } else if h == Mover(e) {
        PairFromMover(s, e, g);
      } else {
        PairStands(s, e, h, g);
      }
    }
  }

  lemma {:induction false} RunHeld(s: State, es: seq<Event>)
    requires Held(s) && Runs(s, es) && NamedRuns(s, es)
    ensures Held(Final(s, es))
    decreases |es|
  {
    if es != [] {
      StepHeld(s, es[0]);
      RunHeld(Step(s, es[0]), es[1..]);
    }
  }

  /**
   In every run whose igets are of numbers found in directories: an inode that is referred to is not free on disk, from
   its iget until its last iput frees it, so that ilock always finds a type.
   */
  lemma IlockFindsType(s: State, es: seq<Event>, h: nat)
    requires Init(s) && Runs(s, es) && NamedRuns(s, es) && h in Final(s, es).refs
    ensures var t := Final(s, es); var st := t.refs[h];
      && (st.Open? || st.Loading? || st.Locked? ==>
            st.i < |t.table| && t.table[st.i].ino in t.disk && t.disk[t.table[st.i].ino].typ != 0)
      && (st.Loading? ==> Enabled(t, Load(h)))
  {
    InitInv(s);
    RunHeld(s, es);
    assert RefOk(Final(s, es), h);
  }
}
