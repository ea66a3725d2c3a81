/**
 The in-memory inode table (iget, ilock, iupdate, iput and ialloc of kernel/fs.c), in every
 interleaving of their steps.  A reference is followed from the iget, idup or ialloc that made it
 to the iput that drops it.
 */
module InodeTable {

  datatype Ino = Ino(dev: nat, inum: nat)

  /** What an inode holds on disk; a type of 0 is a free inode. */
  datatype Dinode = Dinode(typ: nat, nlink: nat, size: nat, addrs: seq<nat>)

  datatype Entry = Entry(ino: Ino, ref: nat, valid: bool, node: Dinode)

  // ----- iget's critical section -----

  predicate Names(e: Entry, ino: Ino) { e.ref > 0 && e.ino == ino }

  /** Entry i is the one in use for ino, or there is none and i is unused. */
  predicate CanGet(table: seq<Entry>, ino: Ino, i: nat) {
    i < |table| && (Names(table[i], ino) ||
                    (table[i].ref == 0 && forall j :: 0 <= j < |table| ==> !Names(table[j], ino)))
  }

  function Get(table: seq<Entry>, ino: Ino, i: nat): seq<Entry>
    requires CanGet(table, ino, i)
  {
    if Names(table[i], ino) then AddRef(table, i)
    else table[i := Entry(ino, 1, false, table[i].node)]
  }

  function AddRef(table: seq<Entry>, i: nat): seq<Entry>
    requires i < |table|
  {
    table[i := table[i].(ref := table[i].ref + 1)]
  }

  function DropRef(table: seq<Entry>, i: nat): seq<Entry>
    requires i < |table|
  {
    if table[i].ref == 0 then table else table[i := table[i].(ref := table[i].ref - 1)]
  }

  /** At most one entry in use for an inode. */
  ghost predicate OneEach(table: seq<Entry>) {
    forall i, j :: 0 <= i < |table| && 0 <= j < |table| && i != j && table[i].ref > 0 ==> !Names(table[j], table[i].ino)
  }

  class Table {
    var inode: seq<Entry>

    /** iget: the index of the entry, or the size of the table for the panic "no inodes". */
    method Iget(ino: Ino) returns (i: nat)
      requires OneEach(inode)
      modifies this
      ensures OneEach(inode)
      ensures i == |old(inode)| <==>
        forall j :: 0 <= j < |old(inode)| ==> !Names(old(inode)[j], ino) && old(inode)[j].ref > 0
      ensures i == |old(inode)| ==> inode == old(inode)
      ensures i != |old(inode)| ==> CanGet(old(inode), ino, i) && inode == Get(old(inode), ino, i)
    {
      var empty := |inode|;
      i := 0;
      while i < |inode|
        invariant 0 <= i <= |inode| && inode == old(inode)
        invariant forall j :: 0 <= j < i ==> !Names(inode[j], ino)
        invariant empty == |inode| || (0 <= empty < i && inode[empty].ref == 0)
        invariant empty == |inode| ==> forall j :: 0 <= j < i ==> inode[j].ref > 0
      {
        if inode[i].ref > 0 && inode[i].ino == ino {
          inode := inode[i := inode[i].(ref := inode[i].ref + 1)];
          return;
        }
        if empty == |inode| && inode[i].ref == 0 {
          empty := i;
        }
        i := i + 1;
      }
      i := empty;
      if i < |inode| {
        inode := inode[i := Entry(ino, 1, false, inode[i].node)];
      }
    }
  }

  // ----- References in flight -----

  /** Where the owner of a reference is. */
  datatype Stage =
    | Allocated(ino: Ino)     // ialloc has marked the inode on disk, before its iget
    | Open(i: nat)            // a reference, not locked
    | Loading(i: nat)         // ilock has the sleep lock
    | Locked(i: nat)          // ilock has returned
    | Truncating(i: nat)      // iput: itrunc
    | Clearing(i: nat)        // iput: ip->type = 0
    | Writing(i: nat)         // iput: iupdate
    | Voiding(i: nat)         // iput: ip->valid = 0
    | Releasing(i: nat)       // iput: releasesleep
    | Dropping(i: nat)        // iput: ip->ref--

  datatype State = State(
    table: seq<Entry>,
    disk: map<Ino, Dinode>,
    refs: map<nat, Stage>,
    /** Locked entries changed since the last iupdate. */
    dirty: set<nat>)

  datatype Event =
    | Iget(h: nat, ino: Ino, i: nat)
    | Idup(h: nat, h': nat)
    | Ialloc(h: nat, ino: Ino, typ: nat)
    | IallocGet(h: nat, i: nat)
    | Ilock(h: nat)
    | Load(h: nat)
    | Change(h: nat, node: Dinode)
    | Iupdate(h: nat)
    | Iunlock(h: nat)
    | Iput(h: nat)
    | IputStep(h: nat)

  /** In the part of iput that frees the inode, with the entry locked. */
  predicate Freeing(st: Stage) {
    st.Truncating? || st.Clearing? || st.Writing? || st.Voiding? || st.Releasing?
  }

  predicate HasLock(st: Stage) { st.Loading? || st.Locked? || Freeing(st) }

  ghost predicate Free(s: State, i: nat) {
    forall h :: h in s.refs && HasLock(s.refs[h]) ==> s.refs[h].i != i
  }

  predicate IsOpen(s: State, h: nat) { h in s.refs && s.refs[h].Open? && s.refs[h].i < |s.table| }

  predicate IsLocked(s: State, h: nat) { h in s.refs && s.refs[h].Locked? && s.refs[h].i < |s.table| }

  /** iput's test for the last reference to an inode without links. */
  predicate Frees(s: State, h: nat)
    requires IsOpen(s, h)
  {
    var e := s.table[s.refs[h].i];
    e.ref == 1 && e.valid && e.node.nlink == 0
  }

  /**
   Clients follow the rules of fs.c: fields are changed by the lock holder, never to type 0, and written back
   before the unlock.  ilock of an inode that is free on disk is a panic, and ends the run.
   */
  ghost predicate Enabled(s: State, e: Event) {
    match e
    case Iget(h, ino, i) => h !in s.refs && ino in s.disk && CanGet(s.table, ino, i)
    case Idup(h, h') => IsOpen(s, h) && h' !in s.refs
    case Ialloc(h, ino, typ) => h !in s.refs && ino in s.disk && s.disk[ino].typ == 0 && typ != 0
    case IallocGet(h, i) => h in s.refs && s.refs[h].Allocated? && CanGet(s.table, s.refs[h].ino, i)
    case Ilock(h) => IsOpen(s, h) && Free(s, s.refs[h].i)
    case Load(h) => h in s.refs && s.refs[h].Loading? && s.refs[h].i < |s.table| &&
      var e := s.table[s.refs[h].i]; e.valid || (e.ino in s.disk && s.disk[e.ino].typ != 0)
    case Change(h, node) => IsLocked(s, h) && node.typ != 0
    case Iupdate(h) => IsLocked(s, h)
    case Iunlock(h) => IsLocked(s, h) && s.refs[h].i !in s.dirty
    case Iput(h) => IsOpen(s, h) && (Frees(s, h) ==> Free(s, s.refs[h].i))
    case IputStep(h) => h in s.refs && (Freeing(s.refs[h]) || s.refs[h].Dropping?) && s.refs[h].i < |s.table|
  }

  function SetStage(s: State, h: nat, st: Stage): State { s.(refs := s.refs[h := st]) }

  function SetEntry(s: State, i: nat, e: Entry): State
    requires i < |s.table|
  {
    s.(table := s.table[i := e])
  }

  ghost function Step(s: State, e: Event): State
    requires Enabled(s, e)
  {
    match e
    case Iget(h, ino, i) => SetStage(s, h, Open(i)).(table := Get(s.table, ino, i))
    case Idup(h, h') => SetStage(s, h', Open(s.refs[h].i)).(table := AddRef(s.table, s.refs[h].i))
    case Ialloc(h, ino, typ) => SetStage(s, h, Allocated(ino)).(disk := s.disk[ino := Dinode(typ, 0, 0, [])])
    case IallocGet(h, i) => SetStage(s, h, Open(i)).(table := Get(s.table, s.refs[h].ino, i))
    case Ilock(h) => SetStage(s, h, Loading(s.refs[h].i))
    case Load(h) => var i := s.refs[h].i; var x := s.table[i];
      SetStage(if x.valid then s else SetEntry(s, i, x.(valid := true, node := s.disk[x.ino])), h, Locked(i))
    case Change(h, node) => var i := s.refs[h].i;
      SetEntry(s, i, s.table[i].(node := node)).(dirty := s.dirty + {i})
    case Iupdate(h) => var i := s.refs[h].i;
      s.(disk := s.disk[s.table[i].ino := s.table[i].node], dirty := s.dirty - {i})
    case Iunlock(h) => SetStage(s, h, Open(s.refs[h].i))
    case Iput(h) => var i := s.refs[h].i;
      if Frees(s, h) then SetStage(s, h, Truncating(i))
      else s.(table := DropRef(s.table, i), refs := s.refs - {h})
    case IputStep(h) => PutStep(s, h)
  }

  /** The steps of iput once it holds the last reference to an inode without links. */
  ghost function PutStep(s: State, h: nat): State
    requires h in s.refs && !s.refs[h].Allocated? && s.refs[h].i < |s.table|
  {
    var i := s.refs[h].i;
    var x := s.table[i];
    match s.refs[h]
    case Truncating(_) =>
      var node := x.node.(size := 0, addrs := []);
      SetStage(SetEntry(s, i, x.(node := node)), h, Clearing(i)).(disk := s.disk[x.ino := node])
    case Clearing(_) => SetStage(SetEntry(s, i, x.(node := x.node.(typ := 0))), h, Writing(i))
    case Writing(_) => SetStage(s, h, Voiding(i)).(disk := s.disk[x.ino := x.node])
    case Voiding(_) => SetStage(SetEntry(s, i, x.(valid := false)), h, Releasing(i))
    case Releasing(_) => SetStage(s, h, Dropping(i))
    case Dropping(_) => s.(table := DropRef(s.table, i), refs := s.refs - {h})
    case _ => s
  }

  // ----- The invariant -----

  ghost function On(refs: map<nat, Stage>, i: nat): set<nat> {
    set h | h in refs && IsOn(refs[h], i)
  }

  predicate IsOn(st: Stage, i: nat) { !st.Allocated? && st.i == i }

  ghost predicate Counted(s: State, i: nat)
    requires i < |s.table|
  {
    s.table[i].ref == |On(s.refs, i)|
  }

  predicate BothLock(a: Stage, b: Stage) { HasLock(a) && HasLock(b) && a.i == b.i }

  ghost predicate HandleOk(s: State, h: nat)
    requires h in s.refs
  {
    if s.refs[h].Allocated? then s.refs[h].ino in s.disk else s.refs[h].i < |s.table|
  }

  ghost predicate RefInv(s: State) {
    && (forall i :: 0 <= i < |s.table| ==> Counted(s, i))
    && (forall h :: h in s.refs ==> HandleOk(s, h))
    && (forall i :: 0 <= i < |s.table| && s.table[i].ref > 0 ==> s.table[i].ino in s.disk)
    && (forall h, h' :: h in s.refs && h' in s.refs && BothLock(s.refs[h], s.refs[h']) ==> h == h')
    && OneEach(s.table)
  }

  /** What the owner of a reference has done to its entry. */
  ghost predicate StageOk(s: State, h: nat)
    requires h in s.refs && !s.refs[h].Allocated? && s.refs[h].i < |s.table|
  {
    var e := s.table[s.refs[h].i];
    match s.refs[h]
    case Locked(_) => e.valid
    case Truncating(_) => e.valid && e.node.typ != 0
    case Clearing(_) => e.valid
    case Writing(_) => e.valid && e.node.typ == 0
    case Voiding(_) => e.valid
    case Releasing(_) => !e.valid
    case _ => true
  }

  /** Some lock holder is changing entry i, or freeing its inode. */
  ghost predicate InFlux(s: State, i: nat) {
    i in s.dirty || exists h :: h in s.refs && (s.refs[h].Writing? || s.refs[h].Voiding?) && s.refs[h].i == i
  }

  /** Its inode has been written free to disk, and may belong to someone else already. */
  ghost predicate Freed(s: State, i: nat) {
    exists h :: h in s.refs && s.refs[h].Voiding? && s.refs[h].i == i
  }

  ghost predicate EntryOk(s: State, i: nat)
    requires i < |s.table|
  {
    var e := s.table[i];
    e.ref > 0 && e.valid && e.ino in s.disk ==>
      && (!Freed(s, i) ==> s.disk[e.ino].typ != 0)
      && (!InFlux(s, i) ==> e.node == s.disk[e.ino])
  }

  ghost predicate DirtyOk(s: State, i: nat) {
    exists h :: h in s.refs && s.refs[h] == Locked(i)
  }

  ghost predicate DataInv(s: State) {
    && (forall h :: h in s.refs && !s.refs[h].Allocated? ==> s.refs[h].i < |s.table| && StageOk(s, h))
    && (forall i :: 0 <= i < |s.table| ==> EntryOk(s, i))
    && (forall i :: i in s.dirty ==> DirtyOk(s, i) && i < |s.table| && s.table[i].node.typ != 0)
  }

  ghost predicate Inv(s: State) { RefInv(s) && DataInv(s) }

  lemma OnAdd(refs: map<nat, Stage>, h: nat, st: Stage, i: nat)
    requires !st.Allocated? && (h in refs ==> refs[h].Allocated?)
    ensures |On(refs[h := st], i)| == |On(refs, i)| + if st.i == i then 1 else 0
  {
    var a, b := On(refs, i), On(refs[h := st], i);
    assert h !in a && forall x :: x != h ==> (x in a <==> x in b);
    if st.i == i {
      assert b == a + {h};
    } else {
      assert b == a;
    }
  }

  lemma OnDrop(refs: map<nat, Stage>, h: nat, i: nat)
    requires h in refs && !refs[h].Allocated?
    ensures |On(refs - {h}, i)| == |On(refs, i)| - if refs[h].i == i then 1 else 0
  {
    assert On(refs - {h}, i) == On(refs, i) - if refs[h].i == i then {h} else {};
  }

  lemma OnSame(refs: map<nat, Stage>, h: nat, st: Stage, i: nat)
    requires if h in refs && !refs[h].Allocated? then !st.Allocated? && st.i == refs[h].i else st.Allocated?
    ensures On(refs[h := st], i) == On(refs, i)
  {
  }

  /** The owner of a reference is counted, so what it refers to is in use. */
  lemma InUse(s: State, h: nat)
    requires RefInv(s) && h in s.refs && !s.refs[h].Allocated?
    ensures s.refs[h].i < |s.table| && s.table[s.refs[h].i].ref > 0
  {
    var i := s.refs[h].i;
    assert Counted(s, i) && h in On(s.refs, i);
  }

  /** The only reference to an entry is the one being put. */
  lemma Alone(s: State, h: nat, h': nat)
    requires RefInv(s) && IsOpen(s, h) && s.table[s.refs[h].i].ref == 1
    requires h' in s.refs && !s.refs[h'].Allocated? && s.refs[h'].i == s.refs[h].i
    ensures h' == h
  {
    var i := s.refs[h].i;
    assert Counted(s, i) && h in On(s.refs, i) && h' in On(s.refs, i);
    assert |On(s.refs, i) - {h}| == 0;
    assert h' !in On(s.refs, i) - {h};
  }

  lemma StepCounted(s: State, e: Event, i: nat)
    requires Inv(s) && Enabled(s, e) && i < |s.table|
    ensures Counted(Step(s, e), i)
  {
    assert Counted(s, i);
    match e
    case Iget(h, ino, j) => OnAdd(s.refs, h, Open(j), i);
    case Idup(h, h') => OnAdd(s.refs, h', Open(s.refs[h].i), i);
    case Ialloc(h, ino, typ) => OnSame(s.refs, h, Allocated(ino), i);
    case IallocGet(h, j) => OnAdd(s.refs, h, Open(j), i);
    case Ilock(h) => OnSame(s.refs, h, Loading(s.refs[h].i), i);
    case Load(h) => OnSame(s.refs, h, Locked(s.refs[h].i), i);
    case Change(h, node) =>
    case Iupdate(h) =>
    case Iunlock(h) => OnSame(s.refs, h, Open(s.refs[h].i), i);
    case Iput(h) =>
      InUse(s, h);
      if Frees(s, h) {
        OnSame(s.refs, h, Truncating(s.refs[h].i), i);
      } else {
        OnDrop(s.refs, h, i);
      }
    case IputStep(h) => PutCounted(s, h, i);
  }

  lemma PutCounted(s: State, h: nat, i: nat)
    requires Inv(s) && Enabled(s, IputStep(h)) && i < |s.table|
    ensures Counted(PutStep(s, h), i)
  {
    assert Counted(s, i);
    InUse(s, h);
    var j := s.refs[h].i;
    match s.refs[h]
    case Truncating(_) => OnSame(s.refs, h, Clearing(j), i);
    case Clearing(_) => OnSame(s.refs, h, Writing(j), i);
    case Writing(_) => OnSame(s.refs, h, Voiding(j), i);
    case Voiding(_) => OnSame(s.refs, h, Releasing(j), i);
    case Releasing(_) => OnSame(s.refs, h, Dropping(j), i);
    case Dropping(_) => OnDrop(s.refs, h, i);
  }

  lemma StepOneEach(s: State, e: Event)
    requires Inv(s) && Enabled(s, e)
    ensures OneEach(Step(s, e).table)
  {
    var t := Step(s, e).table;
    if e.Iget? || e.IallocGet? {
      assert forall j :: 0 <= j < |t| && j != e.i ==> t[j] == s.table[j];
    } else {
      assert forall j :: 0 <= j < |t| ==> t[j].ino == s.table[j].ino;
      assert e.Idup? ==> s.table[s.refs[e.h].i].ref > 0 by { if e.Idup? { InUse(s, e.h); } }
      assert forall j :: 0 <= j < |t| && t[j].ref > 0 ==> s.table[j].ref > 0;
    }
  }

  /** A reference that has a lock after a step had it before, or has just taken it while it was free. */
  lemma LockTaken(s: State, e: Event, h: nat)
    requires Inv(s) && Enabled(s, e) && h in Step(s, e).refs && HasLock(Step(s, e).refs[h])
    ensures var i := Step(s, e).refs[h].i;
      (h in s.refs && HasLock(s.refs[h]) && s.refs[h].i == i) || (h == e.h && Free(s, i))
  {
  }

  /** iput takes the sleep lock only where nobody else has it. */
  lemma StepLocks(s: State, e: Event, h: nat, h': nat)
    requires Inv(s) && Enabled(s, e) && h in Step(s, e).refs && h' in Step(s, e).refs
    requires BothLock(Step(s, e).refs[h], Step(s, e).refs[h'])
    ensures h == h'
  {
    LockTaken(s, e, h);
    LockTaken(s, e, h');
  }

  lemma StepHandle(s: State, e: Event, h: nat)
    requires Inv(s) && Enabled(s, e) && h in Step(s, e).refs
    ensures HandleOk(Step(s, e), h)
  {
    assert h in s.refs ==> HandleOk(s, h);
  }

  lemma StepIno(s: State, e: Event, i: nat)
    requires Inv(s) && Enabled(s, e) && i < |Step(s, e).table| && Step(s, e).table[i].ref > 0
    ensures Step(s, e).table[i].ino in Step(s, e).disk
  {
    if e.Idup? {
      InUse(s, e.h);
    }
    if e.IallocGet? {
      assert HandleOk(s, e.h);
    }
  }

  lemma StepRefs(s: State, e: Event)
    requires Inv(s) && Enabled(s, e)
    ensures RefInv(Step(s, e))
  {
    var s' := Step(s, e);
    forall i | 0 <= i < |s'.table| ensures Counted(s', i) {
      StepCounted(s, e, i);
    }
    StepOneEach(s, e);
    forall h, h' | h in s'.refs && h' in s'.refs && BothLock(s'.refs[h], s'.refs[h']) ensures h == h' {
      StepLocks(s, e, h, h');
    }
    forall h | h in s'.refs ensures HandleOk(s', h) {
      StepHandle(s, e, h);
    }
    forall i | 0 <= i < |s'.table| && s'.table[i].ref > 0 ensures s'.table[i].ino in s'.disk {
      StepIno(s, e, i);
    }
  }

  /** A recycled entry has no owner left. */
  lemma NotInUse(s: State, i: nat, h: nat)
    requires RefInv(s) && i < |s.table| && s.table[i].ref == 0 && h in s.refs
    ensures !IsOn(s.refs[h], i)
  {
    assert Counted(s, i) && On(s.refs, i) == {};
    assert h !in On(s.refs, i);
  }

  /** What one holder of a lock does, no other holder of it sees. */
  lemma OneHolder(s: State, h: nat, h': nat)
    requires RefInv(s) && h in s.refs && h' in s.refs && BothLock(s.refs[h], s.refs[h'])
    ensures h == h'
  {
  }

  /** The entry that the holder of ilock sees: not being freed, and allocated on disk. */
  lemma LockedEntry(s: State, h: nat)
    requires Inv(s) && IsLocked(s, h)
    ensures var i := s.refs[h].i; var x := s.table[i];
      !Freed(s, i) && x.ref > 0 && x.valid && x.ino in s.disk && s.disk[x.ino].typ != 0 && x.node.typ != 0 &&
      (i !in s.dirty ==> !InFlux(s, i))
  {
    var i := s.refs[h].i;
    InUse(s, h);
    assert StageOk(s, h) && EntryOk(s, i);
    forall h' | h' in s.refs && (s.refs[h'].Writing? || s.refs[h'].Voiding?) ensures s.refs[h'].i != i {
      if s.refs[h'].i == i {
        OneHolder(s, h, h');
      }
    }
  }

  /** The entry that iput is about to free: nobody is changing it, and it is allocated on disk. */
  lemma LastEntry(s: State, h: nat)
    requires Inv(s) && IsOpen(s, h) && Frees(s, h)
    ensures var i := s.refs[h].i; var x := s.table[i];
      !InFlux(s, i) && x.ino in s.disk && x.node == s.disk[x.ino] && x.node.typ != 0 && Free(s, i)
  {
    var i := s.refs[h].i;
    assert EntryOk(s, i);
    forall h' | h' in s.refs && IsOn(s.refs[h'], i) ensures s.refs[h'].Open? {
      Alone(s, h, h');
    }
    assert i in s.dirty ==> DirtyOk(s, i);
  }

  lemma FreeingEntry(s: State, h: nat)
    requires Inv(s) && h in s.refs && (s.refs[h].Truncating? || s.refs[h].Clearing? || s.refs[h].Writing?)
    ensures var i := s.refs[h].i; i < |s.table| && var x := s.table[i];
      x.ref > 0 && x.valid && x.ino in s.disk && s.disk[x.ino].typ != 0 && !Freed(s, i) && i !in s.dirty
  {
    var i := s.refs[h].i;
    InUse(s, h);
    assert StageOk(s, h) && EntryOk(s, i);
    forall h' | h' in s.refs && (s.refs[h'].Voiding? || s.refs[h'].Locked?) ensures s.refs[h'].i != i {
      if s.refs[h'].i == i {
        OneHolder(s, h, h');
      }
    }
    assert i in s.dirty ==> DirtyOk(s, i);
  }

  /** The stage of a reference other than the one that takes the step. */
  lemma StageOfOther(s: State, e: Event, h: nat)
    requires Inv(s) && Enabled(s, e) && h in s.refs && h != e.h && !s.refs[h].Allocated?
    ensures h in Step(s, e).refs && Step(s, e).refs[h] == s.refs[h] && s.refs[h].i < |Step(s, e).table|
    ensures StageOk(Step(s, e), h)
  {
    assert HandleOk(s, h) && StageOk(s, h);
    if e.h in s.refs && BothLock(s.refs[h], s.refs[e.h]) {
      OneHolder(s, h, e.h);
    }
    if (e.Iget? || e.IallocGet?) && s.table[e.i].ref == 0 {
      NotInUse(s, e.i, h);
    }
  }

  lemma StepStage(s: State, e: Event, h: nat)
    requires Inv(s) && Enabled(s, e) && h in Step(s, e).refs && !Step(s, e).refs[h].Allocated?
    requires Step(s, e).refs[h].i < |Step(s, e).table|
    ensures StageOk(Step(s, e), h)
  {
    if h in s.refs && !s.refs[h].Allocated? {
      if h != e.h {
        StageOfOther(s, e, h);
      } else {
        assert StageOk(s, h);
        if e.Iput? && Frees(s, e.h) {
          LastEntry(s, e.h);
        }
      }
    }
  }

  /** The entry that a step is about; the size of the table for none. */
  ghost function Acted(s: State, e: Event): nat
    requires Enabled(s, e)
  {
    match e
    case Iget(_, _, i) => i
    case IallocGet(_, i) => i
    case Ialloc(_, _, _) => |s.table|
    case _ => s.refs[e.h].i
  }

  /** Other references stay where they are. */
  lemma OthersStay(s: State, e: Event, h: nat)
    requires Enabled(s, e) && h in s.refs && h != e.h
    ensures h in Step(s, e).refs && Step(s, e).refs[h] == s.refs[h]
  {
  }

  lemma FluxStays(s: State, e: Event, i: nat)
    requires Inv(s) && Enabled(s, e) && i != Acted(s, e) && i < |s.table|
    ensures Freed(s, i) ==> Freed(Step(s, e), i)
    ensures InFlux(s, i) ==> InFlux(Step(s, e), i)
  {
    var s' := Step(s, e);
    if h :| h in s.refs && s.refs[h].Voiding? && s.refs[h].i == i {
      OthersStay(s, e, h);
    }
    if h :| h in s.refs && (s.refs[h].Writing? || s.refs[h].Voiding?) && s.refs[h].i == i {
      OthersStay(s, e, h);
    }
  }

  /** Entries that a step is not about: their inode on disk changes only if ialloc takes a freed one. */
  lemma OtherEntry(s: State, e: Event, i: nat)
    requires Inv(s) && Enabled(s, e) && i != Acted(s, e) && i < |s.table|
    ensures i < |Step(s, e).table| && EntryOk(Step(s, e), i)
  {
    var s' := Step(s, e);
    assert EntryOk(s, i) && s'.table[i] == s.table[i];
    FluxStays(s, e, i);
    if (e.Iupdate? || e.IputStep?) && s.table[i].ref > 0 {
      InUse(s, e.h);
      assert !Names(s.table[Acted(s, e)], s.table[i].ino);
    }
  }

  lemma PutEntry(s: State, h: nat)
    requires Inv(s) && Enabled(s, IputStep(h))
    ensures EntryOk(PutStep(s, h), s.refs[h].i)
  {
    var i, s' := s.refs[h].i, PutStep(s, h);
    assert EntryOk(s, i) && StageOk(s, h);
    if s.refs[h].Truncating? || s.refs[h].Clearing? || s.refs[h].Writing? {
      FreeingEntry(s, h);
    }
    if s.refs[h].Dropping? {
      DropEntry(s, IputStep(h));
    }
    assert s.refs[h].Clearing? ==> h in s'.refs && s'.refs[h] == Writing(i);
    assert s.refs[h].Writing? ==> h in s'.refs && s'.refs[h] == Voiding(i);
  }

  /** A reference that is dropped leaves the others' view of the entry alone. */
  lemma DropEntry(s: State, e: Event)
    requires Inv(s) && Enabled(s, e)
    requires (e.Iput? && !Frees(s, e.h)) || (e.IputStep? && s.refs[e.h].Dropping?)
    ensures EntryOk(Step(s, e), s.refs[e.h].i)
  {
    var i, s' := s.refs[e.h].i, Step(s, e);
    assert EntryOk(s, i);
    if h :| h in s.refs && s.refs[h].Voiding? && s.refs[h].i == i {
      OthersStay(s, e, h);
    }
    if h :| h in s.refs && (s.refs[h].Writing? || s.refs[h].Voiding?) && s.refs[h].i == i {
      OthersStay(s, e, h);
    }
  }

  /** Steps of a reference that is neither writing nor voiding leave those that are. */
  lemma FluxOfOthers(s: State, e: Event, i: nat)
    requires Inv(s) && Enabled(s, e) && !e.IputStep? && i < |s.table|
    ensures Freed(s, i) ==> Freed(Step(s, e), i)
    ensures InFlux(s, i) && i !in s.dirty ==> InFlux(Step(s, e), i)
  {
    if h :| h in s.refs && s.refs[h].Voiding? && s.refs[h].i == i {
      OthersStay(s, e, h);
    }
    if h :| h in s.refs && (s.refs[h].Writing? || s.refs[h].Voiding?) && s.refs[h].i == i {
      OthersStay(s, e, h);
    }
  }

  lemma ActedEntry(s: State, e: Event)
    requires Inv(s) && Enabled(s, e) && !e.Ialloc? && !e.IputStep?
    ensures Acted(s, e) < |s.table| == |Step(s, e).table| && EntryOk(Step(s, e), Acted(s, e))
  {
    var i, s' := Acted(s, e), Step(s, e);
    assert EntryOk(s, i);
    FluxOfOthers(s, e, i);
    if e.Change? || e.Iupdate? || e.Iunlock? {
      LockedEntry(s, e.h);
    } else if e.Iput? && !Frees(s, e.h) {
      DropEntry(s, e);
    } else if e.Idup? || e.Ilock? || e.Load? || e.Iput? {
      InUse(s, e.h);
    }
  }

  lemma StepEntry(s: State, e: Event, i: nat)
    requires Inv(s) && Enabled(s, e) && i < |s.table|
    ensures i < |Step(s, e).table| && EntryOk(Step(s, e), i)
  {
    if i != Acted(s, e) {
      OtherEntry(s, e, i);
    } else if e.IputStep? {
      PutEntry(s, e.h);
    } else {
      ActedEntry(s, e);
    }
  }

  lemma StepDirty(s: State, e: Event, i: nat)
    requires Inv(s) && Enabled(s, e) && i in Step(s, e).dirty
    ensures DirtyOk(Step(s, e), i) && i < |Step(s, e).table| && Step(s, e).table[i].node.typ != 0
  {
    var s' := Step(s, e);
    if i in s.dirty {
      var h :| h in s.refs && s.refs[h] == Locked(i);
      if h == e.h {
        assert s'.refs[h] == Locked(i);
      } else {
        OthersStay(s, e, h);
        if e.h in s.refs && HasLock(s.refs[e.h]) && s.refs[e.h].i == i {
          OneHolder(s, h, e.h);
        }
      }
    } else {
      assert s'.refs[e.h] == Locked(i);
    }
  }

  lemma StepKeepsInv(s: State, e: Event)
    requires Inv(s) && Enabled(s, e)
    ensures Inv(Step(s, e))
  {
    var s' := Step(s, e);
    StepRefs(s, e);
    forall h | h in s'.refs && !s'.refs[h].Allocated? ensures s'.refs[h].i < |s'.table| && StageOk(s', h) {
      assert HandleOk(s', h);
      StepStage(s, e, h);
    }
    forall i | 0 <= i < |s'.table| ensures EntryOk(s', i) {
      StepEntry(s, e, i);
    }
    forall i | i in s'.dirty ensures DirtyOk(s', i) && i < |s'.table| && s'.table[i].node.typ != 0 {
      StepDirty(s, e, i);
    }
  }

  ghost predicate Runs(s: State, es: seq<Event>)
    decreases |es|
  {
    es == [] || (Enabled(s, es[0]) && Runs(Step(s, es[0]), es[1..]))
  }

  ghost function Final(s: State, es: seq<Event>): State
    requires Runs(s, es)
    decreases |es|
  {
    if es == [] then s else Final(Step(s, es[0]), es[1..])
  }

  ghost predicate Init(s: State) {
    (forall i :: 0 <= i < |s.table| ==> s.table[i].ref == 0) && s.refs == map[] && s.dirty == {}
  }

  lemma {:induction false} RunKeepsInv(s: State, es: seq<Event>)
    requires Inv(s) && Runs(s, es)
    ensures Inv(Final(s, es))
    decreases |es|
  {
    if es != [] {
      StepKeepsInv(s, es[0]);
      RunKeepsInv(Step(s, es[0]), es[1..]);
    }
  }

  lemma InitInv(s: State)
    requires Init(s)
    ensures Inv(s)
  {
    forall i | 0 <= i < |s.table| ensures Counted(s, i) {
      assert On(s.refs, i) == {};
    }
  }

  /**
   In every run: at most one entry is in use for an inode, and an entry in use, valid and not locked equals the
   inode on disk, which is not free, even while ialloc reuses a number that iput is still giving up.
   */
  lemma TableAgreesWithDisk(s: State, es: seq<Event>, i: nat)
    requires Init(s) && Runs(s, es) && i < |Final(s, es).table|
    ensures var t := Final(s, es); var x := t.table[i];
      && OneEach(t.table) && x.ref == |On(t.refs, i)|
      && (x.ref > 0 && x.valid && Free(t, i) ==> x.ino in t.disk && x.node == t.disk[x.ino] && x.node.typ != 0)
  {
    InitInv(s);
    RunKeepsInv(s, es);
    var t := Final(s, es);
    assert Counted(t, i) && EntryOk(t, i);
    assert i in t.dirty ==> DirtyOk(t, i);
  }

  /** The sleep lock that iput takes under the spinlock is free, and the inode it frees has no links on disk. */
  lemma IputNeverBlocks(s: State, es: seq<Event>, h: nat)
    requires Init(s) && Runs(s, es) && IsOpen(Final(s, es), h) && Frees(Final(s, es), h)
    ensures var t := Final(s, es); var x := t.table[t.refs[h].i];
      Free(t, t.refs[h].i) && x.ino in t.disk && t.disk[x.ino].nlink == 0 && t.disk[x.ino].typ != 0
  {
    InitInv(s);
    RunKeepsInv(s, es);
    LastEntry(Final(s, es), h);
  }
}
