/**
 Link counts in every run of create, sys_link and sys_unlink (kernel/sysfile.c), those that enter names in
 removed directories included: a count may then be too high, but is never lower than the entries that are left, so
 that none is ever decremented below zero and no call panics.
 */
module LinkFloors {
  import opened Directory
  import opened Links

  // ----- Entries, in directories with links or without -----

  /** The entry at a place, past "." and "..", names x. */
  predicate At(s: State, p: Place, x: nat) {
    IsDir(s, p.d) && 2 <= p.off < |s.nodes[p.d].entries| && s.nodes[p.d].entries[p.off].inum == x && x != 0
  }

  ghost function Raw(s: State, x: nat): set<Place> {
    set d, off | d in s.nodes && 0 <= off < |s.nodes[d].entries| && At(s, Place(d, off), x) :: Place(d, off)
  }

  /** The entry of d at off names a directory. */
  predicate Sub(s: State, d: nat, off: nat) {
    IsDir(s, d) && 2 <= off < |s.nodes[d].entries| && s.nodes[d].entries[off].inum != 0 &&
    IsDir(s, s.nodes[d].entries[off].inum)
  }

  ghost function Subs(s: State, d: nat): set<nat> {
    set off | d in s.nodes && 0 <= off < |s.nodes[d].entries| && Sub(s, d, off)
  }

  lemma RawIff(s: State, x: nat, p: Place)
    ensures p in Raw(s, x) <==> At(s, p, x)
  {
    if At(s, p, x) {
      assert p.d in s.nodes && 0 <= p.off < |s.nodes[p.d].entries| && p == Place(p.d, p.off);
    }
  }

  lemma RawChange(s: State, s': State, x: nat, p: Place)
    requires forall q :: q != p ==> (At(s', q, x) <==> At(s, q, x))
    ensures Raw(s', x) == if At(s', p, x) then Raw(s, x) + {p} else Raw(s, x) - {p}
    ensures p in Raw(s, x) <==> At(s, p, x)
  {
    forall q ensures q in Raw(s', x) <==> q in (if At(s', p, x) then Raw(s, x) + {p} else Raw(s, x) - {p}) {
      RawIff(s, x, q);
      RawIff(s', x, q);
    }
    RawIff(s, x, p);
  }

  lemma RawLess(s: State, s': State, x: nat)
    requires forall q :: At(s', q, x) ==> At(s, q, x)
    ensures |Raw(s', x)| <= |Raw(s, x)|
  {
    forall q | q in Raw(s', x) ensures q in Raw(s, x) {
      RawIff(s, x, q);
      RawIff(s', x, q);
    }
    SetsOrder(Raw(s', x), Raw(s, x));
  }

  lemma SubsChange(s: State, s': State, d: nat, off: nat)
    requires forall i :: i != off ==> (Sub(s', d, i) <==> Sub(s, d, i))
    ensures Subs(s', d) == if Sub(s', d, off) then Subs(s, d) + {off} else Subs(s, d) - {off}
    ensures off in Subs(s, d) <==> Sub(s, d, off)
  {
  }

  lemma SubsLess(s: State, s': State, d: nat)
    requires forall i :: Sub(s', d, i) ==> Sub(s, d, i)
    ensures |Subs(s', d)| <= |Subs(s, d)|
  {
    assert Subs(s', d) <= Subs(s, d);
    assert Subs(s, d) == Subs(s', d) + (Subs(s, d) - Subs(s', d));
  }

  // ----- The invariant -----

  /** What the count of x must cover: entries, sys_link calls under way, and the ".." of subdirectories. */
  ghost function Needs(s: State, x: nat): nat { |Raw(s, x)| + |Pending(s, x)| + |Subs(s, x)| }

  predicate Shape(s: State, d: nat)
    requires d in s.nodes
  {
    var n := s.nodes[d];
    && d != 0 && (n.kind != Dir ==> n.entries == []) && (n.kind == FreeNode ==> n.nlink == 0)
    && (|n.entries| >= 1 ==> n.entries[0] == Dirent(d, "."))
    && (|n.entries| >= 2 ==> n.entries[1].name == ".." && n.entries[1].inum != 0)
  }

  ghost predicate Covered(s: State, x: nat) {
    x in s.nodes ==> Shape(s, x) && Unique(s.nodes[x].entries) && s.nodes[x].nlink >= Needs(s, x)
  }

  ghost predicate Floors(s: State) { LinksOk(s) && forall x :: Covered(s, x) }

  /** Nothing names an inode without links. */
  lemma Unnamed(s: State, x: nat)
    requires Floors(s) && x in s.nodes && s.nodes[x].nlink == 0
    ensures Raw(s, x) == {} && Pending(s, x) == {} && forall p :: !At(s, p, x)
  {
    assert Covered(s, x);
    assert Raw(s, x) == {};
    forall p ensures !At(s, p, x) {
      RawIff(s, x, p);
    }
  }

  // ----- Steps on one inode's count -----

  /** Only x changes, in its count or, without links before and after, altogether; no entry past ".." appears. */
  ghost predicate Alone(s: State, s': State, x: nat) {
    && x in s.nodes && x in s'.nodes && s'.nodes == s.nodes[x := s'.nodes[x]] && LinksOk(s')
    && (forall y :: y != x ==> Pending(s', y) == Pending(s, y))
    && Shape(s', x) && Unique(s'.nodes[x].entries)
    && ((s'.nodes[x].kind == s.nodes[x].kind && s'.nodes[x].entries == s.nodes[x].entries)
        || (s.nodes[x].nlink == 0 && |s'.nodes[x].entries| <= 2))
  }

  lemma AloneSubs(s: State, s': State, x: nat, d: nat, i: nat)
    requires Floors(s) && Alone(s, s', x) && Sub(s', d, i)
    ensures Sub(s, d, i)
  {
    if s.nodes[x].nlink == 0 {
      Unnamed(s, x);
      assert d != x ==> !At(s, Place(d, i), x);
    }
  }

  lemma AloneNeeds(s: State, s': State, x: nat, y: nat)
    requires Floors(s) && Alone(s, s', x)
    ensures |Raw(s', y)| <= |Raw(s, y)| && |Subs(s', y)| <= |Subs(s, y)|
  {
    forall q | At(s', q, y) ensures At(s, q, y) {
    }
    RawLess(s, s', y);
    forall i | Sub(s', y, i) ensures Sub(s, y, i) {
      AloneSubs(s, s', x, y, i);
    }
    SubsLess(s, s', y);
  }

  lemma AloneKeeps(s: State, s': State, x: nat)
    requires Floors(s) && Alone(s, s', x)
    requires s'.nodes[x].nlink + |Pending(s, x)| >= s.nodes[x].nlink + |Pending(s', x)|
    ensures Floors(s')
  {
    forall y ensures Covered(s', y) {
      assert Covered(s, y);
      AloneNeeds(s, s', x, y);
    }
  }

  lemma BeginKeeps(s: State, h: nat, x: nat)
    requires Floors(s) && Enabled(s, LinkBegin(h, x))
    ensures Floors(Step(s, LinkBegin(h, x)))
  {
    var s' := Step(s, LinkBegin(h, x));
    assert Covered(s, x);
    assert Pending(s', x) == Pending(s, x) + {h};
    forall y | y != x ensures Pending(s', y) == Pending(s, y) {
    }
    AloneKeeps(s, s', x);
  }

  lemma UndoKeeps(s: State, h: nat)
    requires Floors(s) && Enabled(s, LinkUndo(h))
    ensures s.nodes[s.links[h]].nlink >= 1 && Floors(Step(s, LinkUndo(h)))
  {
    var s', x := Step(s, LinkUndo(h)), s.links[h];
    assert Covered(s, x) && h in Pending(s, x);
    assert Pending(s', x) == Pending(s, x) - {h};
    forall y | y != x ensures Pending(s', y) == Pending(s, y) {
    }
    AloneKeeps(s, s', x);
  }

  lemma FailKeeps(s: State, d: nat, x: nat, kind: Kind, n: nat)
    requires Floors(s) && Enabled(s, CreateFails(d, x, kind, n))
    ensures Floors(Step(s, CreateFails(d, x, kind, n)))
  {
    var s' := Step(s, CreateFails(d, x, kind, n));
    assert Covered(s, x) && Covered(s, d);
    Unnamed(s, x);
    assert forall y :: Pending(s', y) == Pending(s, y);
    AloneKeeps(s, s', x);
  }

  lemma ReclaimKeeps(s: State, x: nat)
    requires Floors(s) && Enabled(s, Reclaim(x))
    ensures Floors(Step(s, Reclaim(x)))
  {
    var s' := Step(s, Reclaim(x));
    assert Covered(s, x);
    Unnamed(s, x);
    forall h | h in s.links ensures s.links[h] != x {
      assert h !in Pending(s, x);
    }
    assert forall y :: Pending(s', y) == Pending(s, y);
    AloneKeeps(s, s', x);
  }

  // ----- Steps on one entry -----

  /** The entry at (d, off) is replaced, and nothing else changes but who waits for an entry. */
  ghost predicate OneEntry(s: State, s': State, d: nat, off: nat) {
    && IsDir(s, d) && 2 <= off && d in s'.nodes
    && s'.nodes == s.nodes[d := s.nodes[d].(entries := s'.nodes[d].entries)] && LinksOk(s')
    && var es, es' := s.nodes[d].entries, s'.nodes[d].entries;
    && off <= |es| <= |es'| <= (if off == |es| then |es| + 1 else |es|) && off < |es'|
    && (forall i :: 0 <= i < |es| && i != off ==> es'[i] == es[i]) && Unique(es')
  }

  lemma OneAt(s: State, s': State, d: nat, off: nat, q: Place, y: nat)
    requires OneEntry(s, s', d, off) && q != Place(d, off)
    ensures At(s', q, y) <==> At(s, q, y)
  {
  }

  lemma OneRaw(s: State, s': State, d: nat, off: nat, y: nat)
    requires OneEntry(s, s', d, off)
    ensures var p := Place(d, off);
      |Raw(s', y)| == |Raw(s, y)| - (if At(s, p, y) then 1 else 0) + (if At(s', p, y) then 1 else 0)
  {
    var p := Place(d, off);
    forall q | q != p ensures At(s', q, y) <==> At(s, q, y) {
      OneAt(s, s', d, off, q, y);
    }
    RawChange(s, s', y, p);
  }

  lemma OneSubs(s: State, s': State, d: nat, off: nat, y: nat)
    requires OneEntry(s, s', d, off)
    ensures |Subs(s', y)| == |Subs(s, y)|
      - (if y == d && Sub(s, d, off) then 1 else 0) + (if y == d && Sub(s', d, off) then 1 else 0)
  {
    if y == d {
      SubsChange(s, s', d, off);
    } else {
      assert Subs(s', y) == Subs(s, y);
    }
  }

  lemma OneShape(s: State, s': State, d: nat, off: nat, y: nat)
    requires Floors(s) && OneEntry(s, s', d, off) && y in s.nodes
    ensures Shape(s', y) && Unique(s'.nodes[y].entries)
  {
    assert Covered(s, y);
  }

  /** A new name is not "." or "..", and goes past them. */
  lemma PastDots(s: State, d: nat, name: string, off: nat)
    requires Floors(s) && CanEnter(s, d, name, off)
    ensures off >= 2 && Trunc(name) != "." && Trunc(name) != ".."
  {
    assert Covered(s, d);
    assert !Matches(s.nodes[d].entries[0], name) && !Matches(s.nodes[d].entries[1], name);
  }

  lemma EntryKeeps(s: State, h: nat, d: nat, name: string, off: nat)
    requires Floors(s) && Enabled(s, LinkEntry(h, d, name, off))
    ensures Floors(Step(s, LinkEntry(h, d, name, off)))
  {
    var s', x := Step(s, LinkEntry(h, d, name, off)), s.links[h];
    PastDots(s, d, name, off);
    assert Covered(s, d) && Covered(s, x);
    PutUnique(s.nodes[d].entries, off, name, x);
    forall y ensures Covered(s', y) {
      assert Covered(s, y);
      if y in s'.nodes {
        OneShape(s, s', d, off, y);
        OneRaw(s, s', d, off, y);
        OneSubs(s, s', d, off, y);
        assert Pending(s', y) == Pending(s, y) - {h};
        assert h in Pending(s, y) <==> y == x;
      }
    }
  }

  lemma CreateKeeps(s: State, d: nat, name: string, off: nat, x: nat)
    requires Floors(s) && Enabled(s, Create(d, name, off, x))
    ensures Floors(Step(s, Create(d, name, off, x)))
  {
    var h := FreshLink(s);
    FailKeeps(s, d, x, File, 0);
    var s1 := Step(s, CreateFails(d, x, File, 0));
    BeginKeeps(s1, h, x);
    var s2 := Step(s1, LinkBegin(h, x));
    assert s2.nodes[d] == s.nodes[d];
    EntryKeeps(s2, h, d, name, off);
    var s3 := Step(s2, LinkEntry(h, d, name, off));
    assert s3.links == s.links && x != d;
    assert s3.nodes == Step(s, Create(d, name, off, x)).nodes;
  }

  /** What an entry names has a link, and its directory has one for a subdirectory besides. */
  lemma NamedHasLink(s: State, d: nat, off: nat)
    requires Floors(s) && Enabled(s, Unlink(d, off))
    ensures off >= 2 && var x := s.nodes[d].entries[off].inum;
      && s.nodes[x].nlink >= 1 && s.nodes[x].kind != FreeNode
      && (s.nodes[x].kind == Dir ==> s.nodes[d].nlink >= if x == d then 2 else 1)
  {
    var x := s.nodes[d].entries[off].inum;
    assert Covered(s, d) && Covered(s, x);
    RawIff(s, x, Place(d, off));
    assert s.nodes[x].kind == Dir ==> off in Subs(s, d);
  }

  lemma TakeOutKeeps(s: State, d: nat, off: nat, h: nat)
    requires Floors(s) && Enabled(s, Unlink(d, off)) && h !in s.links
    requires s.nodes[s.nodes[d].entries[off].inum].kind == File
    ensures Floors(TakenOut(s, d, off, h))
  {
    var s', x := TakenOut(s, d, off, h), s.nodes[d].entries[off].inum;
    NamedHasLink(s, d, off);
    assert Covered(s, d) && Covered(s, x);
    RemoveUnique(s.nodes[d].entries, off);
    forall y ensures Covered(s', y) {
      assert Covered(s, y);
      if y in s'.nodes {
        OneShape(s, s', d, off, y);
        OneRaw(s, s', d, off, y);
        OneSubs(s, s', d, off, y);
        TakenOutPending(s, d, off, h, y);
      }
    }
  }

  lemma UnlinkFileKeeps(s: State, d: nat, off: nat)
    requires Floors(s) && Enabled(s, Unlink(d, off)) && s.nodes[s.nodes[d].entries[off].inum].kind == File
    ensures Floors(Step(s, Unlink(d, off)))
  {
    var x := s.nodes[d].entries[off].inum;
    var h := FreshLink(s);
    TakeOutKeeps(s, d, off, h);
    var s1 := TakenOut(s, d, off, h);
    UndoKeeps(s1, h);
    assert s1.links - {h} == s.links && x != d;
    assert Step(s1, LinkUndo(h)) == Step(s, Unlink(d, off));
  }

  // ----- Directories -----

  /** The entry of a directory is taken out, before the counts go down. */
  ghost function DirOut(s: State, d: nat, off: nat): State
    requires d in s.nodes && off < |s.nodes[d].entries|
  {
    SetNode(s, d, s.nodes[d].(entries := s.nodes[d].entries[off := Dirent(0, "")]))
  }

  /** Only counts differ. */
  ghost predicate CountsOnly(s: State, s': State) {
    && s'.nodes.Keys == s.nodes.Keys && s'.links == s.links
    && forall y :: y in s.nodes ==> s'.nodes[y] == s.nodes[y].(nlink := s'.nodes[y].nlink)
  }

  lemma Recounted(s: State, s': State, y: nat)
    requires CountsOnly(s, s')
    ensures |Raw(s', y)| == |Raw(s, y)| && |Subs(s', y)| == |Subs(s, y)|
  {
    assert forall q :: At(s', q, y) <==> At(s, q, y);
    RawLess(s, s', y);
    RawLess(s', s, y);
    assert forall i :: Sub(s', y, i) <==> Sub(s, y, i);
    SubsLess(s, s', y);
    SubsLess(s', s, y);
  }

  /** One entry is replaced and then counts change: what each count must cover. */
  lemma EntryNeeds(s: State, s1: State, s': State, d: nat, off: nat, y: nat)
    requires OneEntry(s, s1, d, off) && s1.links == s.links && CountsOnly(s1, s')
    ensures var p := Place(d, off);
      Needs(s', y) == Needs(s, y)
        - (if At(s, p, y) then 1 else 0) + (if At(s1, p, y) then 1 else 0)
        - (if y == d && Sub(s, d, off) then 1 else 0) + (if y == d && Sub(s1, d, off) then 1 else 0)
  {
    OneRaw(s, s1, d, off, y);
    OneSubs(s, s1, d, off, y);
    Recounted(s1, s', y);
    assert Pending(s', y) == Pending(s, y);
  }

  lemma EntryShape(s: State, s1: State, s': State, d: nat, off: nat, y: nat)
    requires Floors(s) && OneEntry(s, s1, d, off) && CountsOnly(s1, s') && y in s.nodes
    requires s.nodes[y].kind == Dir || s'.nodes[y].nlink == s.nodes[y].nlink
    ensures Shape(s', y) && Unique(s'.nodes[y].entries)
  {
    OneShape(s, s1, d, off, y);
  }

  lemma DirOutIs(s: State, d: nat, off: nat)
    requires Floors(s) && Enabled(s, Unlink(d, off)) && s.nodes[s.nodes[d].entries[off].inum].kind == Dir
    ensures var s1, s', x := DirOut(s, d, off), Step(s, Unlink(d, off)), s.nodes[d].entries[off].inum;
      && OneEntry(s, s1, d, off) && CountsOnly(s1, s') && s1.links == s.links && s'.nodes.Keys == s.nodes.Keys
      && forall y :: y in s.nodes ==>
           s'.nodes[y].nlink == s.nodes[y].nlink - (if y == x then 1 else 0) - (if y == d then 1 else 0)
  {
    NamedHasLink(s, d, off);
    assert Covered(s, d);
    RemoveUnique(s.nodes[d].entries, off);
  }

  lemma UnlinkDirKeeps(s: State, d: nat, off: nat)
    requires Floors(s) && Enabled(s, Unlink(d, off)) && s.nodes[s.nodes[d].entries[off].inum].kind == Dir
    ensures Floors(Step(s, Unlink(d, off)))
  {
    var s1, s' := DirOut(s, d, off), Step(s, Unlink(d, off));
    DirOutIs(s, d, off);
    NamedHasLink(s, d, off);
    forall y ensures Covered(s', y) {
      assert Covered(s, y);
      if y in s'.nodes {
        EntryShape(s, s1, s', d, off, y);
        EntryNeeds(s, s1, s', d, off, y);
      }
    }
  }

  /** mkdir: a new directory x with its dots and no links, then its entry in d, then a link for each of the two. */
  lemma MkdirIs(s: State, d: nat, name: string, off: nat, x: nat)
    requires Floors(s) && Enabled(s, Mkdir(d, name, off, x))
    ensures Enabled(s, CreateFails(d, x, Dir, 2)) && d in Step(s, CreateFails(d, x, Dir, 2)).nodes
    ensures var s1, s' := Step(s, CreateFails(d, x, Dir, 2)), Step(s, Mkdir(d, name, off, x));
      && s1.nodes[d] == s.nodes[d] && var s2 := Enter(s1, d, off, name, x);
      && d != x && OneEntry(s1, s2, d, off) && CountsOnly(s2, s') && s2.links == s1.links
      && s1.nodes[x] == Node(Dir, 0, Dots(x, d)) && s'.nodes.Keys == s1.nodes.Keys
      && forall y :: y in s1.nodes ==> s'.nodes[y].nlink == s1.nodes[y].nlink + if y == x || y == d then 1 else 0
  {
    assert Dots(x, d)[..2] == Dots(x, d);
    PastDots(s, d, name, off);
    assert Covered(s, d) && Covered(s, x);
    PutUnique(s.nodes[d].entries, off, name, x);
  }

  lemma MkdirKeeps(s: State, d: nat, name: string, off: nat, x: nat)
    requires Floors(s) && Enabled(s, Mkdir(d, name, off, x))
    ensures Floors(Step(s, Mkdir(d, name, off, x)))
  {
    MkdirIs(s, d, name, off, x);
    FailKeeps(s, d, x, Dir, 2);
    var s1, s' := Step(s, CreateFails(d, x, Dir, 2)), Step(s, Mkdir(d, name, off, x));
    var s2 := Enter(s1, d, off, name, x);
    forall y ensures Covered(s', y) {
      assert Covered(s1, y);
      if y in s'.nodes {
        EntryShape(s1, s2, s', d, off, y);
        EntryNeeds(s1, s2, s', d, off, y);
      }
    }
  }

  // ----- Every run -----

  lemma StepKeeps(s: State, e: Event)
    requires Floors(s) && Enabled(s, e)
    ensures Floors(Step(s, e))
  {
    match e
    case LinkBegin(h, x) => BeginKeeps(s, h, x);
    case LinkEntry(h, d, name, off) => EntryKeeps(s, h, d, name, off);
    case LinkUndo(h) => UndoKeeps(s, h);
    case Unlink(d, off) =>
      NamedHasLink(s, d, off);
      if s.nodes[s.nodes[d].entries[off].inum].kind == Dir {
        UnlinkDirKeeps(s, d, off);
      } else {
        UnlinkFileKeeps(s, d, off);
      }
    case Create(d, name, off, x) => CreateKeeps(s, d, name, off, x);
    case Mkdir(d, name, off, x) => MkdirKeeps(s, d, name, off, x);
    case CreateFails(d, x, kind, n) => FailKeeps(s, d, x, kind, n);
    case Reclaim(x) => ReclaimKeeps(s, x);
  }

  lemma InitFloors(s: State)
    requires Init(s)
    ensures Floors(s)
  {
    forall x ensures Covered(s, x) {
      assert forall p :: !At(s, p, x);
      forall p ensures p !in Raw(s, x) {
        RawIff(s, x, p);
      }
      assert Raw(s, x) == {} && Pending(s, x) == {} && Subs(s, x) == {};
    }
  }

  lemma {:induction false} RunKeeps(s: State, es: seq<Event>)
    requires Floors(s) && Runs(s, es)
    ensures Floors(Final(s, es))
    decreases |es|
  {
    if es != [] {
      StepKeeps(s, es[0]);
      RunKeeps(Step(s, es[0]), es[1..]);
    }
  }

  /**
   In every run, whatever is done in removed directories: what sys_unlink finds has a link to give up, so that its
   panic is unreachable, and so has the directory it goes from if it is itself a directory; sys_link has one to take
   back when it fails; names within a directory are unique; and what no longer has links is named by no entry.
   */
  lemma NeverBelowZero(s: State, es: seq<Event>, x: nat)
    requires Init(s) && Runs(s, es)
    ensures var t := Final(s, es);
      && (forall d: nat, off: nat :: Enabled(t, Unlink(d, off)) ==> var y := t.nodes[d].entries[off].inum;
            t.nodes[y].nlink >= 1 && (t.nodes[y].kind == Dir ==> t.nodes[d].nlink >= if y == d then 2 else 1))
      && (forall h :: h in t.links ==> t.links[h] in t.nodes && t.nodes[t.links[h]].nlink >= 1)
      && (x in t.nodes ==> Unique(t.nodes[x].entries))
      && (x in t.nodes && t.nodes[x].nlink == 0 ==> forall p :: !At(t, p, x))
  {
    InitFloors(s);
    RunKeeps(s, es);
    var t := Final(s, es);
    forall d: nat, off: nat | Enabled(t, Unlink(d, off))
      ensures var y := t.nodes[d].entries[off].inum;
        t.nodes[y].nlink >= 1 && (t.nodes[y].kind == Dir ==> t.nodes[d].nlink >= if y == d then 2 else 1)
    {
      NamedHasLink(t, d, off);
    }
    forall h | h in t.links ensures t.links[h] in t.nodes && t.nodes[t.links[h]].nlink >= 1 {
      UndoKeeps(t, h);
    }
    assert Covered(t, x);
    if x in t.nodes && t.nodes[x].nlink == 0 {
      Unnamed(t, x);
    }
  }
}
