/**
 Link counts (create, sys_link and sys_unlink of kernel/sysfile.c) over every run of system calls.
 A step is what a call does while it has its directory locked; sys_link, which raises the count
 before it looks for the directory, takes two or three steps.
 */
module Links {
  import opened Directory

  datatype Kind = FreeNode | File | Dir

  datatype Node = Node(kind: Kind, nlink: nat, entries: seq<Dirent>)

  const ROOT: nat := 1

  /**
   Inodes by number, the inodes whose count sys_link calls have raised without an entry yet, and where each
   directory made by mkdir is entered in its parent.
   */
  datatype State = State(nodes: map<nat, Node>, links: map<nat, nat>, home: map<nat, nat>)

  datatype Event =
    | LinkBegin(h: nat, x: nat)
    | LinkEntry(h: nat, d: nat, name: string, off: nat)
    | LinkUndo(h: nat)
    | Unlink(d: nat, off: nat)
    | Create(d: nat, name: string, off: nat, x: nat)
    | Mkdir(d: nat, name: string, off: nat, x: nat)
    | CreateFails(d: nat, x: nat, kind: Kind, n: nat)
    | Reclaim(x: nat)

  /** A place in a directory. */
  datatype Place = Place(d: nat, off: nat)

  predicate LiveDir(s: State, d: nat) { d in s.nodes && s.nodes[d].kind == Dir && s.nodes[d].nlink > 0 }

  predicate IsDir(s: State, d: nat) { d in s.nodes && s.nodes[d].kind == Dir }

  /**
   A name can be entered in d at off.  Calls do not look at d's links: it may have been removed while a path
   through it was followed, or while it was someone's current directory.  A directory that can be found has its
   "." and "..".
   */
  ghost predicate CanEnter(s: State, d: nat, name: string, off: nat) {
    && IsDir(s, d) && |s.nodes[d].entries| >= 2
    && FoundAt(s.nodes[d].entries, name, None) && Slot(s.nodes[d].entries, off)
  }

  predicate IsFree(s: State, x: nat) { x in s.nodes && s.nodes[x].kind == FreeNode && x != 0 }

  /**
   Calls that change nothing, because a name is taken or missing, or is "." or "..", or a directory to unlink is
   not empty, are no steps.
   */
  ghost predicate Enabled(s: State, e: Event) {
    match e
    case LinkBegin(h, x) => h !in s.links && x in s.nodes && s.nodes[x].kind == File
    case LinkEntry(h, d, name, off) => h in s.links && CanEnter(s, d, name, off)
    case LinkUndo(h) => h in s.links && s.links[h] in s.nodes
    case Unlink(d, off) => IsDir(s, d) && off < |s.nodes[d].entries| && CanUnlink(s, s.nodes[d].entries[off])
    case Create(d, name, off, x) => CanEnter(s, d, name, off) && IsFree(s, x)
    case Mkdir(d, name, off, x) => CanEnter(s, d, name, off) && IsFree(s, x)
    case CreateFails(d, x, kind, n) =>
      IsDir(s, d) && IsFree(s, x) && kind != FreeNode && n <= (if kind == Dir then 2 else 0)
    case Reclaim(x) => x in s.nodes && s.nodes[x].nlink == 0 && s.nodes[x].kind != FreeNode
  }

  /** A name is entered in a directory without links. */
  predicate EntersDead(s: State, e: Event) {
    (e.LinkEntry? || e.Create? || e.Mkdir?) && !LiveDir(s, e.d)
  }

  predicate CanUnlink(s: State, de: Dirent) {
    de.inum in s.nodes && de.name != "." && de.name != ".." && de.inum != 0 &&
    (s.nodes[de.inum].kind == Dir ==> Empty(s.nodes[de.inum].entries))
  }

  function Less(n: nat): nat { if n == 0 then 0 else n - 1 }

  function SetNode(s: State, x: nat, n: Node): State { s.(nodes := s.nodes[x := n]) }

  function Enter(s: State, d: nat, off: nat, name: string, x: nat): State
    requires d in s.nodes && off <= |s.nodes[d].entries|
  {
    SetNode(s, d, s.nodes[d].(entries := Put(s.nodes[d].entries, off, Dirent(x, Trunc(name)))))
  }

  function Relink(s: State, x: nat, n: nat): State
    requires x in s.nodes
  {
    SetNode(s, x, s.nodes[x].(nlink := n))
  }

  /** The first two entries of a new directory x in d. */
  function Dots(x: nat, d: nat): seq<Dirent> { [Dirent(x, "."), Dirent(d, "..")] }

  ghost function Step(s: State, e: Event): State
    requires Enabled(s, e)
  {
    match e
    case LinkBegin(h, x) => Relink(s, x, s.nodes[x].nlink + 1).(links := s.links[h := x])
    case LinkEntry(h, d, name, off) => Enter(s, d, off, name, s.links[h]).(links := s.links - {h})
    case LinkUndo(h) => Relink(s, s.links[h], Less(s.nodes[s.links[h]].nlink)).(links := s.links - {h})
    case Unlink(d, off) =>
      var x := s.nodes[d].entries[off].inum;
      var n := s.nodes[d];
      var s1 := SetNode(s, d, n.(entries := n.entries[off := Dirent(0, "")],
                                 nlink := if s.nodes[x].kind == Dir then Less(n.nlink) else n.nlink));
      Relink(s1, x, Less(s1.nodes[x].nlink))
    case Create(d, name, off, x) => SetNode(Enter(s, d, off, name, x), x, Node(File, 1, []))
    case Mkdir(d, name, off, x) =>
      var s1 := SetNode(Enter(s, d, off, name, x), x, Node(Dir, 1, Dots(x, d)));
      Relink(s1, d, s.nodes[d].nlink + 1).(home := s.home[x := off])
    case CreateFails(d, x, kind, n) => SetNode(s, x, Node(kind, 0, Dots(x, d)[..n]))
    case Reclaim(x) => SetNode(s, x, Node(FreeNode, 0, []))
  }

  // ----- Counting the entries that name an inode -----

  /** The entry at a place names x, other than as ".", in a directory with links. */
  predicate Names(s: State, p: Place, x: nat) {
    LiveDir(s, p.d) && p.off < |s.nodes[p.d].entries| &&
    var de := s.nodes[p.d].entries[p.off]; de.inum == x && de.inum != 0 && de.name != "."
  }

  ghost function Refs(s: State, x: nat): set<Place> {
    set d, off | d in s.nodes && 0 <= off < |s.nodes[d].entries| && Names(s, Place(d, off), x) :: Place(d, off)
  }

  lemma RefsIff(s: State, x: nat, p: Place)
    ensures p in Refs(s, x) <==> Names(s, p, x)
  {
    if Names(s, p, x) {
      assert p.d in s.nodes && 0 <= p.off < |s.nodes[p.d].entries| && p == Place(p.d, p.off);
    }
  }

  /** One place changes what it names. */
  lemma RefsChange(s: State, s': State, x: nat, p: Place)
    requires forall q :: q != p ==> (Names(s', q, x) <==> Names(s, q, x))
    ensures Refs(s', x) == if Names(s', p, x) then Refs(s, x) + {p} else Refs(s, x) - {p}
  {
    forall q ensures q in Refs(s', x) <==> q in (if Names(s', p, x) then Refs(s, x) + {p} else Refs(s, x) - {p}) {
      RefsIff(s, x, q);
      RefsIff(s', x, q);
    }
  }

  lemma RefsSame(s: State, s': State, x: nat)
    requires forall q :: Names(s', q, x) <==> Names(s, q, x)
    ensures Refs(s', x) == Refs(s, x)
  {
    forall q ensures q in Refs(s', x) <==> q in Refs(s, x) {
      RefsIff(s, x, q);
      RefsIff(s', x, q);
    }
  }

  ghost function Pending(s: State, x: nat): set<nat> { set h | h in s.links && s.links[h] == x }

  // ----- The invariant -----

  function ParentOf(s: State, d: nat): nat
    requires d in s.nodes && |s.nodes[d].entries| >= 2
  {
    s.nodes[d].entries[1].inum
  }

  /** Where a directory is entered in its parent. */
  function Home(s: State, d: nat): Place {
    if d in s.nodes && |s.nodes[d].entries| >= 2 && d in s.home then Place(ParentOf(s, d), s.home[d]) else Place(0, 0)
  }

  /** The entries of a directory, with links or without: "." and ".." first, and only those once it is removed. */
  ghost predicate DirOk(s: State, d: nat)
    requires d in s.nodes
  {
    var es := s.nodes[d].entries;
    && (|es| >= 1 ==> es[0] == Dirent(d, "."))
    && (|es| >= 2 ==> es[1].name == ".." && es[1].inum in s.nodes && (d == ROOT <==> es[1].inum == d))
    && (s.nodes[d].nlink == 0 ==> forall i :: 2 <= i < |es| ==> es[i].inum == 0)
  }

  ghost predicate NodeOk(s: State, d: nat)
    requires d in s.nodes
  {
    var n := s.nodes[d];
    && d != 0 && Unique(n.entries) && (n.kind != Dir ==> n.entries == []) && (n.kind == FreeNode ==> n.nlink == 0)
    && (n.kind == Dir ==> DirOk(s, d))
    && (LiveDir(s, d) ==>
          && |n.entries| >= 2 && LiveDir(s, ParentOf(s, d))
          && (forall i :: 0 <= i < |n.entries| ==> n.entries[i].inum == 0 || n.entries[i].inum in s.nodes))
  }

  /** A directory is entered once in its parent and nowhere else; the root is entered nowhere. */
  ghost predicate HomeOk(s: State, d: nat)
    requires LiveDir(s, d) && |s.nodes[d].entries| >= 2
  {
    && (d != ROOT ==> Home(s, d).off >= 2 && Names(s, Home(s, d), d))
    && (forall p :: Names(s, p, d) && p.off >= 2 ==> d != ROOT && p == Home(s, d))
  }

  ghost predicate CountOk(s: State, x: nat)
    requires x in s.nodes
  {
    s.nodes[x].nlink == |Refs(s, x)| + |Pending(s, x)|
  }

  ghost predicate InodeOk(s: State, d: nat) {
    d in s.nodes ==> NodeOk(s, d) && CountOk(s, d) && (LiveDir(s, d) ==> HomeOk(s, d))
  }

  ghost predicate Inv(s: State) {
    && LiveDir(s, ROOT)
    && (forall d :: InodeOk(s, d))
    && (forall h :: h in s.links ==> s.links[h] in s.nodes && s.nodes[s.links[h]].kind == File)
  }

  lemma NoPending(s: State, x: nat)
    requires Inv(s) && x in s.nodes && s.nodes[x].kind != File
    ensures Pending(s, x) == {}
  {
  }

  /** An empty directory is no other directory's "..". */
  lemma NoDotDot(s: State, d: nat, p: Place)
    requires Inv(s) && LiveDir(s, d) && d != ROOT && Empty(s.nodes[d].entries) && Names(s, p, d)
    ensures p.off >= 2
  {
    assert InodeOk(s, p.d) && InodeOk(s, d);
    assert p.off == 1 ==> p.d != ROOT && Home(s, p.d).d == d;
  }

  /** A directory without entries of its own has exactly one link: the entry in its parent. */
  lemma EmptyHasOneLink(s: State, d: nat)
    requires Inv(s) && LiveDir(s, d) && d != ROOT && Empty(s.nodes[d].entries)
    ensures s.nodes[d].nlink == 1 && Refs(s, d) == {Home(s, d)}
  {
    assert InodeOk(s, d);
    forall p ensures p in Refs(s, d) <==> p == Home(s, d) {
      RefsIff(s, d, p);
      if Names(s, p, d) {
        NoDotDot(s, d, p);
      }
    }
    NoPending(s, d);
    assert Refs(s, d) == {Home(s, d)};
  }

  /** A name entered in a directory is not "." or "..". */
  lemma NotDots(s: State, d: nat, name: string, off: nat)
    requires Inv(s) && CanEnter(s, d, name, off)
    ensures Trunc(name) != "." && Trunc(name) != ".." && off >= 2
  {
    assert InodeOk(s, d);
    var es := s.nodes[d].entries;
    assert !Matches(es[0], name) && !Matches(es[1], name);
    assert InodeOk(s, es[1].inum);
  }

  // ----- Steps that change an inode that is no directory in use -----

  ghost predicate LinksOk(s: State) {
    forall h :: h in s.links ==> s.links[h] in s.nodes && s.nodes[s.links[h]].kind == File
  }

  /** Only x changes, and x neither was nor is a directory with links. */
  ghost predicate Aside(s: State, s': State, x: nat) {
    && x in s.nodes && !LiveDir(s, x) && x in s'.nodes && !LiveDir(s', x)
    && s'.nodes == s.nodes[x := s'.nodes[x]] && s'.home == s.home
    && NodeOk(s', x) && LinksOk(s')
    && (forall y :: y != x ==> Pending(s', y) == Pending(s, y))
  }

  lemma AsideNames(s: State, s': State, x: nat, q: Place, y: nat)
    requires Aside(s, s', x)
    ensures Names(s', q, y) <==> Names(s, q, y)
  {
  }

  lemma AsideRefs(s: State, s': State, x: nat, y: nat)
    requires Aside(s, s', x)
    ensures Refs(s', y) == Refs(s, y)
  {
    forall q ensures Names(s', q, y) <==> Names(s, q, y) {
      AsideNames(s, s', x, q, y);
    }
    RefsSame(s, s', y);
  }

  lemma AsideInode(s: State, s': State, x: nat, d: nat)
    requires Inv(s) && Aside(s, s', x) && d != x
    ensures InodeOk(s', d)
  {
    assert InodeOk(s, d);
    AsideRefs(s, s', x, d);
    if LiveDir(s', d) {
      AsideNames(s, s', x, Home(s, d), d);
      forall p | Names(s', p, d) && p.off >= 2 ensures d != ROOT && p == Home(s', d) {
        AsideNames(s, s', x, p, d);
      }
    }
  }

  lemma AsideKeepsInv(s: State, s': State, x: nat)
    requires Inv(s) && Aside(s, s', x) && s'.nodes[x].nlink == |Refs(s, x)| + |Pending(s', x)|
    ensures Inv(s')
  {
    forall d ensures InodeOk(s', d) {
      if d == x {
        AsideRefs(s, s', x, x);
      } else {
        AsideInode(s, s', x, d);
      }
    }
  }

  lemma LinkBeginKeepsInv(s: State, h: nat, x: nat)
    requires Inv(s) && Enabled(s, LinkBegin(h, x))
    ensures Inv(Step(s, LinkBegin(h, x)))
  {
    var s' := Step(s, LinkBegin(h, x));
    assert InodeOk(s, x);
    assert Pending(s', x) == Pending(s, x) + {h};
    forall y | y != x ensures Pending(s', y) == Pending(s, y) {
    }
    AsideKeepsInv(s, s', x);
  }

  lemma LinkUndoKeepsInv(s: State, h: nat)
    requires Inv(s) && Enabled(s, LinkUndo(h))
    ensures Inv(Step(s, LinkUndo(h)))
  {
    var s', x := Step(s, LinkUndo(h)), s.links[h];
    assert InodeOk(s, x) && h in Pending(s, x);
    assert Pending(s', x) == Pending(s, x) - {h};
    forall y | y != x ensures Pending(s', y) == Pending(s, y) {
    }
    AsideKeepsInv(s, s', x);
  }

  lemma CreateFailsKeepsInv(s: State, d: nat, x: nat, kind: Kind, n: nat)
    requires Inv(s) && Enabled(s, CreateFails(d, x, kind, n))
    ensures Inv(Step(s, CreateFails(d, x, kind, n)))
  {
    var s' := Step(s, CreateFails(d, x, kind, n));
    assert InodeOk(s, x);
    assert forall y :: Pending(s', y) == Pending(s, y);
    AsideKeepsInv(s, s', x);
  }

  lemma ReclaimKeepsInv(s: State, x: nat)
    requires Inv(s) && Enabled(s, Reclaim(x))
    ensures Inv(Step(s, Reclaim(x)))
  {
    var s' := Step(s, Reclaim(x));
    assert InodeOk(s, x);
    assert Pending(s, x) == {};
    forall h | h in s.links ensures s.links[h] != x {
      assert h !in Pending(s, x);
    }
    assert forall y :: Pending(s', y) == Pending(s, y);
    AsideKeepsInv(s, s', x);
  }

  // ----- Entering and removing the name of a file -----

  /** Entry (d, off) of a directory with links is replaced; its links and "." and ".." are not. */
  ghost predicate Replaced(s: State, s': State, d: nat, off: nat) {
    && LiveDir(s, d) && off >= 2 && d in s'.nodes
    && s'.nodes == s.nodes[d := s.nodes[d].(entries := s'.nodes[d].entries)] && s'.home == s.home
    && var es, es' := s.nodes[d].entries, s'.nodes[d].entries;
    && off <= |es| <= |es'| <= (if off == |es| then |es| + 1 else |es|) && off < |es'|
    && (forall i :: 0 <= i < |es| && i != off ==> es'[i] == es[i])
    && Unique(es') && (es'[off].inum == 0 || es'[off].inum in s.nodes)
  }

  lemma ReplacedNames(s: State, s': State, d: nat, off: nat, q: Place, y: nat)
    requires Replaced(s, s', d, off) && q != Place(d, off)
    ensures Names(s', q, y) <==> Names(s, q, y)
  {
  }

  /** Directories other than those named by the old or the new entry are where they were. */
  lemma ReplacedDir(s: State, s': State, d: nat, off: nat, y: nat)
    requires Inv(s) && Replaced(s, s', d, off) && y in s.nodes
    requires s.nodes[y].kind == Dir ==> !Names(s, Place(d, off), y) && !Names(s', Place(d, off), y)
    ensures NodeOk(s', y) && (LiveDir(s', y) ==> HomeOk(s', y))
  {
    assert InodeOk(s, y) && InodeOk(s, d);
    if LiveDir(s', y) {
      assert Home(s', y) == Home(s, y);
      if y != ROOT {
        ReplacedNames(s, s', d, off, Home(s, y), y);
      }
      forall p | Names(s', p, y) && p.off >= 2 ensures y != ROOT && p == Home(s', y) {
        ReplacedNames(s, s', d, off, p, y);
      }
    }
  }

  lemma ReplacedRefs(s: State, s': State, d: nat, off: nat, y: nat)
    requires Replaced(s, s', d, off)
    ensures var p := Place(d, off); Refs(s', y) == if Names(s', p, y) then Refs(s, y) + {p} else Refs(s, y) - {p}
    ensures Place(d, off) in Refs(s, y) <==> Names(s, Place(d, off), y)
  {
    forall q | q != Place(d, off) ensures Names(s', q, y) <==> Names(s, q, y) {
      ReplacedNames(s, s', d, off, q, y);
    }
    RefsChange(s, s', y, Place(d, off));
    RefsIff(s, y, Place(d, off));
  }

  lemma LinkEntryKeepsInv(s: State, h: nat, d: nat, name: string, off: nat)
    requires Inv(s) && Enabled(s, LinkEntry(h, d, name, off)) && LiveDir(s, d)
    ensures Inv(Step(s, LinkEntry(h, d, name, off)))
  {
    var s', x := Step(s, LinkEntry(h, d, name, off)), s.links[h];
    EnteredReplaces(s, h, d, name, off);
    forall y ensures InodeOk(s', y) {
      if y in s'.nodes {
        assert InodeOk(s, y);
        ReplacedDir(s, s', d, off, y);
        ReplacedRefs(s, s', d, off, y);
        assert Pending(s', y) == Pending(s, y) - {h};
        assert h in Pending(s, y) <==> y == x;
      }
    }
  }

  lemma EnteredReplaces(s: State, h: nat, d: nat, name: string, off: nat)
    requires Inv(s) && Enabled(s, LinkEntry(h, d, name, off)) && LiveDir(s, d)
    ensures Replaced(s, Step(s, LinkEntry(h, d, name, off)), d, off)
    ensures forall y :: !Names(s, Place(d, off), y)
    ensures forall y :: Names(Step(s, LinkEntry(h, d, name, off)), Place(d, off), y) <==> y == s.links[h]
  {
    assert InodeOk(s, d) && InodeOk(s, s.links[h]);
    NotDots(s, d, name, off);
    PutUnique(s.nodes[d].entries, off, name, s.links[h]);
  }

  /** A directory in which something can be unlinked has links. */
  lemma UnlinkLive(s: State, d: nat, off: nat)
    requires Inv(s) && Enabled(s, Unlink(d, off))
    ensures LiveDir(s, d) && off >= 2
  {
    assert InodeOk(s, d);
  }

  /** Taking the name of a file out, with the link it stood for still to be given up. */
  ghost function TakenOut(s: State, d: nat, off: nat, h: nat): State
    requires d in s.nodes && off < |s.nodes[d].entries|
  {
    SetNode(s, d, s.nodes[d].(entries := s.nodes[d].entries[off := Dirent(0, "")]))
    .(links := s.links[h := s.nodes[d].entries[off].inum])
  }

  lemma TakeOutKeepsInv(s: State, d: nat, off: nat, h: nat)
    requires Inv(s) && Enabled(s, Unlink(d, off)) && h !in s.links
    requires s.nodes[s.nodes[d].entries[off].inum].kind == File
    ensures Inv(TakenOut(s, d, off, h))
  {
    var s', x := TakenOut(s, d, off, h), s.nodes[d].entries[off].inum;
    UnlinkLive(s, d, off);
    assert InodeOk(s, d) && InodeOk(s, x);
    TakenOutReplaces(s, d, off, h);
    forall y ensures InodeOk(s', y) {
      if y in s'.nodes {
        assert InodeOk(s, y);
        ReplacedDir(s, s', d, off, y);
        ReplacedRefs(s, s', d, off, y);
        TakenOutPending(s, d, off, h, y);
      }
    }
  }

  lemma TakenOutReplaces(s: State, d: nat, off: nat, h: nat)
    requires Inv(s) && Enabled(s, Unlink(d, off))
    ensures Replaced(s, TakenOut(s, d, off, h), d, off)
    ensures forall y :: Names(s, Place(d, off), y) <==> y == s.nodes[d].entries[off].inum
    ensures forall y :: !Names(TakenOut(s, d, off, h), Place(d, off), y)
  {
    UnlinkLive(s, d, off);
    assert InodeOk(s, d);
    RemoveUnique(s.nodes[d].entries, off);
  }

  lemma PendingMore(s: State, s': State, h: nat, x: nat, y: nat)
    requires h !in s.links && s'.links == s.links[h := x]
    ensures Pending(s', y) == if y == x then Pending(s, y) + {h} else Pending(s, y)
  {
  }

  lemma TakenOutPending(s: State, d: nat, off: nat, h: nat, y: nat)
    requires d in s.nodes && off < |s.nodes[d].entries| && h !in s.links
    ensures |Pending(TakenOut(s, d, off, h), y)|
         == |Pending(s, y)| + if y == s.nodes[d].entries[off].inum then 1 else 0
  {
    PendingMore(s, TakenOut(s, d, off, h), h, s.nodes[d].entries[off].inum, y);
  }

  lemma FreshLink(s: State) returns (h: nat)
    ensures h !in s.links
  {
    h := Bound(s.links.Keys);
  }

  lemma {:induction false} Bound(xs: set<nat>) returns (b: nat)
    ensures forall x :: x in xs ==> x < b
    decreases |xs|
  {
    if xs == {} {
      b := 0;
    } else {
      var x :| x in xs;
      var c := Bound(xs - {x});
      b := if x < c then c else x + 1;
      assert forall y :: y in xs ==> y == x || y in xs - {x};
    }
  }

  /** Unlinking a file: its name is taken out and then its link is given up. */
  lemma UnlinkFileKeepsInv(s: State, d: nat, off: nat)
    requires Inv(s) && Enabled(s, Unlink(d, off)) && s.nodes[s.nodes[d].entries[off].inum].kind == File
    ensures Inv(Step(s, Unlink(d, off)))
  {
    var x := s.nodes[d].entries[off].inum;
    var h := FreshLink(s);
    TakeOutKeepsInv(s, d, off, h);
    var s1 := TakenOut(s, d, off, h);
    LinkUndoKeepsInv(s1, h);
    assert s1.links - {h} == s.links && x != d;
    assert Step(s1, LinkUndo(h)) == Step(s, Unlink(d, off));
  }

  /** Creating a file: a free inode becomes a file without links, is given one, and then a name. */
  lemma CreateKeepsInv(s: State, d: nat, name: string, off: nat, x: nat)
    requires Inv(s) && Enabled(s, Create(d, name, off, x)) && LiveDir(s, d)
    ensures Inv(Step(s, Create(d, name, off, x)))
  {
    var h := FreshLink(s);
    CreateFailsKeepsInv(s, d, x, File, 0);
    var s1 := Step(s, CreateFails(d, x, File, 0));
    LinkBeginKeepsInv(s1, h, x);
    var s2 := Step(s1, LinkBegin(h, x));
    assert s2.nodes[d] == s.nodes[d];
    LinkEntryKeepsInv(s2, h, d, name, off);
    var s3 := Step(s2, LinkEntry(h, d, name, off));
    assert s3.links == s.links && x != d;
    assert s3.nodes == Step(s, Create(d, name, off, x)).nodes;
  }

  // ----- Directories -----

  lemma MkdirNames(s: State, d: nat, name: string, off: nat, x: nat, q: Place, y: nat)
    requires Inv(s) && Enabled(s, Mkdir(d, name, off, x)) && LiveDir(s, d)
    ensures Names(Step(s, Mkdir(d, name, off, x)), q, y) <==>
      (q == Place(d, off) && y == x) || (q == Place(x, 1) && y == d) || Names(s, q, y)
    ensures !Names(s, Place(d, off), y) && !Names(s, Place(x, 1), y) && x != d && x != ROOT
  {
    NotDots(s, d, name, off);
    assert InodeOk(s, x) && InodeOk(s, d);
  }

  lemma MkdirRefs(s: State, d: nat, name: string, off: nat, x: nat, y: nat)
    requires Inv(s) && Enabled(s, Mkdir(d, name, off, x)) && LiveDir(s, d)
    ensures |Refs(Step(s, Mkdir(d, name, off, x)), y)| == |Refs(s, y)| + if y == x || y == d then 1 else 0
  {
    var s' := Step(s, Mkdir(d, name, off, x));
    var p := if y == x then Place(d, off) else Place(x, 1);
    forall q | q != p ensures Names(s', q, y) <==> Names(s, q, y) {
      MkdirNames(s, d, name, off, x, q, y);
    }
    MkdirNames(s, d, name, off, x, p, y);
    RefsChange(s, s', y, p);
    RefsIff(s, y, p);
  }

  lemma MkdirLive(s: State, d: nat, name: string, off: nat, x: nat, z: nat)
    requires Inv(s) && Enabled(s, Mkdir(d, name, off, x)) && LiveDir(s, d) && LiveDir(s, z)
    ensures LiveDir(Step(s, Mkdir(d, name, off, x)), z)
  {
  }

  lemma MkdirOther(s: State, d: nat, name: string, off: nat, x: nat, y: nat)
    requires Inv(s) && Enabled(s, Mkdir(d, name, off, x)) && LiveDir(s, d) && y in s.nodes && y != x && y != d
    ensures NodeOk(Step(s, Mkdir(d, name, off, x)), y)
  {
    assert InodeOk(s, y);
    if LiveDir(s, y) {
      MkdirLive(s, d, name, off, x, ParentOf(s, y));
    }
  }

  lemma MkdirParent(s: State, d: nat, name: string, off: nat, x: nat)
    requires Inv(s) && Enabled(s, Mkdir(d, name, off, x)) && LiveDir(s, d)
    ensures NodeOk(Step(s, Mkdir(d, name, off, x)), d)
  {
    NotDots(s, d, name, off);
    assert InodeOk(s, d) && InodeOk(s, x);
    PutUnique(s.nodes[d].entries, off, name, x);
    MkdirLive(s, d, name, off, x, ParentOf(s, d));
  }

  lemma MkdirNode(s: State, d: nat, name: string, off: nat, x: nat, y: nat)
    requires Inv(s) && Enabled(s, Mkdir(d, name, off, x)) && LiveDir(s, d) && y in Step(s, Mkdir(d, name, off, x)).nodes
    ensures NodeOk(Step(s, Mkdir(d, name, off, x)), y)
  {
    if y == d {
      MkdirParent(s, d, name, off, x);
    } else if y == x {
      assert InodeOk(s, x) && InodeOk(s, d);
      MkdirLive(s, d, name, off, x, d);
    } else {
      MkdirOther(s, d, name, off, x, y);
    }
  }

  lemma MkdirHome(s: State, d: nat, name: string, off: nat, x: nat, y: nat)
    requires Inv(s) && Enabled(s, Mkdir(d, name, off, x)) && LiveDir(s, d)
    requires LiveDir(Step(s, Mkdir(d, name, off, x)), y) && NodeOk(Step(s, Mkdir(d, name, off, x)), y)
    ensures HomeOk(Step(s, Mkdir(d, name, off, x)), y)
  {
    var s' := Step(s, Mkdir(d, name, off, x));
    NotDots(s, d, name, off);
    assert InodeOk(s, x) && InodeOk(s, y) && InodeOk(s, d);
    NoRefs(s, x);
    assert y != x ==> Home(s', y) == Home(s, y);
    MkdirNames(s, d, name, off, x, Home(s', y), y);
    forall p | Names(s', p, y) && p.off >= 2 ensures y != ROOT && p == Home(s', y) {
      MkdirNames(s, d, name, off, x, p, y);
    }
  }

  /** Nothing names an inode without links. */
  lemma NoRefs(s: State, x: nat)
    requires Inv(s) && x in s.nodes && s.nodes[x].nlink == 0
    ensures Refs(s, x) == {} && forall p :: !Names(s, p, x)
  {
    assert InodeOk(s, x);
    assert Refs(s, x) == {};
    forall p ensures !Names(s, p, x) {
      RefsIff(s, x, p);
    }
  }

  lemma MkdirKeepsInv(s: State, d: nat, name: string, off: nat, x: nat)
    requires Inv(s) && Enabled(s, Mkdir(d, name, off, x)) && LiveDir(s, d)
    ensures Inv(Step(s, Mkdir(d, name, off, x)))
  {
    var s' := Step(s, Mkdir(d, name, off, x));
    assert InodeOk(s, x) && InodeOk(s, d);
    NoRefs(s, x);
    forall y ensures InodeOk(s', y) {
      if y in s'.nodes {
        assert InodeOk(s, y);
        MkdirRefs(s, d, name, off, x, y);
        assert Pending(s', y) == Pending(s, y);
        NoPending(s, x);
        MkdirNode(s, d, name, off, x, y);
        if LiveDir(s', y) {
          MkdirHome(s, d, name, off, x, y);
        }
      }
    }
  }

  /** The empty directory that (d, off) names: its one link is that entry, and its ".." is d. */
  ghost predicate Removable(s: State, d: nat, off: nat, x: nat) {
    && LiveDir(s, d) && off < |s.nodes[d].entries| && x == s.nodes[d].entries[off].inum && off >= 2
    && LiveDir(s, x) && x != ROOT && x != d && |s.nodes[x].entries| >= 2 && ParentOf(s, x) == d
    && Home(s, x) == Place(d, off) && s.nodes[x].nlink == 1 && Refs(s, x) == {Place(d, off)}
    && Empty(s.nodes[x].entries)
  }

  lemma UnlinkedDir(s: State, d: nat, off: nat)
    requires Inv(s) && Enabled(s, Unlink(d, off)) && s.nodes[s.nodes[d].entries[off].inum].kind == Dir
    ensures Removable(s, d, off, s.nodes[d].entries[off].inum)
  {
    var x := s.nodes[d].entries[off].inum;
    UnlinkLive(s, d, off);
    assert InodeOk(s, d) && InodeOk(s, x);
    assert Names(s, Place(d, off), x);
    RefsIff(s, x, Place(d, off));
    NoPending(s, x);
    assert LiveDir(s, x);
    EmptyHasOneLink(s, x);
  }

  /** A directory with a subdirectory has two links at least, so it keeps one. */
  lemma ParentStays(s: State, d: nat, off: nat, x: nat)
    requires Inv(s) && Removable(s, d, off, x)
    ensures s.nodes[d].nlink >= 2
  {
    assert InodeOk(s, d) && InodeOk(s, x) && CountOk(s, d);
    var p, q := Place(x, 1), if d == ROOT then Place(ROOT, 1) else Home(s, d);
    assert Names(s, p, d) && Names(s, q, d) && p != q;
    RefsIff(s, d, p);
    RefsIff(s, d, q);
    assert {p, q} <= Refs(s, d);
    SetsOrder({p, q}, Refs(s, d));
  }

  lemma SetsOrder(a: set<Place>, b: set<Place>)
    requires a <= b
    ensures |a| <= |b|
  {
    assert b == a + (b - a);
  }

  ghost function Rmdir(s: State, d: nat, off: nat, x: nat): State
    requires Removable(s, d, off, x) && s.nodes[d].nlink >= 1
  {
    var n := s.nodes[d];
    Relink(SetNode(s, d, n.(entries := n.entries[off := Dirent(0, "")], nlink := n.nlink - 1)), x, 0)
  }

  lemma RmdirNames(s: State, d: nat, off: nat, x: nat, q: Place, y: nat)
    requires Inv(s) && Removable(s, d, off, x) && s.nodes[d].nlink >= 2
    ensures Names(Rmdir(s, d, off, x), q, y) <==> Names(s, q, y) && q != Place(d, off) && q != Place(x, 1)
    ensures Names(s, Place(d, off), y) ==> y == x
    ensures Names(s, Place(x, 1), y) <==> y == d
  {
    assert InodeOk(s, x) && InodeOk(s, d);
  }

  lemma RmdirRefs(s: State, d: nat, off: nat, x: nat, y: nat)
    requires Inv(s) && Removable(s, d, off, x) && s.nodes[d].nlink >= 2
    ensures |Refs(Rmdir(s, d, off, x), y)| == |Refs(s, y)| - if y == x || y == d then 1 else 0
  {
    var s' := Rmdir(s, d, off, x);
    var p := if y == x then Place(d, off) else Place(x, 1);
    forall q | q != p ensures Names(s', q, y) <==> Names(s, q, y) {
      RmdirNames(s, d, off, x, q, y);
    }
    RmdirNames(s, d, off, x, p, y);
    RefsChange(s, s', y, p);
    RefsIff(s, y, p);
    RefsIff(s, x, Place(d, off));
  }

  lemma RmdirNode(s: State, d: nat, off: nat, x: nat, y: nat)
    requires Inv(s) && Removable(s, d, off, x) && s.nodes[d].nlink >= 2 && y in s.nodes
    ensures NodeOk(Rmdir(s, d, off, x), y)
  {
    assert InodeOk(s, d) && InodeOk(s, y);
    if y == d {
      RemoveUnique(s.nodes[d].entries, off);
    }
    if LiveDir(s, y) && y != x {
      // No directory in use has x as its parent: it would be entered in x.
      if ParentOf(s, y) == x {
        NoDotDot(s, x, Place(y, 1));
      }
    }
  }

  lemma RmdirHome(s: State, d: nat, off: nat, x: nat, y: nat)
    requires Inv(s) && Removable(s, d, off, x) && s.nodes[d].nlink >= 2 && LiveDir(Rmdir(s, d, off, x), y)
    requires NodeOk(Rmdir(s, d, off, x), y)
    ensures HomeOk(Rmdir(s, d, off, x), y)
  {
    var s' := Rmdir(s, d, off, x);
    assert InodeOk(s, y) && Home(s', y) == Home(s, y);
    RmdirNames(s, d, off, x, Home(s, y), y);
    forall p | Names(s', p, y) && p.off >= 2 ensures y != ROOT && p == Home(s', y) {
      RmdirNames(s, d, off, x, p, y);
    }
  }

  lemma UnlinkDirKeepsInv(s: State, d: nat, off: nat)
    requires Inv(s) && Enabled(s, Unlink(d, off)) && s.nodes[s.nodes[d].entries[off].inum].kind == Dir
    ensures Inv(Step(s, Unlink(d, off)))
  {
    var x := s.nodes[d].entries[off].inum;
    UnlinkedDir(s, d, off);
    ParentStays(s, d, off, x);
    var s' := Rmdir(s, d, off, x);
    assert Step(s, Unlink(d, off)) == s';
    forall y ensures InodeOk(s', y) {
      if y in s'.nodes {
        assert InodeOk(s, y);
        RmdirRefs(s, d, off, x, y);
        assert Pending(s', y) == Pending(s, y);
        RmdirNode(s, d, off, x, y);
        if LiveDir(s', y) {
          RmdirHome(s, d, off, x, y);
        }
      }
    }
  }

  // ----- Every run -----

  lemma StepKeepsInv(s: State, e: Event)
    requires Inv(s) && Enabled(s, e) && !EntersDead(s, e)
    ensures Inv(Step(s, e))
  {
    match e
    case LinkBegin(h, x) => LinkBeginKeepsInv(s, h, x);
    case LinkEntry(h, d, name, off) => LinkEntryKeepsInv(s, h, d, name, off);
    case LinkUndo(h) => LinkUndoKeepsInv(s, h);
    case Unlink(d, off) =>
      var x := s.nodes[d].entries[off].inum;
      assert InodeOk(s, x) && InodeOk(s, d);
      if s.nodes[x].kind == Dir {
        UnlinkDirKeepsInv(s, d, off);
      } else {
        UnlinkLive(s, d, off);
        NamedInUse(s, d, off);
        UnlinkFileKeepsInv(s, d, off);
      }
    case Create(d, name, off, x) => CreateKeepsInv(s, d, name, off, x);
    case Mkdir(d, name, off, x) => MkdirKeepsInv(s, d, name, off, x);
    case CreateFails(d, x, kind, n) => CreateFailsKeepsInv(s, d, x, kind, n);
    case Reclaim(x) => ReclaimKeepsInv(s, x);
  }

  /** What a directory in use names has a link: the panic "nlink < 1" of sys_unlink cannot happen. */
  lemma NamedInUse(s: State, d: nat, off: nat)
    requires Inv(s) && LiveDir(s, d) && off < |s.nodes[d].entries| && CanUnlink(s, s.nodes[d].entries[off])
    ensures var x := s.nodes[d].entries[off].inum; s.nodes[x].nlink >= 1 && s.nodes[x].kind != FreeNode
  {
    var x := s.nodes[d].entries[off].inum;
    assert InodeOk(s, x);
    RefsIff(s, x, Place(d, off));
  }

  ghost predicate Runs(s: State, es: seq<Event>)
    decreases |es|
  {
    es == [] || (Enabled(s, es[0]) && Runs(Step(s, es[0]), es[1..]))
  }

  ghost function Final(s: State, es: seq<Event>): State
    requires Runs(s, es)
    decreases |es|
  {
    if es == [] then s else Final(Step(s, es[0]), es[1..])
  }

  /** The file system that mkfs makes, before it holds files: a root directory and free inodes. */
  ghost predicate Init(s: State) {
    && ROOT in s.nodes && s.nodes[ROOT] == Node(Dir, 1, Dots(ROOT, ROOT)) && s.links == map[] && 0 !in s.nodes
    && forall x :: x in s.nodes && x != ROOT ==> s.nodes[x] == Node(FreeNode, 0, [])
  }

  lemma InitInv(s: State)
    requires Init(s)
    ensures Inv(s)
  {
    forall d ensures InodeOk(s, d) {
      if d in s.nodes {
        forall p ensures p in Refs(s, d) <==> d == ROOT && p == Place(ROOT, 1) {
          RefsIff(s, d, p);
        }
        assert Refs(s, d) == if d == ROOT then {Place(ROOT, 1)} else {};
        assert Pending(s, d) == {};
      }
    }
  }

  /** No step of the run enters a name in a directory without links. */
  ghost predicate NoneDead(s: State, es: seq<Event>)
    requires Runs(s, es)
    decreases |es|
  {
    es == [] || (!EntersDead(s, es[0]) && NoneDead(Step(s, es[0]), es[1..]))
  }

  lemma {:induction false} RunKeepsInv(s: State, es: seq<Event>)
    requires Inv(s) && Runs(s, es) && NoneDead(s, es)
    ensures Inv(Final(s, es))
    decreases |es|
  {
    if es != [] {
      StepKeepsInv(s, es[0]);
      RunKeepsInv(Step(s, es[0]), es[1..]);
    }
  }

  /**
   In every run that enters no name in a removed directory: a link count is the number of entries, other than ".",
   that name the inode in directories with links, plus the sys_link calls under way; an empty directory other than
   the root has exactly one link; and what sys_unlink finds has a link.  CountsRight says that the condition is exact.
   */
  lemma LinkCounts(s: State, es: seq<Event>, x: nat)
    requires Init(s) && Runs(s, es) && NoneDead(s, es) && x in Final(s, es).nodes
    ensures var t := Final(s, es); var n := t.nodes[x];
      && n.nlink == |Refs(t, x)| + |Pending(t, x)|
      && (t.links == map[] ==> n.nlink == |Refs(t, x)|)
      && (LiveDir(t, x) && x != ROOT && Empty(n.entries) ==> n.nlink == 1)
      && Unique(n.entries)
  {
    InitInv(s);
    RunKeepsInv(s, es);
    var t := Final(s, es);
    assert InodeOk(t, x);
    if LiveDir(t, x) && x != ROOT && Empty(t.nodes[x].entries) {
      EmptyHasOneLink(t, x);
    }
    if t.links == map[] {
      assert Pending(t, x) == {};
    }
  }

  // ----- Removed directories -----

  /** Every link count is right. */
  ghost predicate Right(s: State) { forall x :: x in s.nodes ==> CountOk(s, x) }

  ghost predicate AlwaysRight(s: State, es: seq<Event>)
    requires Runs(s, es)
    decreases |es|
  {
    Right(s) && (es != [] ==> AlwaysRight(Step(s, es[0]), es[1..]))
  }

  /** A name entered in a directory that has no links, and still has none, names nothing. */
  lemma DeadNames(s: State, d: nat, off: nat, name: string, x: nat, q: Place, y: nat)
    requires IsDir(s, d) && s.nodes[d].nlink == 0 && off <= |s.nodes[d].entries|
    ensures Names(Enter(s, d, off, name, x), q, y) <==> Names(s, q, y)
  {
  }

  /** sys_link into a removed directory: the link was counted, and no entry accounts for it. */
  lemma DeadLink(s: State, h: nat, d: nat, name: string, off: nat)
    requires Inv(s) && Enabled(s, LinkEntry(h, d, name, off)) && !LiveDir(s, d)
    ensures s.links[h] in s.nodes && !CountOk(Step(s, LinkEntry(h, d, name, off)), s.links[h])
  {
    var s', x := Step(s, LinkEntry(h, d, name, off)), s.links[h];
    assert InodeOk(s, x);
    forall q ensures Names(s', q, x) <==> Names(s, q, x) {
      DeadNames(s, d, off, name, x, q, x);
    }
    RefsSame(s, s', x);
    assert Pending(s', x) == Pending(s, x) - {h};
    assert h in Pending(s, x);
  }

  /** create in a removed directory: the new file has a link, and no entry accounts for it. */
  lemma DeadCreate(s: State, d: nat, name: string, off: nat, x: nat)
    requires Inv(s) && Enabled(s, Create(d, name, off, x)) && !LiveDir(s, d)
    ensures !CountOk(Step(s, Create(d, name, off, x)), x)
  {
    var s' := Step(s, Create(d, name, off, x));
    assert InodeOk(s, x);
    NoRefs(s, x);
    NoPending(s, x);
    forall q ensures Names(s', q, x) <==> Names(s, q, x) {
      DeadNames(s, d, off, name, x, q, x);
    }
    RefsSame(s, s', x);
    assert Pending(s', x) == Pending(s, x);
  }

  /** What then names the inode that ".." of d does: ".." too, and the new entry if that inode is the new one. */
  lemma DeadMkdirNames(s: State, d: nat, name: string, off: nat, x: nat, q: Place)
    requires Inv(s) && Enabled(s, Mkdir(d, name, off, x)) && !LiveDir(s, d)
    ensures var y := ParentOf(s, d);
      Names(Step(s, Mkdir(d, name, off, x)), q, y) <==>
      Names(s, q, y) || q == Place(d, 1) || (q == Place(d, off) && y == x)
  {
    NotDots(s, d, name, off);
    assert InodeOk(s, d) && InodeOk(s, x) && InodeOk(s, ParentOf(s, d));
  }

  lemma DeadMkdirRefs(s: State, d: nat, name: string, off: nat, x: nat)
    requires Inv(s) && Enabled(s, Mkdir(d, name, off, x)) && !LiveDir(s, d)
    ensures var y := ParentOf(s, d);
      |Refs(Step(s, Mkdir(d, name, off, x)), y)| == |Refs(s, y)| + if y == x then 2 else 1
  {
    var s', y := Step(s, Mkdir(d, name, off, x)), ParentOf(s, d);
    NotDots(s, d, name, off);
    var more := if y == x then {Place(d, 1), Place(d, off)} else {Place(d, 1)};
    forall q ensures q in Refs(s', y) <==> q in Refs(s, y) + more {
      DeadMkdirNames(s, d, name, off, x, q);
      RefsIff(s, y, q);
      RefsIff(s', y, q);
    }
    assert Refs(s', y) == Refs(s, y) + more;
    RefsIff(s, y, Place(d, 1));
    RefsIff(s, y, Place(d, off));
  }

  /**
   mkdir in a removed directory gives it a link: its ".." counts again, and the count of what that names is too low,
   whether that is still its parent or an inode reused since.
   */
  lemma DeadMkdir(s: State, d: nat, name: string, off: nat, x: nat)
    requires Inv(s) && Enabled(s, Mkdir(d, name, off, x)) && !LiveDir(s, d)
    ensures var s' := Step(s, Mkdir(d, name, off, x)); ParentOf(s, d) in s'.nodes && !CountOk(s', ParentOf(s, d))
  {
    var s', y := Step(s, Mkdir(d, name, off, x)), ParentOf(s, d);
    NotDots(s, d, name, off);
    assert InodeOk(s, d) && InodeOk(s, y) && InodeOk(s, x);
    NoRefs(s, x);
    NoPending(s, x);
    assert s'.nodes[y].nlink == if y == x then 1 else s.nodes[y].nlink;
    assert Pending(s', y) == Pending(s, y);
    DeadMkdirRefs(s, d, name, off, x);
  }

  /** Entering a name in a directory without links makes some count wrong. */
  lemma DeadIsWrong(s: State, e: Event)
    requires Inv(s) && Enabled(s, e) && EntersDead(s, e)
    ensures !Right(Step(s, e))
  {
    match e
    case LinkEntry(h, d, name, off) => DeadLink(s, h, d, name, off);
    case Create(d, name, off, x) => DeadCreate(s, d, name, off, x);
    case Mkdir(d, name, off, x) => DeadMkdir(s, d, name, off, x);
  }

  lemma {:induction false} RightIff(s: State, es: seq<Event>)
    requires Inv(s) && Runs(s, es)
    ensures AlwaysRight(s, es) <==> NoneDead(s, es)
    decreases |es|
  {
    forall x | x in s.nodes ensures CountOk(s, x) {
      assert InodeOk(s, x);
    }
    if es != [] {
      var s' := Step(s, es[0]);
      if EntersDead(s, es[0]) {
        DeadIsWrong(s, es[0]);
      } else {
        StepKeepsInv(s, es[0]);
        RightIff(s', es[1..]);
      }
    }
  }

  /** Counts are right in every state of a run if and only if it enters no name in a removed directory. */
  lemma CountsRight(s: State, es: seq<Event>)
    requires Init(s) && Runs(s, es)
    ensures AlwaysRight(s, es) <==> NoneDead(s, es)
  {
    InitInv(s);
    RightIff(s, es);
  }

  // ----- A run in which that happens -----

  /** Make a directory x and a file f, start to link f, and remove x. */
  function RemovedRun(x: nat, f: nat): seq<Event> {
    [Mkdir(ROOT, "d", 2, x), Create(ROOT, "f", 3, f), LinkBegin(0, f), Unlink(ROOT, 2)]
  }

  lemma RemovedRuns(s: State, x: nat, f: nat)
    requires Init(s) && x in s.nodes && f in s.nodes && x != ROOT && f != ROOT && x != f
    ensures Runs(s, RemovedRun(x, f)) && NoneDead(s, RemovedRun(x, f))
    ensures var t := Final(s, RemovedRun(x, f));
      && x in t.nodes && t.nodes[x] == Node(Dir, 0, Dots(x, ROOT)) && t.links == map[0 := f]
      && f in t.nodes && t.nodes[f] == Node(File, 2, [])
      && forall y :: y in s.nodes && y !in {ROOT, x, f} ==> y in t.nodes && t.nodes[y] == s.nodes[y]
  {
    var es := RemovedRun(x, f);
    var s1 := Step(s, es[0]);
    var s2 := Step(s1, es[1]);
    var s3 := Step(s2, es[2]);
    var all := Dots(ROOT, ROOT) + [Dirent(x, "d"), Dirent(f, "f")];
    assert s3.nodes[ROOT] == Node(Dir, 2, all) && all[2] == Dirent(x, "d");
    var s4 := Step(s3, es[3]);
    RunsCons(s3, es[3..]);
    RunsCons(s2, es[2..]);
    RunsCons(s1, es[1..]);
    RunsCons(s, es);
  }

  lemma RunsCons(s: State, es: seq<Event>)
    requires es != [] && Enabled(s, es[0]) && Runs(Step(s, es[0]), es[1..])
    ensures Runs(s, es) && Final(s, es) == Final(Step(s, es[0]), es[1..])
    ensures NoneDead(s, es) <==> !EntersDead(s, es[0]) && NoneDead(Step(s, es[0]), es[1..])
  {
  }

  lemma {:induction false} RunsThen(s: State, es: seq<Event>, e: Event)
    requires Runs(s, es) && Enabled(Final(s, es), e)
    ensures Runs(s, es + [e]) && Final(s, es + [e]) == Step(Final(s, es), e)
    decreases |es|
  {
    if es == [] {
      RunsCons(s, [e]);
    } else {
      RunsThen(Step(s, es[0]), es[1..], e);
      assert (es + [e])[1..] == es[1..] + [e];
      RunsCons(s, es + [e]);
    }
  }

  /** Each of the three calls reaches a removed directory, and leaves a count wrong. */
  lemma DeadDirectory(s: State, x: nat, f: nat, y: nat, e: Event)
    requires Init(s) && x in s.nodes && f in s.nodes && y in s.nodes
    requires x !in {ROOT, f, y} && f !in {ROOT, y} && y != ROOT
    requires e in {LinkEntry(0, x, "g", 2), Create(x, "g", 2, y), Mkdir(x, "g", 2, y)}
    ensures Runs(s, RemovedRun(x, f) + [e]) && !Right(Final(s, RemovedRun(x, f) + [e]))
  {
    var es := RemovedRun(x, f);
    RemovedRuns(s, x, f);
    var t := Final(s, es);
    assert Enabled(t, e) && EntersDead(t, e);
    InitInv(s);
    RunKeepsInv(s, es);
    DeadIsWrong(t, e);
    RunsThen(s, es, e);
  }
}
