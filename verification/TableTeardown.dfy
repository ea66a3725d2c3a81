/**
 Building and tearing down a whole user address space: freewalk and uvmfree of kernel/vm.c,
 proc_pagetable and proc_freepagetable of kernel/proc.c.
 */
module TableTeardown {
  import opened PageTables
  import opened Paging
  import opened UserMemory

  /** The slot that entry i of the table in slot s is. */
  function Child(s: Slot, i: nat): Slot
    requires !s.User?
  {
    match s
    case Root(r) => Mid(r, i)
    case Mid(r, i2) => Leaf(r, i2, i)
    case Leaf(r, i2, i1) => User(r, i2, i1, i)
  }

  /** Slot t is reached through one of the first n entries of the table in slot s. */
  predicate UnderKid(s: Slot, t: Slot, n: nat) {
    Under(s, t) && match s
      case Root(_) => !t.Root? && t.i2 < n
      case Mid(_, _) => (t.Leaf? || t.User?) && t.i1 < n
      case Leaf(_, _, _) => t.User? && t.i0 < n
      case User(_, _, _, _) => false
  }

  ghost function FreedKids(own: map<nat, Owner>, s: Slot, n: nat): map<nat, Owner> {
    map p | p in own :: if own[p].In? && UnderKid(s, own[p].s, n) then Free else own[p]
  }

  /** No leaf entry reached through s is in use. */
  ghost predicate NoLeaves(m: Vm, roots: set<nat>, s: Slot) {
    Shaped(m) && forall t :: SlotOk(roots, t) && t.User? && Under(s, t) ==> Entry(m, t) == NONE
  }

  lemma FreedKidsNext(own: map<nat, Owner>, s: Slot, i: nat)
    requires !s.User?
    ensures FreedUnder(FreedKids(own, s, i), Child(s, i)) == FreedKids(own, s, i + 1)
  {
  }

  lemma FreedAll(m: Vm, roots: set<nat>, own: map<nat, Owner>, s: Slot)
    requires PageTables.Valid(m, roots, own) && SlotOk(roots, s) && !s.User? && Ref(m, s) != 0
    ensures FreedKids(own, s, NPTE)[Ref(m, s) := Free] == FreedUnder(own, s)
  {
    forall p | p in own && own[p].In? && Under(s, own[p].s)
      ensures p == Ref(m, s) || UnderKid(s, own[p].s, NPTE)
    {
      assert SlotOk(roots, own[p].s);
    }
    assert Ref(m, s) in own && own[Ref(m, s)] == In(s);
  }

  /** Pages not reached through s are as they were. */
  ghost predicate KeptOutside(pt: seq<seq<Pte>>, pt': seq<seq<Pte>>, own: map<nat, Owner>, s: Slot) {
    |pt'| == |pt| && forall p :: 0 <= p < |pt| && Outside(own, s, p) ==> pt'[p] == pt[p]
  }

  lemma KeptThenKept(pt0: seq<seq<Pte>>, pt1: seq<seq<Pte>>, pt2: seq<seq<Pte>>, own: map<nat, Owner>, s: Slot,
                     i: nat, p: nat)
    requires !s.User? && p in own && own[p] == In(s) && p < |pt0| && KeptOutside(pt0, pt1, own, s)
    requires |pt2| == |pt1| && KeptOutside(pt1, pt2[p := pt1[p]], FreedKids(own, s, i), Child(s, i))
    ensures KeptOutside(pt0, pt2, own, s)
  {
    forall q | 0 <= q < |pt0| && Outside(own, s, q) ensures pt2[q] == pt0[q] {
      assert Outside(FreedKids(own, s, i), Child(s, i), q);
    }
  }

  /** freewalk: free the table in page p and every table below it. */
  method FreeWalk(mem: Memory, p: nat, ghost s: Slot)
    requires mem.Valid() && SlotOk(mem.roots, s) && !s.User? && Ref(mem.M(), s) == p && p != 0
    requires NoLeaves(mem.M(), mem.roots, s)
    modifies mem`pt, mem`data, mem`free, mem`own
    ensures Shaped(mem.M()) && FreeOk(mem.free, mem.own) && |mem.data| == mem.hi
    ensures mem.own == FreedUnder(old(mem.own), s)
    ensures KeptOutside(old(mem.pt), mem.pt, old(mem.own), s)
    ensures DataKept(old(mem.free), old(mem.data), mem.free, mem.data) && Within(old(mem.free), mem.free)
    decreases 3 - Depth(s)
  {
    ghost var m0, own0, pt0, free0, data0 := mem.M(), mem.own, mem.pt, mem.free, mem.data;
    assert p in own0 && own0[p] == In(s);
    for i := 0 to NPTE
      invariant mem.Valid() && Ref(mem.M(), s) == p && NoLeaves(mem.M(), mem.roots, s)
      invariant mem.own == FreedKids(own0, s, i)
      invariant KeptOutside(pt0, mem.pt, own0, s)
      invariant DataKept(free0, data0, mem.free, mem.data) && Within(free0, mem.free)
    {
      ghost var pt1, free1, data1 := mem.pt, mem.free, mem.data;
      FreeEntry(mem, p, s, i);
      FreedKidsNext(own0, s, i);
      KeptThenKept(pt0, pt1, mem.pt, own0, s, i, p);
      DataKeptTrans(free0, data0, free1, data1, mem.free, mem.data);
    }
    FreedAll(m0, mem.roots, own0, s);
    mem.Prepend(p);
  }

  /** One round of freewalk's loop: free what entry i refers to, then empty it. */
  method FreeEntry(mem: Memory, p: nat, ghost s: Slot, i: nat)
    requires mem.Valid() && SlotOk(mem.roots, s) && !s.User? && Ref(mem.M(), s) == p && p != 0 && p < mem.hi
    requires NoLeaves(mem.M(), mem.roots, s) && i < NPTE
    modifies mem`pt, mem`data, mem`free, mem`own
    ensures mem.Valid() && Ref(mem.M(), s) == p && NoLeaves(mem.M(), mem.roots, s) && |mem.pt| == |old(mem.pt)|
    ensures mem.own == FreedUnder(old(mem.own), Child(s, i))
    ensures KeptOutside(old(mem.pt), mem.pt[p := old(mem.pt)[p]], old(mem.own), Child(s, i))
    ensures DataKept(old(mem.free), old(mem.data), mem.free, mem.data) && Within(old(mem.free), mem.free)
    decreases 3 - Depth(s), 0
  {
    ghost var c := Child(s, i);
    ghost var m0, own0 := mem.M(), mem.own;
    assert SlotOk(mem.roots, c) && Parent(c) == s && Index(c) == i;
    var e := mem.pt[p][i];
    assert e == Entry(m0, c) && EntryOk(c, e);
    if V(e) && !Rwx(e) {
      assert !c.User?;
      FreeWalk(mem, e.frame, c);
      mem.pt := mem.pt[p := mem.pt[p][i := NONE]];
      EntryCut(m0, mem.M(), mem.roots, own0, c, p);
    } else {
      // A leaf entry in use would be the panic "freewalk: leaf".
      assert !V(e);
      NothingUnder(m0, mem.roots, own0, c);
    }
  }

  /** An entry not in use reaches no page. */
  lemma NothingUnder(m: Vm, roots: set<nat>, own: map<nat, Owner>, c: Slot)
    requires PageTables.Valid(m, roots, own) && !c.Root? && Entry(m, c) == NONE
    ensures FreedUnder(own, c) == own
  {
    forall q | q in own && own[q].In? ensures !Under(c, own[q].s) {
      if Under(c, own[q].s) {
        PrunedBelow(m, c, own[q].s);
      }
    }
  }

  lemma EntryCut(m: Vm, m': Vm, roots: set<nat>, own: map<nat, Owner>, c: Slot, p: nat)
    requires PageTables.Valid(m, roots, own) && SlotOk(roots, c) && (c.Mid? || c.Leaf?)
    requires p == Ref(m, Parent(c)) && p != 0
    requires Shaped(m') && m'.lo == m.lo && m'.hi == m.hi
    requires p < m.hi && EntryAt(m', p, Index(c)) == NONE
    requires forall k :: 0 <= k < NPTE && k != Index(c) ==> m'.pt[p][k] == m.pt[p][k]
    requires KeptOutside(m.pt, m'.pt[p := m.pt[p]], own, c) && NoLeaves(m, roots, Parent(c))
    ensures PageTables.Valid(m', roots, FreedUnder(own, c)) && Ref(m', Parent(c)) == p && NoLeaves(m', roots, Parent(c))
  {
    forall q, k | 0 < q < m.hi && 0 <= k < NPTE && Outside(own, c, q) && !EntryOf(m, c, q, k)
      ensures m'.pt[q][k] == m.pt[q][k]
    {
      if q != p {
        assert m'.pt[p := m.pt[p]][q] == m.pt[q];
      }
    }
    PruneValid(m, m', roots, own, c);
    PrunedRef(m, m', roots, own, c, Parent(c));
  }

  // ----- Whole address spaces -----

  lemma NoMappings(m: Vm, roots: set<nat>, own: map<nat, Owner>, maps: map<nat, map<nat, Pte>>, r: nat)
    requires PageTables.Valid(m, roots, own) && MapsOk(m, roots, maps) && r in maps && maps[r] == map[]
    ensures NoLeaves(m, roots, Root(r))
  {
    forall t | SlotOk(roots, t) && t.User? && Under(Root(r), t) ensures Entry(m, t) == NONE {
      assert LeafIs(m, t, maps[t.r]) && EntryOk(t, Entry(m, t));
    }
  }

  lemma RootGone(m: Vm, m': Vm, roots: set<nat>, own: map<nat, Owner>, maps: map<nat, map<nat, Pte>>, r: nat)
    requires PageTables.Valid(m, roots, own) && MapsOk(m, roots, maps) && r in maps
    requires Shaped(m') && m'.lo == m.lo && m'.hi == m.hi && KeptOutside(m.pt, m'.pt, own, Root(r))
    ensures PageTables.Valid(m', roots - {r}, FreedUnder(own, Root(r)))
    ensures MapsOk(m', roots - {r}, maps - {r})
    ensures BusyPages(FreedUnder(own, Root(r))) == BusyPages(own)
  {
    PruneValid(m, m', roots, own, Root(r));
    forall t | SlotOk(roots - {r}, t) && t.User? ensures LeafIs(m', t, (maps - {r})[t.r]) {
      assert SlotOk(roots, t) && LeafIs(m, t, maps[t.r]);
    }
  }

  /** Free the pages of the first sz bytes and then the table itself. */
  method Uvmfree(mem: Memory, r: nat, sz: nat)
    requires mem.Ok() && r in mem.maps && RoundUp(sz) <= TRAPFRAME
    requires forall x :: x in mem.maps[r] ==> x < RoundUp(sz)
    modifies mem`pt, mem`data, mem`free, mem`own, mem`maps, mem`roots
    ensures mem.Ok() && DataKept(old(mem.free), old(mem.data), mem.free, mem.data) && Within(old(mem.free), mem.free)
    ensures mem.maps == old(mem.maps) - {r}
  {
    ghost var maps0, free0, data0 := mem.maps, mem.free, mem.data;
    if sz > 0 {
      RoundUpMono(sz, 0);
      assert RoundUp(0) == 0;
      Uvmunmap(mem, r, 0, RoundUp(sz) / PGSIZE, true);
    }
    assert mem.maps[r] == map[] && mem.maps - {r} == maps0 - {r};
    ghost var m1, own1, free1, data1 := mem.M(), mem.own, mem.free, mem.data;
    NoMappings(m1, mem.roots, own1, mem.maps, r);
    FreeWalk(mem, r, Root(r));
    RootGone(m1, mem.M(), mem.roots, own1, mem.maps, r);
    mem.roots := mem.roots - {r};
    mem.maps := mem.maps - {r};
    DataKeptTrans(free0, data0, free1, data1, mem.free, mem.data);
  }

  /** A table with just the trampoline and trapframe mapped, or 0 and no change if memory runs out. */
  method ProcPagetable(mem: Memory, trampoline: nat, trapframe: nat) returns (r: nat)
    requires mem.Ok() && trampoline > 0 && trapframe > 0
    modifies mem`pt, mem`data, mem`free, mem`own, mem`maps, mem`roots, mem`busy
    ensures mem.Ok() && mem.busy == old(mem.busy)
    ensures r == 0 ==> mem.maps == old(mem.maps) && |old(mem.free)| <= 4
    ensures r != 0 ==> |mem.free| >= |old(mem.free)| - 5
    ensures r != 0 ==> r !in old(mem.maps) && mem.maps == old(mem.maps)[r := KernelPages(trampoline, trapframe)]
    ensures r != 0 ==> DataKept(old(mem.free), old(mem.data), mem.free, mem.data) && Within(mem.free, old(mem.free))
  {
    ghost var maps0, free0, data0 := mem.maps, mem.free, mem.data;
    r := mem.Uvmcreate();
    if r == 0 {
      return;
    }
    ghost var free1, data1 := mem.free, mem.data;
    ghost var e := Pte(trampoline, OrV(PTE_R + PTE_X));
    var ok := mem.MapPage(r, TRAMPOLINE, trampoline, PTE_R + PTE_X);
    if !ok {
      Uvmfree(mem, r, 0);
      assert maps0[r := map[]] - {r} == maps0;
      return 0;
    }
    assert mem.maps == maps0[r := Insert(map[], TRAMPOLINE, e)];
    ghost var free2, data2 := mem.free, mem.data;
    DataKeptTrans(free0, data0, free1, data1, free2, data2);
    ok := mem.MapPage(r, TRAPFRAME, trapframe, PTE_R + PTE_W);
    if !ok {
      DropTrampoline(mem, maps0, r, e);
      return 0;
    }
    DataKeptTrans(free0, data0, free2, data2, mem.free, mem.data);
  }

  /** The second failure path: take the trampoline out again and free the empty table. */
  method DropTrampoline(mem: Memory, ghost maps0: map<nat, map<nat, Pte>>, r: nat, ghost e: Pte)
    requires mem.Ok() && r !in maps0 && mem.maps == maps0[r := Insert(map[], TRAMPOLINE, e)]
    modifies mem`pt, mem`data, mem`free, mem`own, mem`maps, mem`roots
    ensures mem.Ok() && mem.maps == maps0
  {
    Uvmunmap(mem, r, TRAMPOLINE, 1, false);
    assert mem.maps[r] == map[];
    Uvmfree(mem, r, 0);
    assert mem.maps == maps0;
  }

  ghost function KernelPages(trampoline: nat, trapframe: nat): map<nat, Pte> {
    map[TRAMPOLINE := Pte(trampoline, OrV(PTE_R + PTE_X)), TRAPFRAME := Pte(trapframe, OrV(PTE_R + PTE_W))]
  }

  /** Give back the address space of a process of sz bytes. */
  method ProcFreepagetable(mem: Memory, r: nat, sz: nat)
    requires mem.Ok() && r in mem.maps && RoundUp(sz) <= TRAPFRAME
    requires forall x :: x in mem.maps[r] ==> x < RoundUp(sz) || x == TRAPFRAME || x == TRAMPOLINE
    modifies mem`pt, mem`data, mem`free, mem`own, mem`maps, mem`roots
    ensures mem.Ok() && Within(old(mem.free), mem.free)
    ensures mem.maps == old(mem.maps) - {r}
  {
    ghost var maps0 := mem.maps;
    Uvmunmap(mem, r, TRAMPOLINE, 1, false);
    Uvmunmap(mem, r, TRAPFRAME, 1, false);
    Uvmfree(mem, r, sz);
    assert mem.maps == maps0 - {r};
  }

  /** When no table is left and no code holds a page, every page of the allocator is free: none was lost. */
  lemma NoPageLost(m: Vm, own: map<nat, Owner>, free: seq<nat>)
    requires PageTables.Valid(m, {}, own) && FreeOk(free, own) && BusyPages(own) == {}
    ensures forall p :: m.lo <= p < m.hi ==> p in free
  {
    forall p | m.lo <= p < m.hi ensures p in free {
      assert p !in BusyPages(own);
    }
  }
}
