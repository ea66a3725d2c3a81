/**
 The page allocator (kernel/kalloc.c) and the user page tables built on it (kernel/vm.c), updating
 physical memory in place.  Pages are named by page number; 0 is the null pointer.
 */
module Paging {
  import opened PageTables

  const PGSIZE: nat := 4096

  /** One past the highest user virtual address: 1 << 38. */
  const MAXVA: nat := 0x40_0000_0000

  /** PX(level, va): nine bits of the virtual page number. */
  function PX(level: nat, va: nat): (k: nat)
    requires level <= 2
    ensures k < NPTE
  {
    match level
    case 0 => va / 0x1000 % 512
    case 1 => va / 0x20_0000 % 512
    case _ => va / 0x4000_0000 % 512
  }

  /** The slot that walk passes through at a level: 3 is the root, 0 the leaf entry. */
  function SlotAt(r: nat, va: nat, level: nat): Slot
    requires level <= 3
  {
    match level
    case 3 => Root(r)
    case 2 => Mid(r, PX(2, va))
    case 1 => Leaf(r, PX(2, va), PX(1, va))
    case _ => User(r, PX(2, va), PX(1, va), PX(0, va))
  }

  function UserSlot(r: nat, va: nat): Slot { SlotAt(r, va, 0) }

  /** The virtual address of the page that a leaf entry maps. */
  function VaOf(s: Slot): nat
    requires s.User?
  {
    ((s.i2 * 512 + s.i1) * 512 + s.i0) * PGSIZE
  }

  /** Page-aligned addresses and leaf entries correspond one to one. */
  lemma SlotVa(r: nat, va: nat)
    requires va < MAXVA && va % PGSIZE == 0
    ensures VaOf(UserSlot(r, va)) == va
  {
    var n := va / PGSIZE;
    assert va == n * PGSIZE;
    assert PX(0, va) == n % 512;
    assert va / 0x20_0000 == n / 512;
    assert va / 0x4000_0000 == n / 512 / 512;
  }

  lemma VaSlot(s: Slot)
    requires s.User? && s.i2 < NPTE && s.i1 < NPTE && s.i0 < NPTE
    ensures UserSlot(s.r, VaOf(s)) == s && VaOf(s) % PGSIZE == 0
  {
    var n := (s.i2 * 512 + s.i1) * 512 + s.i0;
    assert VaOf(s) == n * PGSIZE;
    assert VaOf(s) / 0x1000 == n && n % 512 == s.i0 && n / 512 == s.i2 * 512 + s.i1;
    assert VaOf(s) / 0x20_0000 == n / 512;
    assert VaOf(s) / 0x4000_0000 == n / 512 / 512;
  }

  /** The free list: each free page once. */
  ghost predicate FreeOk(free: seq<nat>, own: map<nat, Owner>) {
    && (forall i, j :: 0 <= i < j < |free| ==> free[i] != free[j])
    && (forall p :: p in free <==> p in own && own[p] == Free)
  }

  /** Fill patterns of kfree and kalloc. */
  const JUNK1 := Pte(0x40_4040_4040_4040, 0x101)
  const JUNK5 := Pte(0x141_4141_4141_4141, 0x105)

  function Junk(e: Pte): (z: seq<Pte>)
    ensures |z| == NPTE
  {
    seq(NPTE, _ => e)
  }

  /** What a page holds besides table entries, as one value. */
  datatype Data = Zeroed | Filled(b: nat) | Bytes(id: nat)

  /** Only free pages changed hands: into the interior of table r. */
  ghost predicate TablesGrew(own: map<nat, Owner>, data: seq<Data>, own': map<nat, Owner>, data': seq<Data>, r: nat) {
    && own'.Keys == own.Keys && |data'| == |data| && (forall p :: p in own ==> p < |data|)
    && (forall p :: p in own && own[p] != Free ==> own'[p] == own[p])
    && (forall p :: 0 <= p < |data| && (p in own ==> own[p] != Free) ==> data'[p] == data[p])
    && (forall p :: p in own && own[p] == Free && own'[p] != Free ==>
          own'[p].In? && own'[p].s.r == r && (own'[p].s.Mid? || own'[p].s.Leaf?))
  }

  lemma SameLeavesTrans(m0: Vm, m1: Vm, m2: Vm, roots: set<nat>)
    requires SameLeaves(m0, m1, roots) && SameLeaves(m1, m2, roots)
    ensures SameLeaves(m0, m2, roots)
  {
  }

  lemma TablesGrewTrans(own0: map<nat, Owner>, data0: seq<Data>, own1: map<nat, Owner>, data1: seq<Data>,
                        own2: map<nat, Owner>, data2: seq<Data>, r: nat)
    requires TablesGrew(own0, data0, own1, data1, r) && TablesGrew(own1, data1, own2, data2, r)
    ensures TablesGrew(own0, data0, own2, data2, r)
  {
  }

  /** One free page became a table of r. */
  lemma OneTaken(own: map<nat, Owner>, data: seq<Data>, own': map<nat, Owner>, data': seq<Data>, p: nat, s: Slot)
    requires p in own && own[p] == Free && p < |data| && (s.Mid? || s.Leaf?) && forall q :: q in own ==> q < |data|
    requires own' == own[p := Busy][p := In(s)] && data' == data[p := Zeroed]
    ensures TablesGrew(own, data, own', data', s.r)
  {
  }

  /** A page taken off the free list and zeroed is not on the way to slot s. */
  lemma SlotKept(vm: Vm, vm': Vm, roots: set<nat>, own: map<nat, Owner>, p: nat, s: Slot)
    requires PageTables.Valid(vm, roots, own) && p in own && own[p] == Free && SlotOk(roots, s) && !s.Root?
    requires Shaped(vm') && vm'.hi == vm.hi && forall x :: 0 <= x < vm.hi && x != p ==> vm'.pt[x] == vm.pt[x]
    ensures Ref(vm', Parent(s)) == Ref(vm, Parent(s)) && Entry(vm', s) == Entry(vm, s)
  {
    LooseRef(vm, vm', roots, own, p, s);
    LooseRef(vm, vm', roots, own, p, Parent(s));
  }

  /** perm | PTE_V */
  function OrV(perm: nat): nat { if perm % 2 == 1 then perm else perm + 1 }

  lemma OrVLeaf(frame: nat, perm: nat)
    requires Rwx(Pte(frame, perm))
    ensures V(Pte(frame, OrV(perm))) && Rwx(Pte(frame, OrV(perm)))
  {
  }

  lemma UpdateBack(own: map<nat, Owner>, p: nat, o: Owner)
    requires p in own
    ensures own[p := o][p := own[p]] == own
  {
  }

  lemma OneLeafAfter(m0: Vm, m1: Vm, m2: Vm, roots: set<nat>, s: Slot, e: Pte)
    requires SameLeaves(m0, m1, roots) && OneLeaf(m1, m2, roots, s, e)
    ensures OneLeaf(m0, m2, roots, s, e)
  {
  }

  lemma OneLeafThen(m0: Vm, m1: Vm, m2: Vm, roots: set<nat>, s: Slot, e: Pte)
    requires SlotOk(roots, s) && OneLeaf(m0, m1, roots, s, e) && SameLeaves(m1, m2, roots)
    ensures OneLeaf(m0, m2, roots, s, e)
  {
  }

  // ----- Tables as finite maps -----

  ghost predicate MapsOk(m: Vm, roots: set<nat>, maps: map<nat, map<nat, Pte>>) {
    && Shaped(m) && maps.Keys == roots
    && (forall r, va :: r in maps && va in maps[r] ==> va % PGSIZE == 0 && va < 2 * MAXVA)
    && (forall t :: SlotOk(roots, t) && t.User? ==> LeafIs(m, t, maps[t.r]))
  }

  /** Leaf entry t is what the map says of its address. */
  ghost predicate LeafIs(m: Vm, t: Slot, f: map<nat, Pte>)
    requires Shaped(m) && t.User?
  {
    (VaOf(t) in f <==> V(Entry(m, t))) && (V(Entry(m, t)) ==> f[VaOf(t)] == Entry(m, t))
  }

  /** The map without address va. */
  ghost function Drop(f: map<nat, Pte>, va: nat): map<nat, Pte> {
    map x | x in f && x != va :: f[x]
  }

  ghost function Insert(f: map<nat, Pte>, va: nat, e: Pte): map<nat, Pte> {
    f[va := e]
  }

  ghost function BusyPages(own: map<nat, Owner>): set<nat> {
    set p | p in own && own[p] == Busy
  }

  lemma BusySame(own: map<nat, Owner>, data: seq<Data>, own': map<nat, Owner>, data': seq<Data>, r: nat)
    requires TablesGrew(own, data, own', data', r)
    ensures BusyPages(own') == BusyPages(own)
  {
  }

  lemma BusyFreed(m: Vm, roots: set<nat>, own: map<nat, Owner>, s: Slot)
    requires PageTables.Valid(m, roots, own) && SlotOk(roots, s) && Ref(m, s) != 0
    ensures BusyPages(own[Ref(m, s) := Free]) == BusyPages(own)
  {
  }

  lemma BusyMapped(own: map<nat, Owner>, data: seq<Data>, own': map<nat, Owner>, data': seq<Data>, r: nat, f: nat)
    requires f in own && f in own' && own'[f] != Busy
    requires TablesGrew(own, data, own'[f := Busy], data', r)
    ensures BusyPages(own') == BusyPages(own) - {f}
  {
    BusySame(own, data, own'[f := Busy], data', r);
  }

  lemma MapsSame(m: Vm, m': Vm, roots: set<nat>, maps: map<nat, map<nat, Pte>>)
    requires MapsOk(m, roots, maps) && SameLeaves(m, m', roots)
    ensures MapsOk(m', roots, maps)
  {
  }

  /** A changed leaf entry is an update of the finite map at its address. */
  lemma MapsOne(m: Vm, m': Vm, roots: set<nat>, maps: map<nat, map<nat, Pte>>, r: nat, va: nat, e: Pte)
    requires MapsOk(m, roots, maps) && r in roots && va < MAXVA && va % PGSIZE == 0
    requires OneLeaf(m, m', roots, UserSlot(r, va), e) && (V(e) || e == NONE)
    ensures MapsOk(m', roots, maps[r := if V(e) then Insert(maps[r], va, e) else Drop(maps[r], va)])
  {
    var f := if V(e) then Insert(maps[r], va, e) else Drop(maps[r], va);
    SlotVa(r, va);
    forall t | SlotOk(roots, t) && t.User? ensures LeafIs(m', t, maps[r := f][t.r]) {
      VaSlot(t);
      if t.r == r && VaOf(t) == va {
        assert t == UserSlot(r, va);
      } else {
        assert LeafIs(m, t, maps[t.r]);
      }
    }
  }

  lemma LeafEntry(m: Vm, roots: set<nat>, maps: map<nat, map<nat, Pte>>, r: nat, va: nat)
    requires MapsOk(m, roots, maps) && r in roots && va < MAXVA && va % PGSIZE == 0
    ensures va in maps[r] <==> V(Entry(m, UserSlot(r, va)))
    ensures va in maps[r] ==> maps[r][va] == Entry(m, UserSlot(r, va))
  {
    SlotVa(r, va);
    assert LeafIs(m, UserSlot(r, va), maps[r]);
  }

  /** TRAPFRAME = MAXVA - 2 * PGSIZE: the special pages lie from there on. */
  const TRAPFRAME: nat := 0x3F_FFFF_E000

  lemma SpecialPages(r: nat, va: nat)
    requires va < MAXVA && va % PGSIZE == 0
    ensures Special(UserSlot(r, va)) <==> va >= TRAPFRAME
  {
    SlotVa(r, va);
  }

  /** Pages that were and are not free keep their data. */
  ghost predicate DataKept(free: seq<nat>, data: seq<Data>, free': seq<nat>, data': seq<Data>) {
    |data'| == |data| && forall p :: 0 <= p < |data| && p !in free && p !in free' ==> data'[p] == data[p]
  }

  /** The page behind a mapping below the special pages is in use by that mapping alone. */
  lemma MappedPage(m: Vm, roots: set<nat>, own: map<nat, Owner>, maps: map<nat, map<nat, Pte>>, r: nat, va: nat)
    requires PageTables.Valid(m, roots, own) && MapsOk(m, roots, maps) && r in maps && va in maps[r] && va < TRAPFRAME
    ensures var f := maps[r][va].frame; f > 0 && f in own && own[f] == In(UserSlot(r, va))
    ensures V(maps[r][va]) && Rwx(maps[r][va])
  {
    var s := UserSlot(r, va);
    assert SlotOk(roots, s);
    LeafEntry(m, roots, maps, r, va);
    SpecialPages(r, va);
    assert EntryOk(s, Entry(m, s));
  }

  lemma MappedNotFree(m: Vm, roots: set<nat>, own: map<nat, Owner>, maps: map<nat, map<nat, Pte>>,
                      free: seq<nat>, r: nat)
    requires PageTables.Valid(m, roots, own) && MapsOk(m, roots, maps) && FreeOk(free, own) && r in maps
    ensures forall va :: va in maps[r] && va < TRAPFRAME ==> maps[r][va].frame !in free && maps[r][va].frame < m.hi
  {
    forall va | va in maps[r] && va < TRAPFRAME
      ensures maps[r][va].frame !in free && maps[r][va].frame < m.hi
    {
      MappedPage(m, roots, own, maps, r, va);
    }
  }

  lemma MapsNewRoot(m: Vm, roots: set<nat>, maps: map<nat, map<nat, Pte>>, p: nat)
    requires MapsOk(m, roots, maps) && p !in roots
    requires forall t :: SlotOk(roots + {p}, t) && t.r == p && t.User? ==> Entry(m, t) == NONE
    ensures MapsOk(m, roots + {p}, maps[p := map[]])
  {
    forall t | SlotOk(roots + {p}, t) && t.User? ensures LeafIs(m, t, maps[p := map[]][t.r]) {
      if t.r != p {
        assert SlotOk(roots, t);
      }
    }
  }

  predicate Within(s: seq<nat>, t: seq<nat>) {
    forall p :: p in s ==> p in t
  }

  /** In between, nothing was free that was not free before or after. */
  lemma DataKeptTrans(free0: seq<nat>, data0: seq<Data>, free1: seq<nat>, data1: seq<Data>,
                      free2: seq<nat>, data2: seq<Data>)
    requires DataKept(free0, data0, free1, data1) && DataKept(free1, data1, free2, data2)
    requires Within(free1, free0) || Within(free1, free2)
    ensures DataKept(free0, data0, free2, data2)
  {
  }

  /** Before kinit: no page is free yet. */
  ghost function AllBusy(lo: nat, hi: nat): (own: map<nat, Owner>)
    requires lo <= hi
    ensures forall p :: p in own <==> lo <= p < hi
    ensures forall p :: p in own ==> own[p] == Busy
    decreases hi - lo
  {
    if lo == hi then map[] else AllBusy(lo + 1, hi)[lo := Busy]
  }

  class Memory {
    const lo: nat
    const hi: nat
    var pt: seq<seq<Pte>>
    var data: seq<Data>
    var free: seq<nat>
    ghost var own: map<nat, Owner>
    ghost var roots: set<nat>
    /** For each table, the finite map from page address to leaf entry that it stands for. */
    ghost var maps: map<nat, map<nat, Pte>>
    /** The pages in the hands of running code. */
    ghost var busy: set<nat>

    ghost function M(): Vm
      reads this
    {
      Vm(lo, hi, pt)
    }

    ghost predicate Valid()
      reads this
    {
      PageTables.Valid(M(), roots, own) && FreeOk(free, own) && |data| == hi
    }

    ghost predicate Ok()
      reads this
    {
      Valid() && MapsOk(M(), roots, maps) && busy == BusyPages(own)
    }

    ghost predicate Same(m0: Vm, own0: map<nat, Owner>, free0: seq<nat>, data0: seq<Data>)
      reads this
    {
      M() == m0 && own == own0 && free == free0 && data == data0
    }

    /**
     kinit: freerange hands every page from lo on to kfree, whatever memory holds at that time.  All of them are free
     then, each once, the last one in front, and there is no table yet.
     */
    constructor (lo: nat, hi: nat, pt: seq<seq<Pte>>, data: seq<Data>)
      requires Shaped(Vm(lo, hi, pt)) && |data| == hi
      ensures this.lo == lo && this.hi == hi && Ok()
      ensures maps == map[] && roots == {} && busy == {}
      ensures |free| == hi - lo && forall i :: 0 <= i < |free| ==> free[i] == hi - 1 - i
      ensures forall p :: lo <= p < hi ==> p in free
      ensures forall p :: lo <= p < hi ==> this.pt[p] == Junk(JUNK1) && this.data[p] == Filled(1)
    {
      this.lo, this.hi, this.pt, this.data, free := lo, hi, pt, data, [];
      own, roots, maps, busy := AllBusy(lo, hi), {}, map[], {};
      new;
      var p := lo;
      while p < hi
        invariant lo <= p <= hi && Valid() && roots == {} && maps == map[] && busy == {}
        invariant |free| == p - lo && forall i :: 0 <= i < |free| ==> free[i] == p - 1 - i
        invariant forall q :: q in own ==> own[q] == if q < p then Free else Busy
        invariant forall q :: lo <= q < p ==> this.pt[q] == Junk(JUNK1) && this.data[q] == Filled(1)
      {
        PushFree(p);
        p := p + 1;
      }
      forall q | lo <= q < hi ensures q in free {
        assert free[hi - 1 - q] == q;
      }
    }

    /** Pop the head of the free list, filled with junk; 0 if there is none. */
    method PopFree() returns (p: nat)
      requires Valid()
      modifies `pt, `data, `free, `own
      ensures Valid()
      ensures p == 0 <==> old(free) == []
      ensures p == 0 ==> Same(old(M()), old(own), old(free), old(data))
      ensures p != 0 ==> p == old(free)[0] && free == old(free)[1..] && p in old(own) && own == old(own)[p := Busy]
      ensures p != 0 ==> pt == old(pt)[p := Junk(JUNK5)] && data == old(data)[p := Filled(5)]
      ensures SameLeaves(old(M()), M(), roots)
    {
      if free == [] {
        return 0;
      }
      p := free[0];
      assert p in free;
      LoosePage(M(), roots, own, p, Junk(JUNK5), Busy);
      free := free[1..];
      pt := pt[p := Junk(JUNK5)];
      data := data[p := Filled(5)];
      own := own[p := Busy];
      assert old(free) == [p] + free;
    }

    /** kfree's own work: junk the page and link it in front of the free list. */
    method Prepend(p: nat)
      requires Shaped(M()) && FreeOk(free, own) && |data| == hi && p in own && own[p] != Free && p < hi
      modifies `pt, `data, `free, `own
      ensures Shaped(M()) && FreeOk(free, own)
      ensures free == [p] + old(free) && own == old(own)[p := Free]
      ensures pt == old(pt)[p := Junk(JUNK1)] && data == old(data)[p := Filled(1)]
    {
      pt := pt[p := Junk(JUNK1)];
      data := data[p := Filled(1)];
      free := [p] + free;
      own := own[p := Free];
    }

    /** Give a page back: it must be in the caller's hands, not part of a table. */
    method PushFree(p: nat)
      requires Valid() && p in own && own[p] == Busy
      modifies `pt, `data, `free, `own
      ensures Valid()
      ensures free == [p] + old(free) && own == old(own)[p := Free]
      ensures pt == old(pt)[p := Junk(JUNK1)] && data == old(data)[p := Filled(1)]
      ensures SameLeaves(old(M()), M(), roots)
    {
      LoosePage(M(), roots, own, p, Junk(JUNK1), Free);
      Prepend(p);
    }

    /** memset(page, 0, PGSIZE) */
    method Clear(p: nat)
      requires Valid() && p in own && own[p] == Busy
      modifies `pt, `data
      ensures Valid()
      ensures pt == old(pt)[p := ZeroPage()] && data == old(data)[p := Zeroed]
      ensures SameLeaves(old(M()), M(), roots)
    {
      LoosePage(M(), roots, own, p, ZeroPage(), Busy);
      assert own[p := Busy] == own;
      pt := pt[p := ZeroPage()];
      data := data[p := Zeroed];
    }

    /** kalloc followed by memset(page, 0, PGSIZE). */
    method AllocZeroed() returns (p: nat)
      requires Valid()
      modifies `pt, `data, `free, `own
      ensures Valid() && SameLeaves(old(M()), M(), roots)
      ensures p == 0 <==> old(free) == []
      ensures p == 0 ==> Same(old(M()), old(own), old(free), old(data))
      ensures p != 0 ==> free == old(free)[1..] && p in old(own) && old(own)[p] == Free && own == old(own)[p := Busy]
      ensures p != 0 ==> pt == old(pt)[p := ZeroPage()] && data == old(data)[p := Zeroed]
    {
      ghost var m0 := M();
      p := PopFree();
      if p == 0 {
        return 0;
      }
      ghost var m1 := M();
      Clear(p);
      SameLeavesTrans(m0, m1, M(), roots);
    }

    /** walk's allocation of a table for the empty slot s. */
    method AllocTable(s: Slot, q: nat) returns (p: nat)
      requires Valid() && SlotOk(roots, s) && (s.Mid? || s.Leaf?) && q == Ref(M(), Parent(s))
      requires q in own && q != 0 && !V(Entry(M(), s))
      modifies `pt, `data, `free, `own
      ensures Valid() && SameLeaves(old(M()), M(), roots)
      ensures TablesGrew(old(own), old(data), own, data, s.r)
      ensures p != 0 ==> p == Ref(M(), s) && |free| == |old(free)| - 1
      ensures p == 0 ==> Same(old(M()), old(own), old(free), old(data)) && free == []
    {
      ghost var m0, own0, data0 := M(), own, data;
      p := AllocZeroed();
      if p == 0 {
        return 0;
      }
      ghost var m1 := M();
      SlotKept(m0, m1, roots, own0, p, s);
      LinkTable(s, q, p);
      SameLeavesTrans(m0, m1, M(), roots);
      OneTaken(own0, data0, own, data, p, s);
    }

    /** `*pte = PA2PTE(pagetable) | PTE_V` for a zeroed page p. */
    method LinkTable(s: Slot, q: nat, p: nat)
      requires Valid() && SlotOk(roots, s) && (s.Mid? || s.Leaf?) && q == Ref(M(), Parent(s)) && q in own && q != 0
      requires p in own && own[p] == Busy && pt[p] == ZeroPage() && !V(Entry(M(), s))
      modifies `pt, `own
      ensures Valid() && SameLeaves(old(M()), M(), roots) && p == Ref(M(), s) && own == old(own)[p := In(s)]
    {
      ghost var m1 := M();
      InsertTable(m1, roots, own, s, p);
      pt := pt[q := pt[q][Index(s) := Pte(p, 1)]];
      own := own[p := In(s)];
      assert M() == Put(m1, q, Index(s), Pte(p, 1));
    }

    /** One level of walk: the table that slot s, in table page q, refers to; allocated if asked. */
    method WalkStep(s: Slot, q: nat, alloc: bool) returns (p: nat)
      requires Valid() && SlotOk(roots, s) && (s.Mid? || s.Leaf?) && q == Ref(M(), Parent(s)) && q != 0
      modifies `pt, `data, `free, `own
      ensures Valid() && SameLeaves(old(M()), M(), roots)
      ensures TablesGrew(old(own), old(data), own, data, s.r)
      ensures p == Ref(M(), s) && |free| >= |old(free)| - 1
      ensures p == 0 ==> Same(old(M()), old(own), old(free), old(data))
      ensures p == 0 && alloc ==> free == []
      ensures !alloc ==> Same(old(M()), old(own), old(free), old(data))
    {
      assert q in own && own[q] == In(Parent(s));
      var e := pt[q][Index(s)];
      assert e == Entry(M(), s);
      if V(e) {
        return e.frame;
      }
      if !alloc {
        return 0;
      }
      p := AllocTable(s, q);
    }

    /** The same, later in a walk that began in the state given. */
    method WalkOn(s: Slot, q: nat, alloc: bool, ghost m0: Vm, ghost own0: map<nat, Owner>, ghost data0: seq<Data>)
      returns (p: nat)
      requires Valid() && SlotOk(roots, s) && (s.Mid? || s.Leaf?) && q == Ref(M(), Parent(s)) && q != 0
      requires SameLeaves(m0, M(), roots) && TablesGrew(own0, data0, own, data, s.r)
      modifies `pt, `data, `free, `own
      ensures Valid() && SameLeaves(m0, M(), roots) && TablesGrew(own0, data0, own, data, s.r)
      ensures p == Ref(M(), s) && |free| >= |old(free)| - 1 && (p == 0 && alloc ==> old(free) == free == [])
      ensures !alloc ==> Same(old(M()), old(own), old(free), old(data))
    {
      ghost var m1, own1, data1 := M(), own, data;
      p := WalkStep(s, q, alloc);
      SameLeavesTrans(m0, m1, M(), roots);
      TablesGrewTrans(own0, data0, own1, data1, own, data, s.r);
    }

    /** The leaf table page for va in table r, 0 if there is none and none could be made. */
    method Walk(r: nat, va: nat, alloc: bool) returns (p: nat)
      requires Valid() && r in roots && va < MAXVA
      modifies `pt, `data, `free, `own
      ensures Valid() && SameLeaves(old(M()), M(), roots)
      ensures TablesGrew(old(own), old(data), own, data, r)
      ensures p == Ref(M(), SlotAt(r, va, 1)) && |free| >= |old(free)| - 2
      ensures p == 0 && alloc ==> free == [] && |old(free)| <= 1
      ensures !alloc ==> Same(old(M()), old(own), old(free), old(data))
    {
      ghost var m0, own0, free0, data0 := M(), own, free, data;
      p := r;
      assert SlotOk(roots, Root(r)) && Ref(M(), Root(r)) == r;
      var level := 2;
      while level > 0
        invariant 0 <= level <= 2 && Valid() && p != 0
        invariant p == Ref(M(), SlotAt(r, va, level + 1))
        invariant SameLeaves(m0, M(), roots) && TablesGrew(own0, data0, own, data, r)
        invariant !alloc ==> Same(m0, own0, free0, data0)
        invariant |free| >= |free0| - (2 - level)
      {
        p := WalkOn(SlotAt(r, va, level), p, alloc, m0, own0, data0);
        if p == 0 {
          return 0;
        }
        level := level - 1;
      }
    }

    /** `*pte = e` in leaf table p: the page changes hands between the slot and the caller. */
    method StoreLeaf(s: Slot, p: nat, e: Pte)
      requires Valid() && SlotOk(roots, s) && s.User? && p == Ref(M(), Parent(s)) && p != 0
      requires EntryOk(s, e) && V(e) != V(Entry(M(), s))
      requires V(e) && !Special(s) ==> e.frame in own && own[e.frame] == Busy
      modifies `pt, `own
      ensures Valid() && OneLeaf(old(M()), M(), roots, s, e)
      ensures Special(s) ==> own == old(own)
      ensures !Special(s) && V(e) ==> own == old(own)[e.frame := In(s)]
      ensures !Special(s) && !V(e) ==> var f := Entry(old(M()), s).frame;
        f in old(own) && old(own)[f] == In(s) && own == old(own)[f := Busy]
    {
      ghost var m0 := M();
      assert SlotOk(roots, Parent(s)) && p in own;
      PutLeaf(m0, roots, own, s, e);
      pt := pt[p := pt[p][s.i0 := e]];
      assert M() == Put(m0, p, s.i0, e);
      if !Special(s) {
        own := if V(e) then own[e.frame := In(s)] else own[Entry(m0, s).frame := Busy];
      }
    }

    /** One page of mappages: enter frame for va; false if a table page could not be had. */
    method EnterPage(r: nat, va: nat, frame: nat, perm: nat) returns (ok: bool)
      requires Valid() && r in roots && va < MAXVA
      requires frame > 0 && Rwx(Pte(frame, perm)) && !V(Entry(M(), UserSlot(r, va)))
      requires !Special(UserSlot(r, va)) ==> frame in own && own[frame] == Busy
      modifies `pt, `data, `free, `own
      ensures Valid()
      ensures ok ==> OneLeaf(old(M()), M(), roots, UserSlot(r, va), Pte(frame, OrV(perm)))
      ensures !ok ==> SameLeaves(old(M()), M(), roots) && free == [] && |old(free)| <= 1
      ensures |free| >= |old(free)| - 2
      ensures ok && !Special(UserSlot(r, va)) ==> frame in own && own[frame] == In(UserSlot(r, va))
      ensures TablesGrew(old(own), old(data),
                         if ok && !Special(UserSlot(r, va)) then own[frame := Busy] else own, data, r)
    {
      var s := UserSlot(r, va);
      ghost var m0 := M();
      assert SlotOk(roots, s);
      var p := Walk(r, va, true);
      if p == 0 {
        return false;
      }
      ghost var m1, own1 := M(), own;
      OrVLeaf(frame, perm);
      StoreLeaf(s, p, Pte(frame, OrV(perm)));
      OneLeafAfter(m0, m1, M(), roots, s, Pte(frame, OrV(perm)));
      if !Special(s) {
        UpdateBack(own1, frame, In(s));
      }
      return true;
    }

    /** Empty a leaf entry in use and free its page if told to. */
    method ClearLeaf(s: Slot, p: nat, frame: nat, doFree: bool)
      requires Valid() && SlotOk(roots, s) && s.User? && p == Ref(M(), Parent(s)) && p != 0
      requires V(Entry(M(), s)) && frame == Entry(M(), s).frame && doFree == !Special(s)
      modifies `pt, `data, `free, `own
      ensures Valid() && OneLeaf(old(M()), M(), roots, s, NONE)
      ensures Special(s) ==> own == old(own)
      ensures !Special(s) ==> frame == Ref(old(M()), s) && frame in old(own) && own == old(own)[frame := Free]
      ensures forall x :: 0 <= x < |data| && (x in own ==> own[x] != Free) ==> data[x] == old(data)[x]
      ensures |data| == |old(data)|
    {
      ghost var m0 := M();
      StoreLeaf(s, p, NONE);
      if doFree {
        ghost var m1 := M();
        PushFree(frame);
        OneLeafThen(m0, m1, M(), roots, s, NONE);
      }
    }

    /** One page of uvmunmap: empty the entry for va, and free the page it mapped if told to. */
    method RemovePage(r: nat, va: nat, doFree: bool)
      requires Valid() && r in roots && va < MAXVA && doFree == !Special(UserSlot(r, va))
      modifies `pt, `data, `free, `own
      ensures Valid() && OneLeaf(old(M()), M(), roots, UserSlot(r, va), NONE)
      ensures var f := Ref(old(M()), UserSlot(r, va)); own == if f == 0 then old(own) else old(own)[f := Free]
      ensures forall p :: 0 <= p < |data| && (p in own ==> own[p] != Free) ==> data[p] == old(data)[p]
      ensures |data| == |old(data)|
    {
      var s := UserSlot(r, va);
      ghost var m0 := M();
      assert SlotOk(roots, s) && SlotOk(roots, Parent(s));
      var p := Walk(r, va, false);
      if p == 0 {
        return;
      }
      assert p in own;
      var e := pt[p][PX(0, va)];
      assert e == Entry(m0, s);
      if !V(e) {
        return;
      }
      ClearLeaf(s, p, e.frame, doFree);
    }

    // ----- The same operations on the finite maps -----

    /** kalloc: a page off the free list, filled with junk; 0 if there is none. */
    method Kalloc() returns (p: nat)
      requires Ok()
      modifies `pt, `data, `free, `own, `busy
      ensures Ok() && DataKept(old(free), old(data), free, data)
      ensures p == 0 <==> old(free) == []
      ensures p == 0 ==> busy == old(busy) && free == old(free)
      ensures p != 0 ==> p in old(free) && p !in old(busy) && busy == old(busy) + {p}
      ensures p != 0 ==> p !in free && free == old(free)[1..]
      ensures p != 0 ==> p < |data|
    {
      ghost var m0, own0 := M(), own;
      p := PopFree();
      MapsSame(m0, M(), roots, maps);
      if p != 0 {
        busy := busy + {p};
      }
    }

    /** kfree of a page in the caller's hands. */
    method Kfree(p: nat)
      requires Ok() && p in busy
      modifies `pt, `data, `free, `own, `busy
      ensures Ok() && DataKept(old(free), old(data), free, data)
      ensures busy == old(busy) - {p} && free == [p] + old(free)
    {
      ghost var m0 := M();
      PushFree(p);
      MapsSame(m0, M(), roots, maps);
      busy := busy - {p};
    }

    /** Enter frame for va in table r; false, with the map unchanged, if a table page could not be had. */
    method MapPage(r: nat, va: nat, frame: nat, perm: nat) returns (ok: bool)
      requires Ok() && r in maps && va < MAXVA && va % PGSIZE == 0 && va !in maps[r]
      requires frame > 0 && Rwx(Pte(frame, perm)) && (va < TRAPFRAME ==> frame in busy)
      modifies `pt, `data, `free, `own, `maps, `busy
      ensures Ok() && DataKept(old(free), old(data), free, data) && Within(free, old(free))
      ensures !ok ==> maps == old(maps) && busy == old(busy) && free == [] && |old(free)| <= 1
      ensures |free| >= |old(free)| - 2
      ensures ok ==> maps == old(maps)[r := Insert(old(maps)[r], va, Pte(frame, OrV(perm)))]
      ensures ok ==> busy == if va < TRAPFRAME then old(busy) - {frame} else old(busy)
    {
      ghost var m0, own0, data0 := M(), own, data;
      LeafEntry(m0, roots, maps, r, va);
      SpecialPages(r, va);
      ok := EnterPage(r, va, frame, perm);
      if ok && va < TRAPFRAME {
        BusyMapped(own0, data0, own, data, r, frame);
      } else {
        BusySame(own0, data0, own, data, r);
      }
      if ok {
        OrVLeaf(frame, perm);
        MapsOne(m0, M(), roots, maps, r, va, Pte(frame, OrV(perm)));
        maps := maps[r := Insert(maps[r], va, Pte(frame, OrV(perm)))];
        if va < TRAPFRAME {
          busy := busy - {frame};
        }
      } else {
        MapsSame(m0, M(), roots, maps);
      }
    }

    /** Take va out of table r, and free the page it mapped if told to. */
    method UnmapPage(r: nat, va: nat, doFree: bool)
      requires Ok() && r in maps && va < MAXVA && va % PGSIZE == 0 && doFree == (va < TRAPFRAME)
      modifies `pt, `data, `free, `own, `maps
      ensures Ok() && DataKept(old(free), old(data), free, data) && Within(old(free), free)
      ensures maps == old(maps)[r := Drop(old(maps)[r], va)]
    {
      ghost var m0 := M();
      SpecialPages(r, va);
      assert SlotOk(roots, UserSlot(r, va));
      if Ref(m0, UserSlot(r, va)) != 0 {
        BusyFreed(m0, roots, own, UserSlot(r, va));
      }
      RemovePage(r, va, doFree);
      MapsOne(m0, M(), roots, maps, r, va, NONE);
      maps := maps[r := Drop(maps[r], va)];
    }

    /** memset(page, 0, PGSIZE) of a page in the caller's hands. */
    method Memzero(p: nat)
      requires Ok() && p in busy
      modifies `pt, `data
      ensures Ok() && p < |old(data)| && data == old(data)[p := Zeroed] && pt == old(pt)[p := ZeroPage()]
    {
      ghost var m0 := M();
      Clear(p);
      MapsSame(m0, M(), roots, maps);
    }

    /** memmove(dst, src, PGSIZE) into a page in the caller's hands. */
    method CopyPage(dst: nat, src: nat)
      requires Ok() && dst in busy && src < hi
      modifies `pt, `data
      ensures Ok() && dst < |old(data)| && src < |old(data)| && data == old(data)[dst := old(data)[src]]
    {
      ghost var m0 := M();
      LoosePage(m0, roots, own, dst, pt[src], Busy);
      assert own[dst := Busy] == own;
      pt := pt[dst := pt[src]];
      data := data[dst := data[src]];
      MapsSame(m0, M(), roots, maps);
    }

    /** uvmcreate: an empty table; 0 if out of memory. */
    method Uvmcreate() returns (p: nat)
      requires Ok()
      modifies `pt, `data, `free, `own, `roots, `maps, `busy
      ensures Ok() && DataKept(old(free), old(data), free, data)
      ensures busy == old(busy) && Within(free, old(free))
      ensures p == 0 ==> maps == old(maps) && old(free) == free == []
      ensures |free| >= |old(free)| - 1
      ensures p != 0 ==> p !in old(maps) && maps == old(maps)[p := map[]]
    {
      p := Kalloc();
      if p == 0 {
        return;
      }
      Memzero(p);
      NewRoot(M(), roots, own, p);
      MapsNewRoot(M(), roots, maps, p);
      roots := roots + {p};
      maps := maps[p := map[]];
      own := own[p := In(Root(p))];
      busy := busy - {p};
    }

    /** walk without allocation, and the entry it finds: NONE if there is no mapping. */
    method Lookup(r: nat, va: nat) returns (e: Pte)
      requires Ok() && r in maps && va < MAXVA && va % PGSIZE == 0
      modifies `pt, `data, `free, `own
      ensures Ok() && Same(old(M()), old(own), old(free), old(data))
      ensures va in maps[r] ==> e == maps[r][va] && V(e)
      ensures va !in maps[r] ==> !V(e)
    {
      ghost var s := UserSlot(r, va);
      LeafEntry(M(), roots, maps, r, va);
      assert SlotOk(roots, Parent(s));
      var p := Walk(r, va, false);
      if p == 0 {
        return NONE;
      }
      assert p in own;
      e := pt[p][PX(0, va)];
      assert e == Entry(M(), s);
    }
  }
}
