/**
 The memory of processes over their whole lives: allocproc, freeproc, growproc and the fork of an address space
 (kernel/proc.c), sbrk (kernel/sysproc.c) and page faults (kernel/vm.c), in any order and by any number of
 processes.  Whatever they do, and wherever memory runs out, every page comes back when they are gone.
 */
module ProcessMemory {
  import opened Folding
  import opened PageTables
  import opened Paging
  import opened UserMemory
  import opened TableTeardown

  /** p->pagetable, p->sz and p->trapframe. */
  datatype Proc = Proc(table: nat, sz: nat, trapframe: nat)

  /** An address space of sz bytes: nothing is mapped beyond it but the kernel's two pages. */
  ghost predicate Space(f: map<nat, Pte>, sz: nat) {
    forall k {:trigger Open(k)} :: Open(k) ==>
      sz <= TRAPFRAME && forall x :: x in f ==> x < RoundUp(sz) || x == TRAPFRAME || x == TRAMPOLINE
  }

  /** Which process has which table, and which trapframe page: no two have the same. */
  datatype Holders = Holders(tables: map<nat, nat>, frames: map<nat, nat>)

  ghost predicate ProcOk(maps: map<nat, map<nat, Pte>>, hs: Holders, i: nat, p: Proc) {
    && p.table in hs.tables && hs.tables[p.table] == i && p.trapframe in hs.frames && hs.frames[p.trapframe] == i
    && p.table in maps && Space(maps[p.table], p.sz)
  }

  /** Beside the tables `rest` and the pages `idle` there are just those of the processes, each with its own. */
  ghost predicate Exact(maps: map<nat, map<nat, Pte>>, busy: set<nat>, rest: map<nat, map<nat, Pte>>, idle: set<nat>,
                        procs: map<nat, Proc>, hs: Holders) {
    && (forall i :: i in procs ==> ProcOk(maps, hs, i, procs[i]))
    && (forall r :: TableOk(maps, rest, procs, hs, r)) && (forall t :: FrameOk(busy, idle, procs, hs, t))
  }

  /** Table r is one of the rest, as it was, or belongs to the process that hs names. */
  ghost predicate TableOk(maps: map<nat, map<nat, Pte>>, rest: map<nat, map<nat, Pte>>, procs: map<nat, Proc>,
                          hs: Holders, r: nat) {
    && (r in maps <==> r in rest || r in hs.tables) && (r in rest ==> r in maps && maps[r] == rest[r])
    && (r in hs.tables ==> r !in rest && hs.tables[r] in procs && procs[hs.tables[r]].table == r)
  }

  ghost predicate FrameOk(busy: set<nat>, idle: set<nat>, procs: map<nat, Proc>, hs: Holders, t: nat) {
    && (t in busy <==> t in idle || t in hs.frames)
    && (t in hs.frames ==> t !in idle && hs.frames[t] in procs && procs[hs.frames[t]].trapframe == t)
  }

  ghost predicate Inv(maps: map<nat, map<nat, Pte>>, busy: set<nat>, rest: map<nat, map<nat, Pte>>, idle: set<nat>,
                      procs: map<nat, Proc>, hs: Holders) {
    forall k {:trigger Unfold(k)} :: Unfold(k) ==> Exact(maps, busy, rest, idle, procs, hs)
  }

  ghost function Join(hs: Holders, i: nat, p: Proc): Holders {
    Holders(hs.tables[p.table := i], hs.frames[p.trapframe := i])
  }

  ghost function Leave(hs: Holders, p: Proc): Holders {
    Holders(hs.tables - {p.table}, hs.frames - {p.trapframe})
  }

  // ----- What each call does to the invariant -----

  lemma InvStart(maps: map<nat, map<nat, Pte>>, busy: set<nat>)
    ensures Inv(maps, busy, maps, busy, map[], Holders(map[], map[]))
  {
  }

  /** Without processes, only what was there before is left. */
  lemma InvEnd(maps: map<nat, map<nat, Pte>>, busy: set<nat>, rest: map<nat, map<nat, Pte>>,
               idle: set<nat>, hs: Holders)
    requires Inv(maps, busy, rest, idle, map[], hs)
    ensures maps == rest && busy == idle
  {
    assert Unfold(KEY);
    forall r ensures r in maps <==> r in rest {
      assert TableOk(maps, rest, map[], hs, r);
    }
    forall r | r in rest ensures maps[r] == rest[r] {
      assert TableOk(maps, rest, map[], hs, r);
    }
    forall t ensures t in busy <==> t in idle {
      assert FrameOk(busy, idle, map[], hs, t);
    }
  }

  /** What the invariant says of one process. */
  lemma ProcAt(maps: map<nat, map<nat, Pte>>, busy: set<nat>, rest: map<nat, map<nat, Pte>>, idle: set<nat>,
               procs: map<nat, Proc>, hs: Holders, i: nat)
    requires Inv(maps, busy, rest, idle, procs, hs) && i in procs
    ensures var p := procs[i]; p.table in maps && p.trapframe in busy && Space(maps[p.table], p.sz)
    ensures forall j :: j in procs && j != i ==> procs[j].table != procs[i].table
  {
    assert Unfold(KEY);
    assert ProcOk(maps, hs, i, procs[i]);
    assert FrameOk(busy, idle, procs, hs, procs[i].trapframe);
    forall j | j in procs && j != i ensures procs[j].table != procs[i].table {
      assert ProcOk(maps, hs, j, procs[j]);
    }
  }

  lemma Added(maps: map<nat, map<nat, Pte>>, busy: set<nat>, rest: map<nat, map<nat, Pte>>, idle: set<nat>,
              procs: map<nat, Proc>, hs: Holders, i: nat, p: Proc, f: map<nat, Pte>)
    requires Inv(maps, busy, rest, idle, procs, hs) && i !in procs && p.table !in maps && p.trapframe !in busy
    requires Space(f, p.sz)
    ensures Inv(maps[p.table := f], busy + {p.trapframe}, rest, idle, procs[i := p], Join(hs, i, p))
  {
    assert Unfold(KEY);
    var maps', busy', hs', procs' := maps[p.table := f], busy + {p.trapframe}, Join(hs, i, p), procs[i := p];
    assert TableOk(maps, rest, procs, hs, p.table) && FrameOk(busy, idle, procs, hs, p.trapframe);
    forall j | j in procs' ensures ProcOk(maps', hs', j, procs'[j]) {
      assert j != i ==> ProcOk(maps, hs, j, procs[j]);
    }
    forall r ensures TableOk(maps', rest, procs', hs', r) {
      assert TableOk(maps, rest, procs, hs, r);
    }
    forall t ensures FrameOk(busy', idle, procs', hs', t) {
      assert FrameOk(busy, idle, procs, hs, t);
    }
  }

  lemma Removed(maps: map<nat, map<nat, Pte>>, busy: set<nat>, rest: map<nat, map<nat, Pte>>, idle: set<nat>,
                procs: map<nat, Proc>, hs: Holders, i: nat)
    requires Inv(maps, busy, rest, idle, procs, hs) && i in procs
    ensures var p := procs[i];
      Inv(maps - {p.table}, busy - {p.trapframe}, rest, idle, procs - {i}, Leave(hs, p))
  {
    assert Unfold(KEY);
    var p := procs[i];
    var maps', busy', hs', procs' := maps - {p.table}, busy - {p.trapframe}, Leave(hs, p), procs - {i};
    assert ProcOk(maps, hs, i, p);
    forall j | j in procs' ensures ProcOk(maps', hs', j, procs'[j]) {
      assert ProcOk(maps, hs, j, procs[j]);
    }
    forall r ensures TableOk(maps', rest, procs', hs', r) {
      assert TableOk(maps, rest, procs, hs, r);
    }
    forall t ensures FrameOk(busy', idle, procs', hs', t) {
      assert FrameOk(busy, idle, procs, hs, t);
    }
  }

  /** A process changes its own table and size. */
  lemma Changed(maps: map<nat, map<nat, Pte>>, busy: set<nat>, rest: map<nat, map<nat, Pte>>, idle: set<nat>,
                procs: map<nat, Proc>, hs: Holders, i: nat, f: map<nat, Pte>, sz: nat)
    requires Inv(maps, busy, rest, idle, procs, hs) && i in procs && Space(f, sz)
    ensures Inv(maps[procs[i].table := f], busy, rest, idle, procs[i := procs[i].(sz := sz)], hs)
  {
    assert Unfold(KEY);
    var maps', procs' := maps[procs[i].table := f], procs[i := procs[i].(sz := sz)];
    assert ProcOk(maps, hs, i, procs[i]);
    forall j | j in procs' ensures ProcOk(maps', hs, j, procs'[j]) {
      assert ProcOk(maps, hs, j, procs[j]);
    }
    forall r ensures TableOk(maps', rest, procs', hs, r) {
      assert TableOk(maps, rest, procs, hs, r);
    }
    forall t ensures FrameOk(busy, idle, procs', hs, t) {
      assert FrameOk(busy, idle, procs, hs, t);
    }
  }

  // ----- Address spaces -----

  lemma KernelSpace(trampoline: nat, trapframe: nat)
    ensures Space(KernelPages(trampoline, trapframe), 0)
  {
  }

  lemma SpaceBelow(f: map<nat, Pte>, sz: nat)
    requires Space(f, sz)
    ensures sz <= RoundUp(sz) <= TRAPFRAME && Below(f, RoundUp(sz))
    ensures forall x :: x in f ==> x < RoundUp(sz) || x == TRAPFRAME || x == TRAMPOLINE
  {
    assert Open(KEY);
    RoundUpMono(sz, TRAPFRAME);
  }

  lemma SpaceGrown(f: map<nat, Pte>, f': map<nat, Pte>, sz: nat, newsz: nat, flags: nat)
    requires Space(f, sz) && sz <= newsz <= TRAPFRAME
    requires GrownBy(f, f', RoundUp(sz), Max(RoundUp(sz), RoundUp(newsz)), flags)
    ensures Space(f', newsz)
  {
    assert Open(KEY);
    RoundUpMono(sz, newsz);
  }

  lemma SpaceLarger(f: map<nat, Pte>, sz: nat, newsz: nat)
    requires Space(f, sz) && sz <= newsz <= TRAPFRAME
    ensures Space(f, newsz)
  {
    assert Open(KEY);
    RoundUpMono(sz, newsz);
  }

  lemma SpaceCut(f: map<nat, Pte>, sz: nat, newsz: nat)
    requires Space(f, sz) && newsz <= sz
    ensures Space(Cut(f, RoundUp(newsz), RoundUp(sz)), newsz)
  {
    assert Open(KEY);
    RoundUpMono(sz, newsz);
  }

  lemma SpaceShrunk(f: map<nat, Pte>, sz: nat, newsz: nat, sz': nat)
    requires Space(f, sz) && sz' == if newsz < sz then newsz else sz
    ensures Space(Cut(f, RoundUp(newsz), RoundUp(sz)), sz')
  {
    if newsz < sz {
      SpaceCut(f, sz, newsz);
    } else {
      RoundUpMono(sz, newsz);
      assert Cut(f, RoundUp(newsz), RoundUp(sz)) == f;
    }
  }

  lemma SpaceFault(f: map<nat, Pte>, sz: nat, va: nat, e: Pte)
    requires Space(f, sz) && va < sz
    ensures Space(Insert(f, va / PGSIZE * PGSIZE, e), sz)
  {
    assert Open(KEY);
    RoundUpMono(sz, sz);
  }

  lemma SpaceCopied(f: map<nat, Pte>, g: map<nat, Pte>, g': map<nat, Pte>, sz: nat)
    requires Space(g, 0) && sz <= TRAPFRAME
    requires forall x :: x in g' ==> x in g || (x < RoundUp(sz) && x in f)
    ensures Space(g', sz)
  {
    assert Open(KEY);
    assert RoundUp(0) == 0;
  }

  /**
   The addresses below end that map f has are those that g has, with the same flags and contents, in pages that were
   free before; the pages of f keep their contents.
   */
  ghost predicate Twin(f: map<nat, Pte>, free0: seq<nat>, data0: seq<Data>, g: map<nat, Pte>, data: seq<Data>, end: nat)
  {
    && (forall x :: x < end ==> (x in g <==> x in f))
    && (forall x :: x in f && x < end ==>
          && x in g && CopyOf(f[x], data0, g[x], data, free0)
          && f[x].frame < |data| && data[f[x].frame] == data0[f[x].frame])
  }

  /** A copy made after other pages were allocated is one of the state before. */
  lemma TwinOf(maps0: map<nat, map<nat, Pte>>, free0: seq<nat>, data0: seq<Data>,
               maps1: map<nat, map<nat, Pte>>, free1: seq<nat>, data1: seq<Data>,
               maps: map<nat, map<nat, Pte>>, free: seq<nat>, data: seq<Data>, from: nat, to: nat, end: nat)
    requires from in maps0 && from in maps1 && maps1[from] == maps0[from] && end <= TRAPFRAME
    requires DataKept(free0, data0, free1, data1) && Within(free1, free0)
    requires Copying(maps1, free1, data1, maps, free, data, from, to, end)
    requires forall x :: x in maps1[to] ==> x >= TRAPFRAME
    requires forall x :: x in maps0[from] && x < TRAPFRAME ==>
      maps0[from][x].frame !in free0 && maps0[from][x].frame < |data0|
    ensures Twin(maps0[from], free0, data0, maps[to], data, end)
  {
    var f, g := maps0[from], maps[to];
    forall x | x in f && x < end
      ensures x in g && CopyOf(f[x], data0, g[x], data, free0)
      ensures f[x].frame < |data| && data[f[x].frame] == data0[f[x].frame]
    {
      assert CopyOf(maps1[from][x], data1, g[x], data, free1);
    }
  }

  /** What a process may ask for; j is the slot that allocproc finds. */
  datatype Call =
    | Spawn(j: nat)
    | Fork(i: nat, j: nat)
    | Sbrk(i: nat, n: int, lazy: bool)
    | Fault(i: nat, va: nat)
    | Exit(i: nat)

  const U64: nat := 0x1_0000_0000_0000_0000
  const INTMAX: int := 0x7FFF_FFFF
  const INTMIN: int := -0x8000_0000

  /** A fault at va: a zeroed page is mapped there if it lies in the process and is not mapped, and nothing else. */
  ghost predicate Faulted(maps0: map<nat, map<nat, Pte>>, free0: nat,
                          maps: map<nat, map<nat, Pte>>, data: seq<Data>, r: nat, sz: nat, va: nat) {
    r in maps0 && var a := va / PGSIZE * PGSIZE;
    if va >= sz || a in maps0[r] then maps == maps0
    else if r in maps && a in maps[r] then
      var e := maps[r][a];
      && maps == maps0[r := Insert(maps0[r], a, e)] && e.flags == OrV(PTE_W + PTE_U + PTE_R)
      && e.frame < |data| && data[e.frame] == Zeroed
    else maps == maps0 && free0 <= 2
  }

  /** Table r has lost exactly its pages from newsz to oldsz, which are free now; no other page changed. */
  ghost predicate Shrunk(maps0: map<nat, map<nat, Pte>>, free0: seq<nat>, data0: seq<Data>,
                         maps: map<nat, map<nat, Pte>>, free: seq<nat>, data: seq<Data>,
                         r: nat, newsz: nat, oldsz: nat) {
    && r in maps0 && maps == maps0[r := Cut(maps0[r], RoundUp(newsz), RoundUp(oldsz))]
    && DataKept(free0, data0, free, data) && Within(free0, free)
  }

  /** A new size beyond the old one cuts nothing. */
  lemma CutSame(f: map<nat, Pte>, newsz: nat, oldsz: nat)
    ensures newsz > oldsz ==> Cut(f, RoundUp(newsz), RoundUp(oldsz)) == Cut(f, RoundUp(oldsz), RoundUp(oldsz)) == f
  {
    if newsz > oldsz {
      RoundUpMono(oldsz, newsz);
    }
  }

  /** sz - n in 64 bits. */
  function Subtract(sz: nat, n: nat): (r: nat)
    requires sz <= TRAPFRAME && 0 < n <= -INTMIN
    ensures if n <= sz then r == sz - n else r > sz
  {
    (sz + U64 - n) % U64
  }

  class Processes {
    const mem: Memory
    const trampoline: nat
    var procs: map<nat, Proc>
    ghost var hs: Holders
    /** What was there before. */
    ghost var rest: map<nat, map<nat, Pte>>
    ghost var idle: set<nat>

    ghost predicate Valid()
      reads this, mem
    {
      mem.Ok() && trampoline > 0 && Inv(mem.maps, mem.busy, rest, idle, procs, hs)
    }

    constructor (m: Memory, t: nat)
      requires m.Ok() && t > 0
      ensures Valid() && mem == m && procs == map[] && rest == m.maps && idle == m.busy
    {
      InvStart(m.maps, m.busy);
      mem, trampoline := m, t;
      procs, hs, rest, idle := map[], Holders(map[], map[]), m.maps, m.busy;
    }

    /** allocproc's memory: a trapframe page and a table with the kernel's two pages; all or nothing. */
    method AllocProc(j: nat) returns (ok: bool)
      requires Valid() && j !in procs
      modifies mem, `procs, `hs
      ensures Valid()
      ensures !ok ==> procs == old(procs) && mem.maps == old(mem.maps) && mem.busy == old(mem.busy)
      ensures if ok then |mem.free| >= |old(mem.free)| - 6 else |old(mem.free)| <= 5
      ensures ok ==> j in procs && procs == old(procs)[j := procs[j]] && procs[j].sz == 0
      ensures ok ==> procs[j].table !in old(mem.maps)
      ensures ok ==> mem.maps == old(mem.maps)[procs[j].table := KernelPages(trampoline, procs[j].trapframe)]
      ensures ok ==> DataKept(old(mem.free), old(mem.data), mem.free, mem.data) && Within(mem.free, old(mem.free))
    {
      ghost var maps0, busy0, free0, data0 := mem.maps, mem.busy, mem.free, mem.data;
      var trapframe := mem.Kalloc();
      if trapframe == 0 {
        return false;
      }
      ghost var free1, data1 := mem.free, mem.data;
      var table := ProcPagetable(mem, trampoline, trapframe);
      if table == 0 {
        mem.Kfree(trapframe);
        assert mem.busy == busy0;
        return false;
      }
      DataKeptTrans(free0, data0, free1, data1, mem.free, mem.data);
      var p := Proc(table, 0, trapframe);
      KernelSpace(trampoline, trapframe);
      Added(maps0, busy0, rest, idle, procs, hs, j, p, KernelPages(trampoline, trapframe));
      procs, hs := procs[j := p], Join(hs, j, p);
      return true;
    }

    /** freeproc's memory. */
    method FreeProc(i: nat)
      requires Valid() && i in procs
      modifies mem, `procs, `hs
      ensures Valid() && procs == old(procs) - {i}
      ensures mem.maps == old(mem.maps) - {old(procs)[i].table} && mem.busy == old(mem.busy) - {old(procs)[i].trapframe}
    {
      var p := procs[i];
      ghost var maps0, busy0 := mem.maps, mem.busy;
      ProcAt(maps0, mem.busy, rest, idle, procs, hs, i);
      SpaceBelow(maps0[p.table], p.sz);
      mem.Kfree(p.trapframe);
      ProcFreepagetable(mem, p.table, p.sz);
      Removed(maps0, busy0, rest, idle, procs, hs, i);
      procs, hs := procs - {i}, Leave(hs, p);
    }

    /** The user pages of a process are in use. */
    lemma UserPages(i: nat)
      requires Valid() && i in procs
      ensures var p := procs[i];
        && p.table in mem.maps && RoundUp(p.sz) <= TRAPFRAME
        && forall x :: x in mem.maps[p.table] && x < TRAPFRAME ==>
             mem.maps[p.table][x].frame !in mem.free && mem.maps[p.table][x].frame < |mem.data|
    {
      ProcAt(mem.maps, mem.busy, rest, idle, procs, hs, i);
      SpaceBelow(mem.maps[procs[i].table], procs[i].sz);
      MappedNotFree(mem.M(), mem.roots, mem.own, mem.maps, mem.free, procs[i].table);
    }

    /**
     The address-space part of kfork: the child has the parent's memory, in pages of its own.  It does not fail while
     six pages are free, and three more for each page of the parent.
     */
    method Fork(i: nat, j: nat) returns (ok: bool)
      requires Valid() && i in procs && j !in procs
      modifies mem, `procs, `hs
      ensures Valid()
      ensures !ok ==> procs == old(procs) && mem.maps == old(mem.maps)
      ensures !ok ==> |old(mem.free)| <= 5 || TooFew(|old(mem.free)| - 6, RoundUp(procs[i].sz))
      ensures ok ==> j in procs && procs == old(procs)[j := procs[j]] && procs[j].sz == procs[i].sz
      ensures ok ==> procs[i].table in old(mem.maps) && procs[j].table in mem.maps
      ensures ok ==> mem.maps == old(mem.maps)[procs[j].table := mem.maps[procs[j].table]]
      ensures ok ==> Twin(old(mem.maps)[procs[i].table], old(mem.free), old(mem.data),
                          mem.maps[procs[j].table], mem.data, RoundUp(procs[i].sz))
    {
      ghost var maps0, procs0, free0, data0 := mem.maps, procs, mem.free, mem.data;
      ghost var from := procs[i].table;
      UserPages(i);
      ok := AllocProc(j);
      if !ok {
        return;
      }
      ghost var maps1, free1, data1 := mem.maps, mem.free, mem.data;
      ok := CopyOrFree(i, j, procs0, maps0);
      if !ok {
        return;
      }
      TwinOf(maps0, free0, data0, maps1, free1, data1, mem.maps, mem.free, mem.data,
        from, procs[j].table, RoundUp(procs[i].sz));
    }

    /** The copy, and freeproc if it fails. */
    method CopyOrFree(i: nat, j: nat, ghost procs0: map<nat, Proc>, ghost maps0: map<nat, map<nat, Pte>>)
      returns (ok: bool)
      requires Valid() && i in procs0 && j !in procs0 && j in procs && procs == procs0[j := procs[j]]
      requires procs[j].sz == 0 && procs[j].table in mem.maps && procs[j].table !in maps0
      requires mem.maps == maps0[procs[j].table := mem.maps[procs[j].table]]
      modifies mem, `procs, `hs
      ensures Valid()
      ensures !ok ==> procs == procs0 && mem.maps == maps0 && TooFew(|old(mem.free)|, RoundUp(procs0[i].sz))
      ensures ok ==> procs == old(procs)[j := old(procs)[j].(sz := old(procs)[i].sz)]
      ensures ok ==> Copying(old(mem.maps), old(mem.free), old(mem.data), mem.maps, mem.free, mem.data,
                             procs[i].table, procs[j].table, RoundUp(procs[i].sz))
    {
      ok := CopyInto(i, j);
      if !ok {
        FreeProc(j);
        assert procs == procs0 && mem.maps == maps0;
      }
    }

    /** uvmcopy from process i into the fresh process j, and np->sz = p->sz. */
    method CopyInto(i: nat, j: nat) returns (ok: bool)
      requires Valid() && i in procs && j in procs && i != j && procs[j].sz == 0
      modifies mem, `procs
      ensures Valid()
      ensures !ok ==> procs == old(procs) && mem.maps == old(mem.maps)
      ensures !ok ==> TooFew(|old(mem.free)|, RoundUp(procs[i].sz))
      ensures ok ==> procs == old(procs)[j := old(procs)[j].(sz := old(procs)[i].sz)]
      ensures ok ==> Copying(old(mem.maps), old(mem.free), old(mem.data), mem.maps, mem.free, mem.data,
                             procs[i].table, procs[j].table, RoundUp(procs[i].sz))
    {
      var p, np := procs[i], procs[j];
      ghost var maps0 := mem.maps;
      ProcAt(maps0, mem.busy, rest, idle, procs, hs, i);
      ProcAt(maps0, mem.busy, rest, idle, procs, hs, j);
      SpaceBelow(maps0[p.table], p.sz);
      SpaceBelow(maps0[np.table], 0);
      assert RoundUp(0) == 0;
      var ret := Uvmcopy(mem, p.table, np.table, p.sz);
      if ret != 0 {
        return false;
      }
      SpaceCopied(maps0[p.table], maps0[np.table], mem.maps[np.table], p.sz);
      Changed(maps0, mem.busy, rest, idle, procs, hs, j, mem.maps[np.table], p.sz);
      procs := procs[j := np.(sz := p.sz)];
      return true;
    }

    /** growproc(n) for n > 0. */
    method Grow(i: nat, n: nat) returns (ok: bool)
      requires Valid() && i in procs && n > 0 && procs[i].sz + n <= TRAPFRAME
      modifies mem, `procs
      ensures Valid()
      ensures !ok ==> procs == old(procs) && mem.maps == old(mem.maps)
      ensures ok ==> procs == old(procs)[i := old(procs)[i].(sz := old(procs)[i].sz + n)]
      ensures var p := old(procs)[i];
        if ok then
          Growing(old(mem.maps), old(mem.free), old(mem.data), mem.maps, mem.free, mem.data,
                  p.table, RoundUp(p.sz), RoundUp(p.sz + n), OrV(PTE_R + PTE_U + PTE_W))
        else TooFew(|old(mem.free)|, RoundUp(p.sz + n) - RoundUp(p.sz))
    {
      var p := procs[i];
      ghost var maps0 := mem.maps;
      ProcAt(maps0, mem.busy, rest, idle, procs, hs, i);
      SpaceBelow(maps0[p.table], p.sz);
      RoundUpMono(p.sz, p.sz + n);
      var sz := Uvmalloc(mem, p.table, p.sz, p.sz + n, PTE_W);
      if sz == 0 {
        return false;
      }
      SpaceGrown(maps0[p.table], mem.maps[p.table], p.sz, sz, OrV(PTE_R + PTE_U + PTE_W));
      Changed(maps0, mem.busy, rest, idle, procs, hs, i, mem.maps[p.table], sz);
      procs := procs[i := p.(sz := sz)];
      return true;
    }

    /** growproc(-n) for n > 0: the new size is computed in 64 bits, and one below zero changes nothing. */
    method Shrink(i: nat, n: nat)
      requires Valid() && i in procs && 0 < n <= -INTMIN
      modifies mem, `procs
      ensures Valid()
      ensures var p := old(procs)[i]; procs == old(procs)[i := p.(sz := if n <= p.sz then p.sz - n else p.sz)]
      ensures Shrunk(old(mem.maps), old(mem.free), old(mem.data), mem.maps, mem.free, mem.data,
                     procs[i].table, procs[i].sz, old(procs)[i].sz)
    {
      var p := procs[i];
      ghost var maps0 := mem.maps;
      ProcAt(maps0, mem.busy, rest, idle, procs, hs, i);
      SpaceBelow(maps0[p.table], p.sz);
      var newsz := Subtract(p.sz, n);
      var sz := Uvmdealloc(mem, p.table, p.sz, newsz);
      SpaceShrunk(maps0[p.table], p.sz, newsz, sz);
      CutSame(maps0[p.table], newsz, p.sz);
      Changed(maps0, mem.busy, rest, idle, procs, hs, i, mem.maps[p.table], sz);
      procs := procs[i := p.(sz := sz)];
    }

    /** sbrk(n): at once, or lazily, when only the size changes. */
    method Sbrk(i: nat, n: int, lazy: bool) returns (ret: int)
      requires Valid() && i in procs && INTMIN <= n <= INTMAX && procs[i].sz + n <= TRAPFRAME
      modifies mem, `procs
      ensures Valid() && (ret == -1 || ret == old(procs)[i].sz)
      ensures ret == -1 ==> procs == old(procs) && mem.maps == old(mem.maps)
      ensures n == 0 || (n > 0 && lazy) ==> ret != -1 && mem.maps == old(mem.maps)
      ensures n < 0 ==> ret != -1 && var p := old(procs)[i];
        Shrunk(old(mem.maps), old(mem.free), old(mem.data), mem.maps, mem.free, mem.data,
               p.table, if p.sz + n >= 0 then p.sz + n else p.sz, p.sz)
      ensures n > 0 && !lazy ==> var p := old(procs)[i];
        if ret != -1 then
          Growing(old(mem.maps), old(mem.free), old(mem.data), mem.maps, mem.free, mem.data,
                  p.table, RoundUp(p.sz), RoundUp(p.sz + n), OrV(PTE_R + PTE_U + PTE_W))
        else TooFew(|old(mem.free)|, RoundUp(p.sz + n) - RoundUp(p.sz))
      ensures ret != -1 ==> var p := old(procs)[i];
        procs == old(procs)[i := p.(sz := if p.sz + n >= 0 then p.sz + n else p.sz)]
    {
      var p := procs[i];
      ret := p.sz;
      assert procs[i := p] == procs;
      if n < 0 {
        Shrink(i, -n);
      } else if !lazy {
        if n > 0 {
          var ok := Grow(i, n);
          ret := if ok then ret else -1;
        }
      } else {
        GrowLazily(i, n);
      }
    }

    method GrowLazily(i: nat, n: nat)
      requires Valid() && i in procs && procs[i].sz + n <= TRAPFRAME
      modifies `procs
      ensures Valid() && procs == old(procs)[i := old(procs)[i].(sz := old(procs)[i].sz + n)]
    {
      var p := procs[i];
      ProcAt(mem.maps, mem.busy, rest, idle, procs, hs, i);
      ghost var f := mem.maps[p.table];
      SpaceLarger(f, p.sz, p.sz + n);
      assert mem.maps[p.table := f] == mem.maps;
      Changed(mem.maps, mem.busy, rest, idle, procs, hs, i, f, p.sz + n);
      procs := procs[i := p.(sz := p.sz + n)];
    }

    /** A page fault of process i. */
    method PageFault(i: nat, va: nat)
      requires Valid() && i in procs
      modifies mem
      ensures Valid() && procs == old(procs)
      ensures procs[i].table in old(mem.maps) && Faulted(old(mem.maps), |old(mem.free)|, mem.maps, mem.data,
                                                         procs[i].table, procs[i].sz, va)
    {
      var p := procs[i];
      ghost var maps0 := mem.maps;
      ProcAt(maps0, mem.busy, rest, idle, procs, hs, i);
      SpaceBelow(maps0[p.table], p.sz);
      var frame := Vmfault(mem, p.table, p.sz, va);
      if frame != 0 {
        ghost var e := Pte(frame, OrV(PTE_W + PTE_U + PTE_R));
        SpaceFault(maps0[p.table], p.sz, va, e);
        Changed(maps0, mem.busy, rest, idle, procs, hs, i, mem.maps[p.table], p.sz);
        assert procs[i := p.(sz := p.sz)] == procs;
      }
    }

    method Do(c: Call)
      requires Valid()
      modifies mem, `procs, `hs
      ensures Valid()
    {
      match c
      case Spawn(j) =>
        if j !in procs {
          var _ := AllocProc(j);
        }
      case Fork(i, j) =>
        if i in procs && j !in procs {
          var _ := Fork(i, j);
        }
      case Sbrk(i, n, lazy) =>
        if i in procs && INTMIN <= n <= INTMAX && procs[i].sz + n <= TRAPFRAME {
          var _ := Sbrk(i, n, lazy);
        }
      case Fault(i, va) =>
        if i in procs {
          PageFault(i, va);
        }
      case Exit(i) =>
        if i in procs {
          FreeProc(i);
        }
    }

    /** Everyone who is left exits. */
    method ExitAll()
      requires Valid()
      modifies mem, `procs, `hs
      ensures Valid() && procs == map[] && mem.maps == rest && mem.busy == idle
    {
      while procs != map[]
        invariant Valid()
        decreases |procs|
      {
        var i :| i in procs;
        FreeProc(i);
      }
      InvEnd(mem.maps, mem.busy, rest, idle, hs);
    }
  }

  /**
   Any number of processes, started, forked, grown, shrunk, faulting and exiting in any order, with memory running
   out anywhere: once they are gone, no table and no page is left that was not there before, and if there was none,
   every page of the allocator is free again.
   */
  method Lifetimes(mem: Memory, trampoline: nat, calls: seq<Call>)
    requires mem.Ok() && trampoline > 0
    modifies mem
    ensures mem.Ok() && mem.maps == old(mem.maps) && mem.busy == old(mem.busy)
    ensures old(mem.maps) == map[] && old(mem.busy) == {} ==> forall p :: mem.lo <= p < mem.hi ==> p in mem.free
  {
    var all := new Processes(mem, trampoline);
    for n := 0 to |calls|
      invariant all.Valid() && all.mem == mem && fresh(all)
      invariant all.rest == old(mem.maps) && all.idle == old(mem.busy)
    {
      all.Do(calls[n]);
    }
    all.ExitAll();
    if mem.maps == map[] && mem.busy == {} {
      assert mem.roots == {};
      NoPageLost(mem.M(), mem.own, mem.free);
    }
  }

  /** From kinit on: whatever processes come and go, in the end all pages from lo to hi are free. */
  method FromBoot(lo: nat, hi: nat, pt: seq<seq<Pte>>, data: seq<Data>, trampoline: nat, calls: seq<Call>)
    returns (mem: Memory)
    requires Shaped(Vm(lo, hi, pt)) && |data| == hi && trampoline > 0
    ensures fresh(mem) && mem.Ok() && mem.maps == map[] && mem.busy == {}
    ensures mem.lo == lo && mem.hi == hi && forall p :: lo <= p < hi ==> p in mem.free
  {
    mem := new Memory(lo, hi, pt, data);
    Lifetimes(mem, trampoline, calls);
  }
}
