/**
 User address spaces: growing, shrinking, copying and freeing them (the uvm functions of
 kernel/vm.c and the page-table functions of kernel/proc.c), each as a change to the finite
 map of a table.
 */
module UserMemory {
  import opened PageTables
  import opened Paging

  const TRAMPOLINE: nat := 0x3F_FFFF_F000

  /** PA2PTE, PTE2PA and PTE_FLAGS on 64-bit words. */
  function Pa2Pte(pa: bv64): bv64 { (pa >> 12) << 10 }

  function Pte2Pa(pte: bv64): bv64 { (pte >> 10) << 12 }

  function PteFlags(pte: bv64): bv64 { pte & 0x3FF }

  /** A page address of at most 56 bits and ten flag bits go through an entry unharmed. */
  lemma PteRoundTrip(pa: bv64, flags: bv64)
    requires pa & 0xFFF == 0 && pa >> 56 == 0 && flags & 0x3FF == flags
    ensures Pte2Pa(Pa2Pte(pa) | flags) == pa && PteFlags(Pa2Pte(pa) | flags) == flags
  {
  }

  const PTE_R: nat := 2
  const PTE_W: nat := 4
  const PTE_X: nat := 8
  const PTE_U: nat := 16

  function RoundUp(a: nat): nat { (a + PGSIZE - 1) / PGSIZE * PGSIZE }

  /** The map without the addresses in [a, b). */
  ghost function Cut(f: map<nat, Pte>, a: nat, b: nat): map<nat, Pte> {
    map x | x in f && !(a <= x < b) :: f[x]
  }

  /** Remove the mappings of npages pages from va on; mappings that do not exist are skipped. */
  method Uvmunmap(mem: Memory, r: nat, va: nat, npages: nat, doFree: bool)
    requires mem.Ok() && r in mem.maps && va % PGSIZE == 0 && va + npages * PGSIZE <= MAXVA
    requires if doFree then va + npages * PGSIZE <= TRAPFRAME else va >= TRAPFRAME
    modifies mem`pt, mem`data, mem`free, mem`own, mem`maps
    ensures mem.Ok() && DataKept(old(mem.free), old(mem.data), mem.free, mem.data) && Within(old(mem.free), mem.free)
    ensures mem.maps == old(mem.maps)[r := Cut(old(mem.maps)[r], va, va + npages * PGSIZE)]
  {
    ghost var maps0, free0, data0 := mem.maps, mem.free, mem.data;
    CutNone(maps0[r], va);
    assert maps0[r := maps0[r]] == maps0;
    assert Aligned(maps0[r]);
    var a, end := va, va + npages * PGSIZE;
    while a < end
      invariant va <= a <= end && a % PGSIZE == 0
      invariant mem.Ok() && mem.maps == maps0[r := Cut(maps0[r], va, a)]
      invariant DataKept(free0, data0, mem.free, mem.data) && Within(free0, mem.free)
    {
      ghost var free1, data1 := mem.free, mem.data;
      UnmapStep(mem, maps0, r, va, a, doFree);
      DataKeptTrans(free0, data0, free1, data1, mem.free, mem.data);
      a := a + PGSIZE;
    }
  }

  /** One round of uvmunmap. */
  method UnmapStep(mem: Memory, ghost maps0: map<nat, map<nat, Pte>>, r: nat, ghost va: nat, a: nat, doFree: bool)
    requires mem.Ok() && r in maps0 && mem.maps == maps0[r := Cut(maps0[r], va, a)] && Aligned(maps0[r])
    requires va <= a < MAXVA && a % PGSIZE == 0 && doFree == (a < TRAPFRAME)
    modifies mem`pt, mem`data, mem`free, mem`own, mem`maps
    ensures mem.Ok() && DataKept(old(mem.free), old(mem.data), mem.free, mem.data) && Within(old(mem.free), mem.free)
    ensures mem.maps == maps0[r := Cut(maps0[r], va, a + PGSIZE)]
  {
    CutNext(maps0[r], va, a);
    mem.UnmapPage(r, a, doFree);
  }

  ghost predicate Aligned(f: map<nat, Pte>) { forall x :: x in f ==> x % PGSIZE == 0 }

  lemma CutNone(f: map<nat, Pte>, a: nat)
    ensures Cut(f, a, a) == f
  {
  }

  lemma CutNext(f: map<nat, Pte>, a: nat, b: nat)
    requires a <= b && b % PGSIZE == 0 && Aligned(f)
    ensures Drop(Cut(f, a, b), b) == Cut(f, a, b + PGSIZE)
  {
    forall x | x in f ensures a <= x < b + PGSIZE <==> a <= x < b || x == b {
    }
  }

  /** Shrink from oldsz to newsz bytes; neither need be page-aligned. */
  method Uvmdealloc(mem: Memory, r: nat, oldsz: nat, newsz: nat) returns (size: nat)
    requires mem.Ok() && r in mem.maps && RoundUp(oldsz) <= TRAPFRAME
    modifies mem`pt, mem`data, mem`free, mem`own, mem`maps
    ensures mem.Ok() && DataKept(old(mem.free), old(mem.data), mem.free, mem.data) && Within(old(mem.free), mem.free)
    ensures mem.maps == old(mem.maps)[r := Cut(old(mem.maps)[r], RoundUp(newsz), RoundUp(oldsz))]
    ensures size == if newsz < oldsz then newsz else oldsz
  {
    CutNothing(mem.maps, r, RoundUp(newsz), RoundUp(oldsz));
    RoundUpMono(oldsz, newsz);
    if newsz >= oldsz {
      return oldsz;
    }
    if RoundUp(newsz) < RoundUp(oldsz) {
      var npages := (RoundUp(oldsz) - RoundUp(newsz)) / PGSIZE;
      Uvmunmap(mem, r, RoundUp(newsz), npages, true);
    }
    return newsz;
  }

  lemma CutNothing(maps: map<nat, map<nat, Pte>>, r: nat, a: nat, b: nat)
    requires r in maps
    ensures b <= a ==> maps[r := Cut(maps[r], a, b)] == maps
  {
    if b <= a {
      assert Cut(maps[r], a, b) == maps[r];
    }
  }

  lemma RoundUpMono(a: nat, b: nat)
    ensures a <= RoundUp(a) < a + PGSIZE && RoundUp(a) % PGSIZE == 0
    ensures a <= b ==> RoundUp(a) <= RoundUp(b)
    ensures b <= a ==> RoundUp(b) <= RoundUp(a)
    ensures b <= a ==> (RoundUp(a) - RoundUp(b)) / PGSIZE * PGSIZE == RoundUp(a) - RoundUp(b)
  {
  }

  lemma PageStep(a: nat, newsz: nat)
    requires a % PGSIZE == 0 && a < newsz <= TRAPFRAME
    ensures (a + PGSIZE) % PGSIZE == 0 && a + PGSIZE <= RoundUp(newsz) <= TRAPFRAME
  {
  }

  // ----- Mapping a run of pages -----

  /** x is one of the n page addresses from va on. */
  predicate InRun(va: nat, n: nat, x: nat) { va <= x < va + n * PGSIZE && x % PGSIZE == 0 }

  /** f is f0 with pages frame, frame + 1, ... entered for the n page addresses from va on. */
  ghost predicate Entered(f0: map<nat, Pte>, f: map<nat, Pte>, va: nat, n: nat, frame: nat, flags: nat) {
    && (forall x :: x in f <==> x in f0 || InRun(va, n, x))
    && (forall x :: x in f0 ==> f[x] == f0[x])
    && (forall x :: x in f && x !in f0 ==> x >= va && f[x] == Pte(frame + (x - va) / PGSIZE, flags))
  }

  lemma EnteredNext(f0: map<nat, Pte>, f: map<nat, Pte>, va: nat, n: nat, frame: nat, flags: nat)
    requires Entered(f0, f, va, n, frame, flags) && va % PGSIZE == 0 && va + n * PGSIZE !in f0
    ensures va + n * PGSIZE !in f
    ensures Entered(f0, Insert(f, va + n * PGSIZE, Pte(frame + n, flags)), va, n + 1, frame, flags)
  {
    assert !InRun(va, n, va + n * PGSIZE);
    forall x: nat ensures InRun(va, n + 1, x) <==> InRun(va, n, x) || x == va + n * PGSIZE {
    }
  }

  /** The first done of the pages are entered in table r, and are no longer in the caller's hands. */
  ghost predicate MappedRun(maps0: map<nat, map<nat, Pte>>, busy0: set<nat>, maps: map<nat, map<nat, Pte>>,
                            busy: set<nat>, r: nat, va: nat, done: nat, frame: nat, flags: nat) {
    && r in maps0 && maps.Keys == maps0.Keys && (forall q :: q in maps0 && q != r ==> maps[q] == maps0[q])
    && Entered(maps0[r], maps[r], va, done, frame, flags)
    && (forall p :: p in busy <==> p in busy0 && !(frame <= p < frame + done))
  }

  lemma MappedNext(maps0: map<nat, map<nat, Pte>>, busy0: set<nat>, maps: map<nat, map<nat, Pte>>,
                   busy: set<nat>, r: nat, va: nat, done: nat, frame: nat, flags: nat)
    requires MappedRun(maps0, busy0, maps, busy, r, va, done, frame, flags)
    requires va % PGSIZE == 0 && va + done * PGSIZE !in maps0[r] && frame + done in busy0
    ensures va + done * PGSIZE !in maps[r] && frame + done in busy
    ensures MappedRun(maps0, busy0, maps[r := Insert(maps[r], va + done * PGSIZE, Pte(frame + done, flags))],
                      busy - {frame + done}, r, va, done + 1, frame, flags)
  {
    EnteredNext(maps0[r], maps[r], va, done, frame, flags);
  }

  lemma MappedStart(maps0: map<nat, map<nat, Pte>>, busy0: set<nat>, r: nat, va: nat, frame: nat, flags: nat)
    requires r in maps0
    ensures MappedRun(maps0, busy0, maps0, busy0, r, va, 0, frame, flags)
  {
    assert forall x: nat :: !InRun(va, 0, x);
  }

  /** One round of mappages. */
  method MapStep(mem: Memory, ghost maps0: map<nat, map<nat, Pte>>, ghost busy0: set<nat>, r: nat, ghost va: nat,
                 ghost done: nat, ghost frame: nat, a: nat, pa: nat, perm: nat) returns (ok: bool, ghost next: nat)
    requires mem.Ok() && MappedRun(maps0, busy0, mem.maps, mem.busy, r, va, done, frame, OrV(perm))
    requires va % PGSIZE == 0 && a == va + done * PGSIZE && pa == frame + done && a < TRAPFRAME
    requires a !in maps0[r] && pa in busy0 && pa > 0 && Rwx(Pte(pa, perm))
    modifies mem`pt, mem`data, mem`free, mem`own, mem`maps, mem`busy
    ensures mem.Ok() && DataKept(old(mem.free), old(mem.data), mem.free, mem.data) && Within(mem.free, old(mem.free))
    ensures next == (if ok then done + 1 else done) && (!ok ==> mem.free == [])
    ensures MappedRun(maps0, busy0, mem.maps, mem.busy, r, va, next, frame, OrV(perm))
  {
    MappedNext(maps0, busy0, mem.maps, mem.busy, r, va, done, frame, OrV(perm));
    ok := mem.MapPage(r, a, pa, perm);
    next := if ok then done + 1 else done;
  }

  /** The page to map next is not mapped yet, and in use by the caller. */
  lemma RunAt(f: map<nat, Pte>, busy: set<nat>, va: nat, n: nat, frame: nat, done: nat)
    requires done < n && va % PGSIZE == 0 && va + n * PGSIZE <= TRAPFRAME
    requires (forall x :: x in f ==> !InRun(va, n, x)) && forall p :: frame <= p < frame + n ==> p in busy
    ensures va + done * PGSIZE !in f && frame + done in busy && va + done * PGSIZE < TRAPFRAME
  {
    assert InRun(va, n, va + done * PGSIZE);
  }

  /**
   mappages of n pages.  When a table page cannot be had in the middle, the pages before it stay
   mapped: done of them.
   */
  method Mappages(mem: Memory, r: nat, va: nat, n: nat, frame: nat, perm: nat) returns (ok: bool, ghost done: nat)
    requires mem.Ok() && r in mem.maps && va % PGSIZE == 0 && n > 0 && va + n * PGSIZE <= TRAPFRAME
    requires frame > 0 && Rwx(Pte(frame, perm)) && forall p :: frame <= p < frame + n ==> p in mem.busy
    requires forall x :: x in mem.maps[r] ==> !InRun(va, n, x)
    modifies mem`pt, mem`data, mem`free, mem`own, mem`maps, mem`busy
    ensures mem.Ok() && DataKept(old(mem.free), old(mem.data), mem.free, mem.data) && Within(mem.free, old(mem.free))
    ensures done <= n && (ok <==> done == n) && (!ok ==> mem.free == [])
    ensures MappedRun(old(mem.maps), old(mem.busy), mem.maps, mem.busy, r, va, done, frame, OrV(perm))
  {
    ghost var maps0, busy0, free0, data0 := mem.maps, mem.busy, mem.free, mem.data;
    var a, pa := va, frame;
    MappedStart(maps0, busy0, r, va, frame, OrV(perm));
    done := 0;
    while true
      invariant 0 <= done < n && a == va + done * PGSIZE && pa == frame + done
      invariant mem.Ok() && MappedRun(maps0, busy0, mem.maps, mem.busy, r, va, done, frame, OrV(perm))
      invariant DataKept(free0, data0, mem.free, mem.data) && Within(mem.free, free0)
      decreases n - done
    {
      ghost var free1, data1 := mem.free, mem.data;
      RunAt(maps0[r], busy0, va, n, frame, done);
      ok, done := MapStep(mem, maps0, busy0, r, va, done, frame, a, pa, perm);
      DataKeptTrans(free0, data0, free1, data1, mem.free, mem.data);
      if !ok {
        return;
      }
      if a == va + (n - 1) * PGSIZE {
        return;
      }
      a := a + PGSIZE;
      pa := pa + 1;
    }
  }

  // ----- Growing -----

  /** Nothing but the kernel's two pages is mapped from `end` on. */
  ghost predicate Below(f: map<nat, Pte>, end: nat) { forall x :: x in f ==> x < end || x >= TRAPFRAME }

  /** f is f0 with a mapping for each page address in [lo, hi), all with the given flags. */
  ghost predicate GrownBy(f0: map<nat, Pte>, f: map<nat, Pte>, lo: nat, hi: nat, flags: nat) {
    && (forall x :: x in f <==> x in f0 || (lo <= x < hi && x % PGSIZE == 0))
    && (forall x :: x in f0 ==> f[x] == f0[x])
    && (forall x :: x in f && x !in f0 ==> f[x].flags == flags)
  }

  lemma GrownNext(f0: map<nat, Pte>, f: map<nat, Pte>, lo: nat, a: nat, e: Pte)
    requires GrownBy(f0, f, lo, a, e.flags) && lo <= a && a % PGSIZE == 0 && a !in f0
    ensures a !in f && GrownBy(f0, Insert(f, a, e), lo, a + PGSIZE, e.flags)
  {
  }

  lemma GrownUndone(f0: map<nat, Pte>, f: map<nat, Pte>, lo: nat, a: nat, flags: nat)
    requires GrownBy(f0, f, lo, a, flags) && forall x :: x in f0 ==> !(lo <= x < a)
    ensures Cut(f, lo, a) == f0
  {
  }

  /** So few pages are free that mapping a range of that many bytes may fail. */
  predicate TooFew(free: nat, bytes: int) { free * PGSIZE < 3 * bytes }

  /** The new pages, [lo, hi), were free before and read as zeroes. */
  ghost predicate FreshZeroed(f: map<nat, Pte>, lo: nat, hi: nat, free0: seq<nat>, data: seq<Data>) {
    forall x :: x in f && lo <= x < hi ==> f[x].frame < |data| && data[f[x].frame] == Zeroed && f[x].frame in free0
  }

  /** Allocate, zero and map a page at a; 0, with nothing changed, if memory runs out. */
  method GrowPage(mem: Memory, r: nat, a: nat, perm: nat) returns (frame: nat)
    requires mem.Ok() && r in mem.maps && a < TRAPFRAME && a % PGSIZE == 0 && a !in mem.maps[r]
    requires Rwx(Pte(0, perm))
    modifies mem`pt, mem`data, mem`free, mem`own, mem`maps, mem`busy
    ensures mem.Ok() && mem.busy == old(mem.busy)
    ensures DataKept(old(mem.free), old(mem.data), mem.free, mem.data) && Within(mem.free, old(mem.free))
    ensures frame == 0 ==> mem.maps == old(mem.maps) && |old(mem.free)| <= 2
    ensures frame != 0 ==> |mem.free| >= |old(mem.free)| - 3
    ensures frame != 0 ==> mem.maps == old(mem.maps)[r := Insert(old(mem.maps)[r], a, Pte(frame, OrV(perm)))]
    ensures frame != 0 ==> frame in old(mem.free) && frame < |mem.data| && mem.data[frame] == Zeroed
  {
    ghost var free0, data0 := mem.free, mem.data;
    frame := mem.Kalloc();
    if frame == 0 {
      return;
    }
    mem.Memzero(frame);
    ghost var free1, data1 := mem.free, mem.data;
    assert DataKept(free0, data0, free1, data1);
    var ok := mem.MapPage(r, a, frame, perm);
    DataKeptTrans(free0, data0, free1, data1, mem.free, mem.data);
    if !ok {
      mem.Kfree(frame);
      return 0;
    }
  }

  /** Table r has grown by the pages of [lo, a) since the state maps0, free0, data0. */
  ghost predicate Growing(maps0: map<nat, map<nat, Pte>>, free0: seq<nat>, data0: seq<Data>,
                          maps: map<nat, map<nat, Pte>>, free: seq<nat>, data: seq<Data>,
                          r: nat, lo: nat, a: nat, flags: nat) {
    && r in maps0 && r in maps && maps == maps0[r := maps[r]]
    && DataKept(free0, data0, free, data) && Within(free, free0)
    && GrownBy(maps0[r], maps[r], lo, a, flags) && FreshZeroed(maps[r], lo, a, free0, data)
  }

  lemma GrowingStart(maps: map<nat, map<nat, Pte>>, free: seq<nat>, data: seq<Data>, r: nat, lo: nat, flags: nat)
    requires r in maps
    ensures Growing(maps, free, data, maps, free, data, r, lo, lo, flags)
  {
    assert maps[r := maps[r]] == maps;
  }

  lemma GrowingNext(maps0: map<nat, map<nat, Pte>>, free0: seq<nat>, data0: seq<Data>,
                    maps: map<nat, map<nat, Pte>>, free: seq<nat>, data: seq<Data>,
                    maps': map<nat, map<nat, Pte>>, free': seq<nat>, data': seq<Data>,
                    r: nat, lo: nat, a: nat, frame: nat, flags: nat)
    requires Growing(maps0, free0, data0, maps, free, data, r, lo, a, flags)
    requires lo <= a && a % PGSIZE == 0 && forall x :: x in maps0[r] ==> x < lo || x >= a + PGSIZE
    requires maps' == maps[r := Insert(maps[r], a, Pte(frame, flags))]
    requires DataKept(free, data, free', data') && Within(free', free)
    requires forall x :: x in maps[r] && lo <= x < a ==> maps[r][x].frame !in free
    requires frame in free && frame < |data'| && data'[frame] == Zeroed
    ensures Growing(maps0, free0, data0, maps', free', data', r, lo, a + PGSIZE, flags)
  {
    DataKeptTrans(free0, data0, free, data, free', data');
    GrownNext(maps0[r], maps[r], lo, a, Pte(frame, flags));
    forall x | x in maps'[r] && lo <= x < a + PGSIZE
      ensures maps'[r][x].frame < |data'| && data'[maps'[r][x].frame] == Zeroed && maps'[r][x].frame in free0
    {
      if x != a {
        assert x in maps[r] && x !in maps0[r];
      }
    }
  }

  /**
   Grow from oldsz to newsz bytes.  On success every page of the new range is mapped to a page of
   its own that reads as zeroes; on failure every mapping is as it was and no page is lost.  It does not fail while
   three pages are free for each page to map: itself, and at most two new tables.
   */
  method Uvmalloc(mem: Memory, r: nat, oldsz: nat, newsz: nat, xperm: nat) returns (size: nat)
    requires mem.Ok() && r in mem.maps && newsz <= TRAPFRAME && Rwx(Pte(0, PTE_R + PTE_U + xperm))
    requires Below(mem.maps[r], RoundUp(oldsz))
    modifies mem`pt, mem`data, mem`free, mem`own, mem`maps, mem`busy
    ensures mem.Ok() && mem.busy == old(mem.busy)
    ensures newsz < oldsz ==> size == oldsz && mem.maps == old(mem.maps)
    ensures oldsz <= newsz ==> size == newsz || size == 0
    ensures oldsz <= newsz && size != newsz ==> mem.maps == old(mem.maps)
    ensures oldsz <= newsz && size != newsz ==> TooFew(|old(mem.free)|, RoundUp(newsz) - RoundUp(oldsz))
    ensures oldsz <= newsz && size == newsz ==>
      Growing(old(mem.maps), old(mem.free), old(mem.data), mem.maps, mem.free, mem.data,
              r, RoundUp(oldsz), Max(RoundUp(oldsz), RoundUp(newsz)), OrV(PTE_R + PTE_U + xperm))
    ensures DataKept(old(mem.free), old(mem.data), mem.free, mem.data)
  {
    if newsz < oldsz {
      return oldsz;
    }
    RoundUpMono(oldsz, newsz);
    var ok := GrowAll(mem, r, RoundUp(oldsz), newsz, PTE_R + PTE_U + xperm);
    return if ok then newsz else 0;
  }

  /** uvmalloc's loop over the pages from lo on. */
  method GrowAll(mem: Memory, r: nat, lo: nat, newsz: nat, perm: nat) returns (ok: bool)
    requires mem.Ok() && r in mem.maps && lo % PGSIZE == 0 && newsz <= TRAPFRAME && Rwx(Pte(0, perm))
    requires Below(mem.maps[r], lo)
    modifies mem`pt, mem`data, mem`free, mem`own, mem`maps, mem`busy
    ensures mem.Ok() && mem.busy == old(mem.busy)
    ensures !ok ==> mem.maps == old(mem.maps) && DataKept(old(mem.free), old(mem.data), mem.free, mem.data)
    ensures !ok ==> newsz > 0 && TooFew(|old(mem.free)|, RoundUp(newsz) - lo)
    ensures ok ==>
      Growing(old(mem.maps), old(mem.free), old(mem.data), mem.maps, mem.free, mem.data,
              r, lo, Max(lo, RoundUp(newsz)), OrV(perm))
  {
    ghost var maps0, free0, data0, busy0 := mem.maps, mem.free, mem.data, mem.busy;
    ghost var flags, top := OrV(perm), Max(lo, RoundUp(newsz));
    GrowingStart(maps0, free0, data0, r, lo, flags);
    var a := lo;
    ghost var k := 0;
    while a < newsz
      invariant a == lo + k * PGSIZE && |mem.free| + 3 * k >= |free0|
      invariant lo <= a <= top && a % PGSIZE == 0 && mem.Ok() && mem.busy == busy0
      invariant Growing(maps0, free0, data0, mem.maps, mem.free, mem.data, r, lo, a, flags)
      decreases newsz - a
    {
      PageStep(a, newsz);
      ok := GrowStep(mem, r, lo, a, perm, maps0, free0, data0);
      if !ok {
        return;
      }
      a := a + PGSIZE;
      k := k + 1;
    }
    PagesEnd(lo, a, newsz);
    return true;
  }

  lemma PagesEnd(lo: nat, a: nat, newsz: nat)
    requires lo % PGSIZE == 0 && a % PGSIZE == 0 && newsz <= a && lo <= a <= Max(lo, RoundUp(newsz))
    ensures a == Max(lo, RoundUp(newsz))
  {
  }

  /** One round of uvmalloc's loop; false if memory ran out and the pages so far were given back. */
  method GrowStep(mem: Memory, r: nat, lo: nat, a: nat, perm: nat,
                  ghost maps0: map<nat, map<nat, Pte>>, ghost free0: seq<nat>, ghost data0: seq<Data>)
      returns (ok: bool)
    requires mem.Ok() && lo % PGSIZE == 0 && a % PGSIZE == 0 && lo <= a < a + PGSIZE <= TRAPFRAME && Rwx(Pte(0, perm))
    requires Growing(maps0, free0, data0, mem.maps, mem.free, mem.data, r, lo, a, OrV(perm))
    requires Below(maps0[r], lo)
    modifies mem`pt, mem`data, mem`free, mem`own, mem`maps, mem`busy
    ensures mem.Ok() && mem.busy == old(mem.busy)
    ensures ok ==> Growing(maps0, free0, data0, mem.maps, mem.free, mem.data, r, lo, a + PGSIZE, OrV(perm))
    ensures if ok then |mem.free| >= |old(mem.free)| - 3 else |old(mem.free)| <= 2
    ensures !ok ==> mem.maps == maps0 && DataKept(free0, data0, mem.free, mem.data)
  {
    ghost var maps1, free1, data1 := mem.maps, mem.free, mem.data;
    MappedNotFree(mem.M(), mem.roots, mem.own, mem.maps, mem.free, r);
    var frame := GrowPage(mem, r, a, perm);
    if frame == 0 {
      Undo(mem, r, lo, a, maps0, free0, data0, maps1, free1, data1, OrV(perm));
      return false;
    }
    GrowingNext(maps0, free0, data0, maps1, free1, data1, mem.maps, mem.free, mem.data, r, lo, a, frame, OrV(perm));
    return true;
  }

  /** uvmalloc's way out: give back the pages of [lo, a). */
  method Undo(mem: Memory, r: nat, lo: nat, a: nat,
              ghost maps0: map<nat, map<nat, Pte>>, ghost free0: seq<nat>, ghost data0: seq<Data>,
              ghost maps1: map<nat, map<nat, Pte>>, ghost free1: seq<nat>, ghost data1: seq<Data>, ghost flags: nat)
    requires mem.Ok() && lo % PGSIZE == 0 && a % PGSIZE == 0 && lo <= a <= TRAPFRAME
    requires Growing(maps0, free0, data0, maps1, free1, data1, r, lo, a, flags) && mem.maps == maps1
    requires DataKept(free1, data1, mem.free, mem.data) && Within(mem.free, free1)
    requires Below(maps0[r], lo)
    modifies mem`pt, mem`data, mem`free, mem`own, mem`maps
    ensures mem.Ok() && mem.maps == maps0 && DataKept(free0, data0, mem.free, mem.data)
  {
    ghost var free2, data2 := mem.free, mem.data;
    DataKeptTrans(free0, data0, free1, data1, free2, data2);
    GrownUndone(maps0[r], maps1[r], lo, a, flags);
    RoundUpMono(lo, a);
    RoundUpMono(a, lo);
    assert RoundUp(lo) == lo && RoundUp(a) == a;
    var _ := Uvmdealloc(mem, r, a, lo);
    DataKeptTrans(free0, data0, free2, data2, mem.free, mem.data);
  }

  function Max(a: nat, b: nat): nat { if a < b then b else a }

  // ----- Copying -----

  /**
   The pages of table `from` below i have been copied into table `to` since the state maps0, free0,
   data0: same flags, same content, in pages that were free.
   */
  ghost predicate Copying(maps0: map<nat, map<nat, Pte>>, free0: seq<nat>, data0: seq<Data>,
                          maps: map<nat, map<nat, Pte>>, free: seq<nat>, data: seq<Data>,
                          from: nat, to: nat, i: nat) {
    && from in maps0 && to in maps0 && from != to && to in maps && maps == maps0[to := maps[to]]
    && DataKept(free0, data0, free, data) && Within(free, free0)
    && (forall x :: x in maps[to] <==> x in maps0[to] || (x < i && x in maps0[from]))
    && (forall x :: x in maps0[to] ==> maps[to][x] == maps0[to][x])
    && (forall x :: x < i && x in maps0[from] && x !in maps0[to] ==>
          CopyOf(maps0[from][x], data0, maps[to][x], data, free0))
  }

  ghost predicate CopyOf(e: Pte, data0: seq<Data>, c: Pte, data: seq<Data>, free0: seq<nat>) {
    && c.flags == e.flags && e.frame < |data0| && c.frame < |data| && data[c.frame] == data0[e.frame]
    && c.frame in free0 && e.frame !in free0
  }

  lemma CopyingNext(maps0: map<nat, map<nat, Pte>>, free0: seq<nat>, data0: seq<Data>,
                    maps: map<nat, map<nat, Pte>>, free: seq<nat>, data: seq<Data>,
                    maps': map<nat, map<nat, Pte>>, free': seq<nat>, data': seq<Data>,
                    from: nat, to: nat, i: nat, frame: nat)
    requires Copying(maps0, free0, data0, maps, free, data, from, to, i)
    requires i in maps0[from] && i !in maps0[to] && i % PGSIZE == 0 && forall x :: x in maps0[from] ==> x % PGSIZE == 0
    requires maps' == maps[to := Insert(maps[to], i, Pte(frame, maps0[from][i].flags))]
    requires DataKept(free, data, free', data') && Within(free', free)
    requires forall x :: x in maps[to] && x < i ==> maps[to][x].frame !in free
    requires frame in free && frame < |data'| && maps0[from][i].frame < |data0| && maps0[from][i].frame !in free0
    requires data'[frame] == data[maps0[from][i].frame]
    ensures Copying(maps0, free0, data0, maps', free', data', from, to, i + PGSIZE)
  {
    DataKeptTrans(free0, data0, free, data, free', data');
    forall x | x in maps0[from] ensures x < i + PGSIZE <==> x < i || x == i {
    }
  }

  lemma CopyingSkip(maps0: map<nat, map<nat, Pte>>, free0: seq<nat>, data0: seq<Data>,
                    maps: map<nat, map<nat, Pte>>, free: seq<nat>, data: seq<Data>, from: nat, to: nat, i: nat)
    requires Copying(maps0, free0, data0, maps, free, data, from, to, i) && i !in maps0[from]
    requires i % PGSIZE == 0 && forall x :: x in maps0[from] ==> x % PGSIZE == 0
    ensures Copying(maps0, free0, data0, maps, free, data, from, to, i + PGSIZE)
  {
    forall x | x in maps0[from] ensures x < i + PGSIZE <==> x < i {
    }
  }

  /** Allocate a page, copy src into it and map it at va; 0, with nothing changed, if memory runs out. */
  method ClonePage(mem: Memory, to: nat, va: nat, src: nat, flags: nat) returns (frame: nat)
    requires mem.Ok() && to in mem.maps && va < TRAPFRAME && va % PGSIZE == 0 && va !in mem.maps[to]
    requires src < mem.hi && src !in mem.free && Rwx(Pte(0, flags)) && V(Pte(0, flags))
    modifies mem`pt, mem`data, mem`free, mem`own, mem`maps, mem`busy
    ensures mem.Ok() && mem.busy == old(mem.busy)
    ensures DataKept(old(mem.free), old(mem.data), mem.free, mem.data) && Within(mem.free, old(mem.free))
    ensures frame == 0 ==> mem.maps == old(mem.maps) && |old(mem.free)| <= 2
    ensures frame != 0 ==> |mem.free| >= |old(mem.free)| - 3
    ensures frame != 0 ==> mem.maps == old(mem.maps)[to := Insert(old(mem.maps)[to], va, Pte(frame, flags))]
    ensures frame != 0 ==> frame in old(mem.free) && frame < |mem.data|
    ensures frame != 0 ==> src < |old(mem.data)| && mem.data[frame] == old(mem.data)[src]
  {
    ghost var free0, data0 := mem.free, mem.data;
    frame := mem.Kalloc();
    if frame == 0 {
      return;
    }
    mem.CopyPage(frame, src);
    ghost var free1, data1 := mem.free, mem.data;
    assert DataKept(free0, data0, free1, data1);
    var ok := mem.MapPage(to, va, frame, flags);
    DataKeptTrans(free0, data0, free1, data1, mem.free, mem.data);
    if !ok {
      mem.Kfree(frame);
      return 0;
    }
  }

  /** One round of uvmcopy's loop. */
  method CopyStep(mem: Memory, from: nat, to: nat, i: nat,
                  ghost maps0: map<nat, map<nat, Pte>>, ghost free0: seq<nat>, ghost data0: seq<Data>)
      returns (ok: bool)
    requires mem.Ok() && i % PGSIZE == 0 && i < TRAPFRAME
    requires Copying(maps0, free0, data0, mem.maps, mem.free, mem.data, from, to, i)
    requires SourceOk(mem.hi, maps0, free0, data0, from, to)
    modifies mem`pt, mem`data, mem`free, mem`own, mem`maps, mem`busy
    ensures mem.Ok() && mem.busy == old(mem.busy)
    ensures ok ==> Copying(maps0, free0, data0, mem.maps, mem.free, mem.data, from, to, i + PGSIZE)
    ensures !ok ==> Copying(maps0, free0, data0, mem.maps, mem.free, mem.data, from, to, i)
    ensures if ok then |mem.free| >= |old(mem.free)| - 3 else |old(mem.free)| <= 2
  {
    ghost var maps1, free1, data1 := mem.maps, mem.free, mem.data;
    var e := mem.Lookup(from, i);
    if !V(e) {
      CopyingSkip(maps0, free0, data0, mem.maps, mem.free, mem.data, from, to, i);
      return true;
    }
    MappedNotFree(mem.M(), mem.roots, mem.own, mem.maps, mem.free, to);
    SourceAt(mem.hi, maps0, free0, data0, from, to, i);
    var frame := ClonePage(mem, to, i, e.frame, e.flags);
    if frame == 0 {
      DataKeptTrans(free0, data0, free1, data1, mem.free, mem.data);
      CopyingFrame(maps0, free0, data0, maps1, free1, data1, mem.free, mem.data, from, to, i);
      return false;
    }
    CopyingNext(maps0, free0, data0, maps1, free1, data1, mem.maps, mem.free, mem.data, from, to, i, frame);
    return true;
  }

  /** uvmcopy's way out: give back the copies made so far. */
  method CopyAbort(mem: Memory, from: nat, to: nat, i: nat,
                   ghost maps0: map<nat, map<nat, Pte>>, ghost free0: seq<nat>, ghost data0: seq<Data>)
    requires mem.Ok() && i % PGSIZE == 0 && i <= TRAPFRAME
    requires Copying(maps0, free0, data0, mem.maps, mem.free, mem.data, from, to, i)
    requires forall x :: x in maps0[to] ==> x >= TRAPFRAME
    modifies mem`pt, mem`data, mem`free, mem`own, mem`maps
    ensures mem.Ok() && mem.maps == maps0 && DataKept(free0, data0, mem.free, mem.data)
  {
    ghost var free1, data1 := mem.free, mem.data;
    CopyUndone(maps0, free0, data0, mem.maps, free1, data1, from, to, i);
    Uvmunmap(mem, to, 0, i / PGSIZE, true);
    DataKeptTrans(free0, data0, free1, data1, mem.free, mem.data);
  }

  /** What uvmcopy is given: a source whose pages are in use, and a target without user pages. */
  ghost predicate SourceOk(hi: nat, maps0: map<nat, map<nat, Pte>>, free0: seq<nat>, data0: seq<Data>,
                           from: nat, to: nat) {
    && from in maps0 && to in maps0 && |data0| == hi
    && (forall x :: x in maps0[from] ==> x % PGSIZE == 0)
    && (forall x :: x in maps0[to] ==> x >= TRAPFRAME)
    && (forall x :: x in maps0[from] && x < TRAPFRAME ==>
          maps0[from][x].frame !in free0 && maps0[from][x].frame < hi && V(maps0[from][x]) && Rwx(maps0[from][x]))
  }

  lemma SourceAt(hi: nat, maps0: map<nat, map<nat, Pte>>, free0: seq<nat>, data0: seq<Data>, from: nat, to: nat, i: nat)
    requires SourceOk(hi, maps0, free0, data0, from, to) && i in maps0[from] && i < TRAPFRAME
    ensures var e := maps0[from][i];
      i !in maps0[to] && e.frame !in free0 && e.frame < hi && V(e) && Rwx(e) && OrV(e.flags) == e.flags
  {
  }

  lemma CopyingFrame(maps0: map<nat, map<nat, Pte>>, free0: seq<nat>, data0: seq<Data>,
                     maps: map<nat, map<nat, Pte>>, free: seq<nat>, data: seq<Data>, free': seq<nat>, data': seq<Data>,
                     from: nat, to: nat, i: nat)
    requires Copying(maps0, free0, data0, maps, free, data, from, to, i)
    requires DataKept(free, data, free', data') && Within(free', free) && DataKept(free0, data0, free', data')
    requires forall x :: x in maps[to] && x < i ==> maps[to][x].frame !in free
    ensures Copying(maps0, free0, data0, maps, free', data', from, to, i)
  {
  }

  /**
   Copy the user pages of `from` below sz into the empty table `to`.  On success they have equal
   content and flags in pages of their own; on failure all mappings are as before and no page is lost.
   */
  method Uvmcopy(mem: Memory, from: nat, to: nat, sz: nat) returns (ret: int)
    requires mem.Ok() && from in mem.maps && to in mem.maps && from != to && sz <= TRAPFRAME
    requires forall x :: x in mem.maps[to] ==> x >= TRAPFRAME
    modifies mem`pt, mem`data, mem`free, mem`own, mem`maps, mem`busy
    ensures mem.Ok() && mem.busy == old(mem.busy) && (ret == 0 || ret == -1)
    ensures ret == 0 ==> Copying(old(mem.maps), old(mem.free), old(mem.data), mem.maps, mem.free, mem.data,
      from, to, RoundUp(sz))
    ensures ret == -1 ==> mem.maps == old(mem.maps) && DataKept(old(mem.free), old(mem.data), mem.free, mem.data)
    ensures ret == -1 ==> TooFew(|old(mem.free)|, RoundUp(sz))
  {
    ghost var maps0, free0, data0, busy0 := mem.maps, mem.free, mem.data, mem.busy;
    SourceIsOk(mem.M(), mem.roots, mem.own, maps0, free0, data0, from, to);
    assert maps0[to := maps0[to]] == maps0;
    var i := 0;
    ghost var k := 0;
    while i < sz
      invariant i == k * PGSIZE && |mem.free| + 3 * k >= |free0|
      invariant i % PGSIZE == 0 && i <= RoundUp(sz) && mem.Ok() && mem.busy == busy0
      invariant Copying(maps0, free0, data0, mem.maps, mem.free, mem.data, from, to, i)
      decreases sz - i
    {
      PageStep(i, sz);
      var ok := CopyStep(mem, from, to, i, maps0, free0, data0);
      if !ok {
        CopyAbort(mem, from, to, i, maps0, free0, data0);
        return -1;
      }
      i := i + PGSIZE;
      k := k + 1;
    }
    RoundUpMono(sz, i);
    assert i == RoundUp(sz);
    return 0;
  }

  lemma SourceIsOk(m: Vm, roots: set<nat>, own: map<nat, Owner>, maps: map<nat, map<nat, Pte>>,
                   free: seq<nat>, data: seq<Data>, from: nat, to: nat)
    requires PageTables.Valid(m, roots, own) && MapsOk(m, roots, maps) && FreeOk(free, own) && |data| == m.hi
    requires from in maps && to in maps && forall x :: x in maps[to] ==> x >= TRAPFRAME
    ensures SourceOk(m.hi, maps, free, data, from, to)
  {
    forall x | x in maps[from] && x < TRAPFRAME
      ensures maps[from][x].frame !in free && maps[from][x].frame < m.hi && V(maps[from][x]) && Rwx(maps[from][x])
    {
      MappedPage(m, roots, own, maps, from, x);
    }
  }

  lemma CopyUndone(maps0: map<nat, map<nat, Pte>>, free0: seq<nat>, data0: seq<Data>,
                   maps: map<nat, map<nat, Pte>>, free: seq<nat>, data: seq<Data>, from: nat, to: nat, i: nat)
    requires Copying(maps0, free0, data0, maps, free, data, from, to, i) && i <= TRAPFRAME && i % PGSIZE == 0
    requires forall x :: x in maps0[to] ==> x >= TRAPFRAME
    ensures i / PGSIZE * PGSIZE == i && maps[to := Cut(maps[to], 0, 0 + i)] == maps0
  {
    assert Cut(maps[to], 0, i) == maps0[to];
  }

  /**
   A fault at va in an address space of sz bytes: map a zeroed page there.  0 if va lies outside, is
   mapped already, or memory runs out, and then no mapping changes.
   */
  method Vmfault(mem: Memory, r: nat, sz: nat, va: nat) returns (frame: nat)
    requires mem.Ok() && r in mem.maps && sz <= TRAPFRAME
    modifies mem`pt, mem`data, mem`free, mem`own, mem`maps, mem`busy
    ensures mem.Ok() && mem.busy == old(mem.busy)
    ensures DataKept(old(mem.free), old(mem.data), mem.free, mem.data)
    ensures frame == 0 ==> mem.maps == old(mem.maps)
    ensures va >= sz || va / PGSIZE * PGSIZE in old(mem.maps)[r] ==> frame == 0
    ensures frame == 0 ==> va >= sz || va / PGSIZE * PGSIZE in old(mem.maps)[r] || |old(mem.free)| <= 2
    ensures frame != 0 ==> frame < |mem.data| && mem.data[frame] == Zeroed
    ensures frame != 0 ==> var e := Pte(frame, OrV(PTE_W + PTE_U + PTE_R));
      mem.maps == old(mem.maps)[r := Insert(old(mem.maps)[r], va / PGSIZE * PGSIZE, e)]
  {
    if va >= sz {
      return 0;
    }
    var a := va / PGSIZE * PGSIZE;
    var e := mem.Lookup(r, a);
    if V(e) {
      return 0;
    }
    frame := GrowPage(mem, r, a, PTE_W + PTE_U + PTE_R);
  }
}
