/**
 malloc, free and morecore (user/umalloc.c), updating headers in place.
 */
module Malloc {
  import opened FreeList

  ghost function Frees(list: seq<nat>): set<nat> { set i | 0 < i < |list| :: list[i] }

  /** The heap: a merged, sorted free list, and allocated blocks, that between them own every unit supplied. */
  ghost predicate Ok(m: Memory, base: nat, list: seq<nat>, own: map<nat, nat>, alloc: set<nat>) {
    && Chain(m, base, list) && (forall b :: b in alloc ==> b > base && b !in list)
    && Owns(m, own, Frees(list) + alloc)
  }

  // ----- What free does to memory, and to the list -----

  /** After the first test of free: bp takes in the block above it if that is adjacent. */
  function JoinUpper(m: Memory, p: nat, bp: nat): Memory
    requires p in m && bp in m && m[p].ptr in m
  {
    var q := m[p].ptr;
    if bp + m[bp].size == q then m[bp := Header(m[q].ptr, m[bp].size + m[q].size)]
    else m[bp := Header(q, m[bp].size)]
  }

  /** After the second: p takes in bp if that is adjacent, or points to it. */
  function JoinLower(m: Memory, p: nat, bp: nat): Memory
    requires p in m && bp in m
  {
    if p + m[p].size == bp then m[p := Header(m[bp].ptr, m[p].size + m[bp].size)]
    else m[p := Header(bp, m[p].size)]
  }

  ghost predicate CanFree(m: Memory, base: nat, list: seq<nat>, own: map<nat, nat>, alloc: set<nat>, bp: nat, t: nat) {
    Ok(m, base, list, own, alloc) && bp in alloc && Belongs(list, bp, t)
  }

  /** The neighbours of bp on the list end before it and start after it. */
  lemma Neighbours(m: Memory, base: nat, list: seq<nat>, own: map<nat, nat>, alloc: set<nat>, bp: nat, t: nat)
    requires CanFree(m, base, list, own, alloc, bp, t)
    ensures list[t] in m && bp in m && m[bp].size > 0 && LinkAt(m, list, t) && m[list[t]].ptr in m
    ensures list[t] + m[list[t]].size <= bp && (t == 0 ==> list[t] + m[list[t]].size < bp)
    ensures t + 1 < |list| ==> m[list[t]].ptr == list[t + 1] && bp + m[bp].size <= list[t + 1]
    ensures t + 1 == |list| ==> m[list[t]].ptr == base
  {
    var blocks := Frees(list) + alloc;
    assert LinkAt(m, list, t) && LinkAt(m, list, Succ(t, |list|)) && BlockOk(m, own, bp);
    if t > 0 {
      assert list[t] in blocks;
      Disjoint(m, own, blocks, list[t], bp);
    }
    if t + 1 < |list| {
      assert list[t + 1] in blocks;
      Disjoint(m, own, blocks, bp, list[t + 1]);
    }
  }

  lemma FreesWith(list: seq<nat>, k: nat, b: nat)
    requires 0 < k <= |list|
    ensures Frees(With(list, k, b)) == Frees(list) + {b}
  {
    var l := With(list, k, b);
    forall x ensures x in Frees(l) <==> x in Frees(list) + {b} {
      if x in Frees(list) {
        var i :| 0 < i < |list| && list[i] == x;
        assert l[if i < k then i else i + 1] == x;
      }
      assert l[k] == b;
      if x in Frees(l) {
        var i :| 0 < i < |l| && l[i] == x;
        assert i == k || x == list[if i < k then i else i - 1];
      }
    }
  }

  lemma FreesWithout(m: Memory, base: nat, list: seq<nat>, k: nat)
    requires Chain(m, base, list) && 0 < k < |list|
    ensures Frees(Without(list, k)) == Frees(list) - {list[k]} && list[k] in Frees(list)
  {
    Sorted(m, base, list);
    var l := Without(list, k);
    forall x ensures x in Frees(l) <==> x in Frees(list) - {list[k]} {
      if x in Frees(list) && x != list[k] {
        var i :| 0 < i < |list| && list[i] == x;
        assert l[if i < k then i else i - 1] == x;
      }
      if x in Frees(l) {
        var i :| 0 < i < |l| && l[i] == x;
        WithoutAt(list, k, i);
      }
    }
  }

  /** No neighbour is adjacent: bp goes in between. */
  lemma FreeApart(m: Memory, base: nat, list: seq<nat>, own: map<nat, nat>, alloc: set<nat>, bp: nat, t: nat)
    requires CanFree(m, base, list, own, alloc, bp, t)
    requires list[t] in m && bp in m && m[list[t]].ptr in m
    requires bp + m[bp].size != m[list[t]].ptr && list[t] + m[list[t]].size != bp
    ensures var m1 := JoinUpper(m, list[t], bp);
      Ok(JoinLower(m1, list[t], bp), base, With(list, t + 1, bp), own, alloc - {bp})
  {
    var p, list' := list[t], With(list, t + 1, bp);
    Neighbours(m, base, list, own, alloc, bp, t);
    var m1 := SetPtr(m, bp, m[p].ptr);
    Irrelevant(m, base, list, bp, m1[bp]);
    Inserted(m1, base, list, bp, t);
    PtrOwns(m, own, Frees(list) + alloc, bp, m[p].ptr);
    PtrOwns(m1, own, Frees(list) + alloc, p, bp);
    FreesWith(list, t + 1, bp);
    assert Frees(list') + (alloc - {bp}) == Frees(list) + alloc;
    assert JoinLower(JoinUpper(m, p, bp), p, bp) == SetPtr(m1, p, bp);
    forall b | b in alloc - {bp} ensures b > base && b !in list' {
    }
  }

  /** bp is adjacent to the block below it only: that block grows. */
  lemma FreeBelow(m: Memory, base: nat, list: seq<nat>, own: map<nat, nat>, alloc: set<nat>, bp: nat, t: nat)
    requires CanFree(m, base, list, own, alloc, bp, t)
    requires list[t] in m && bp in m && m[list[t]].ptr in m
    requires bp + m[bp].size != m[list[t]].ptr && list[t] + m[list[t]].size == bp
    ensures var m1 := JoinUpper(m, list[t], bp);
      Ok(JoinLower(m1, list[t], bp), base, list, Merge(own, list[t], bp), alloc - {bp})
  {
    var p, blocks := list[t], Frees(list) + alloc;
    Neighbours(m, base, list, own, alloc, bp, t);
    var m1 := SetPtr(m, bp, m[p].ptr);
    Irrelevant(m, base, list, bp, m1[bp]);
    PtrOwns(m, own, blocks, bp, m[p].ptr);
    Resized(m1, base, list, t, m[p].size + m[bp].size);
    assert p in Frees(list);
    Merged(m1, own, blocks, p, bp);
    assert blocks - {bp} == Frees(list) + (alloc - {bp});
    assert JoinLower(JoinUpper(m, p, bp), p, bp) == SetSize(m1, p, m[p].size + m[bp].size);
  }

  /** The list and headers once the block above bp has been taken into bp, which is still allocated. */
  lemma TakeUpper(m: Memory, base: nat, list: seq<nat>, own: map<nat, nat>, alloc: set<nat>, bp: nat, t: nat)
    requires CanFree(m, base, list, own, alloc, bp, t) && t + 1 < |list| && list[t] in m && bp in m && list[t + 1] in m
    requires bp + m[bp].size == list[t + 1]
    ensures var q := list[t + 1]; var m1 := SetPtr(m, list[t], m[q].ptr);
      CanFree(m1[bp := Header(m[q].ptr, m[bp].size + m[q].size)], base, Without(list, t + 1),
        Merge(own, bp, q), alloc, bp, t)
  {
    var p, q, list' := list[t], list[t + 1], Without(list, t + 1);
    Neighbours(m, base, list, own, alloc, bp, t);
    var h := Header(m[q].ptr, m[bp].size + m[q].size);
    Removed(m, base, list, t);
    WithoutMembers(list, t + 1, alloc);
    Irrelevant(SetPtr(m, p, m[q].ptr), base, list', bp, h);
    UpperOwns(m, base, list, own, alloc, bp, t);
    UpperPlace(m, base, list, bp, t);
  }

  lemma WithoutMembers(list: seq<nat>, k: nat, alloc: set<nat>)
    requires k < |list| && forall b :: b in alloc ==> b !in list
    ensures forall b :: b in alloc ==> b !in Without(list, k)
  {
  }

  lemma UpperPlace(m: Memory, base: nat, list: seq<nat>, bp: nat, t: nat)
    requires Chain(m, base, list) && Belongs(list, bp, t) && t + 1 < |list|
    ensures Belongs(Without(list, t + 1), bp, t)
  {
    WithoutAt(list, t + 1, t);
    if t + 2 < |list| {
      WithoutAt(list, t + 1, t + 1);
      Ascending(m, base, list, t + 1, t + 2);
    }
  }

  lemma UpperOwns(m: Memory, base: nat, list: seq<nat>, own: map<nat, nat>, alloc: set<nat>, bp: nat, t: nat)
    requires CanFree(m, base, list, own, alloc, bp, t) && t + 1 < |list| && list[t] in m && bp in m && list[t + 1] in m
    requires bp + m[bp].size == list[t + 1]
    ensures var q := list[t + 1]; var m1 := SetPtr(m, list[t], m[q].ptr);
      Owns(m1[bp := Header(m[q].ptr, m[bp].size + m[q].size)], Merge(own, bp, q), Frees(Without(list, t + 1)) + alloc)
  {
    var p, q, blocks := list[t], list[t + 1], Frees(list) + alloc;
    FreesWithout(m, base, list, t + 1);
    assert blocks - {q} == Frees(Without(list, t + 1)) + alloc;
    Absorbed(m, own, blocks, p, bp, q);
  }

  /** Block q, next to bp, becomes part of it; pointers do not matter to the units. */
  lemma Absorbed(m: Memory, own: map<nat, nat>, blocks: set<nat>, p: nat, bp: nat, q: nat)
    requires Owns(m, own, blocks) && bp in blocks && q in blocks && p in m && bp in m && q in m
    requires bp != q && bp + m[bp].size == q
    ensures Owns(SetPtr(m, p, m[q].ptr)[bp := Header(m[q].ptr, m[bp].size + m[q].size)],
      Merge(own, bp, q), blocks - {q})
  {
    var m1 := SetPtr(m, p, m[q].ptr);
    var m2 := SetPtr(m1, bp, m[q].ptr);
    PtrOwns(m, own, blocks, p, m[q].ptr);
    PtrOwns(m1, own, blocks, bp, m[q].ptr);
    UpperMerged(m2, own, blocks, bp, q);
    assert m2[bp := Header(m2[bp].ptr, m2[bp].size + m2[q].size)]
        == m1[bp := Header(m[q].ptr, m[bp].size + m[q].size)];
  }

  lemma UpperMerged(m: Memory, own: map<nat, nat>, blocks: set<nat>, a: nat, b: nat)
    requires Owns(m, own, blocks) && a in blocks && b in blocks && a in m && b in m && a != b && a + m[a].size == b
    ensures Owns(m[a := Header(m[a].ptr, m[a].size + m[b].size)], Merge(own, a, b), blocks - {b})
  {
    Merged(m, own, blocks, a, b);
  }

  /** Blocks other than bp that are allocated keep their headers and their units; no unit is gained or lost. */
  ghost predicate Others(m: Memory, own: map<nat, nat>, m': Memory, own': map<nat, nat>, alloc: set<nat>) {
    && own'.Keys == own.Keys
    && (forall b :: b in alloc ==> b in m && b in m' && m'[b] == m[b])
    && (forall u :: u in own && own[u] in alloc ==> own'[u] == own[u])
  }

  /** Some free block has n units. */
  ghost predicate BigEnough(m: Memory, list: seq<nat>, n: nat) {
    exists i :: 0 < i < |list| && list[i] in m && m[list[i]].size >= n
  }

  /** free, at the right place: whatever is adjacent is merged. */
  lemma FreeOk(m: Memory, base: nat, list: seq<nat>, own: map<nat, nat>, alloc: set<nat>, bp: nat, t: nat)
    returns (list': seq<nat>, own': map<nat, nat>)
    requires CanFree(m, base, list, own, alloc, bp, t)
    ensures list[t] in m && bp in m && m[list[t]].ptr in m
    ensures var m' := JoinLower(JoinUpper(m, list[t], bp), list[t], bp);
      && Ok(m', base, list', own', alloc - {bp}) && Others(m, own, m', own', alloc - {bp})
      && BigEnough(m', list', m[bp].size)
    ensures list[t] in list'
  {
    var p := list[t];
    Neighbours(m, base, list, own, alloc, bp, t);
    var q := m[p].ptr;
    if bp + m[bp].size == q {
      assert t + 1 < |list| && q == list[t + 1];
      TakeUpper(m, base, list, own, alloc, bp, t);
      var m2 := SetPtr(m, p, m[q].ptr)[bp := Header(m[q].ptr, m[bp].size + m[q].size)];
      var list1 := Without(list, t + 1);
      WithoutAt(list, t + 1, t);
      UpperGap(m, base, list, own, alloc, bp, t);
      list', own' := FreeGap(m2, base, list1, Merge(own, bp, q), alloc, bp, t);
      SameMemory(m, m2, p, bp, q);
      AllocKept(m, own, list, alloc, bp, p, q);
    } else {
      list', own' := FreeGap(m, base, list, own, alloc, bp, t);
    }
  }

  /** The case left when the block above bp, if any, is not adjacent. */
  lemma FreeGap(m: Memory, base: nat, list: seq<nat>, own: map<nat, nat>, alloc: set<nat>, bp: nat, t: nat)
    returns (list': seq<nat>, own': map<nat, nat>)
    requires CanFree(m, base, list, own, alloc, bp, t) && list[t] in m && bp in m && m[list[t]].ptr in m
    requires bp + m[bp].size != m[list[t]].ptr
    ensures var m' := JoinLower(JoinUpper(m, list[t], bp), list[t], bp);
      && Ok(m', base, list', own', alloc - {bp}) && Others(m, own, m', own', alloc - {bp})
      && BigEnough(m', list', m[bp].size)
    ensures list[t] in list'
  {
    var p := list[t];
    forall b | b in alloc ensures b in m && b != p {
      assert BlockOk(m, own, b) && b !in list;
    }
    if p + m[p].size == bp {
      FreeBelow(m, base, list, own, alloc, bp, t);
      list', own' := list, Merge(own, p, bp);
      assert t > 0 by { Neighbours(m, base, list, own, alloc, bp, t); }
    } else {
      FreeApart(m, base, list, own, alloc, bp, t);
      list', own' := With(list, t + 1, bp), own;
      assert list'[t] == p && list'[t + 1] == bp;
    }
  }

  lemma UpperGap(m: Memory, base: nat, list: seq<nat>, own: map<nat, nat>, alloc: set<nat>, bp: nat, t: nat)
    requires CanFree(m, base, list, own, alloc, bp, t) && t + 1 < |list| && bp in m && list[t + 1] in m
    requires bp + m[bp].size == list[t + 1]
    ensures m[list[t + 1]].ptr in m && bp + m[bp].size + m[list[t + 1]].size != m[list[t + 1]].ptr
  {
    assert LinkAt(m, list, t + 1) && LinkAt(m, list, Succ(t + 1, |list|));
    if t + 2 < |list| {
      Ascending(m, base, list, t + 1, t + 2);
    }
  }

  lemma SameMemory(m: Memory, m2: Memory, p: nat, bp: nat, q: nat)
    requires p in m && bp in m && q in m && p != bp && m[p].ptr == q && bp + m[bp].size == q && m[q].ptr in m
    requires m2 == SetPtr(m, p, m[q].ptr)[bp := Header(m[q].ptr, m[bp].size + m[q].size)]
    requires m[q].ptr in m2 && bp + m2[bp].size != m[q].ptr
    ensures JoinLower(JoinUpper(m2, p, bp), p, bp) == JoinLower(JoinUpper(m, p, bp), p, bp)
  {
  }

  lemma AllocKept(m: Memory, own: map<nat, nat>, list: seq<nat>, alloc: set<nat>, bp: nat, p: nat, q: nat)
    requires Owns(m, own, Frees(list) + alloc) && p in list && q in list && p in m && q in m && bp in m
    requires forall b :: b in alloc ==> b !in list
    ensures var m2 := SetPtr(m, p, m[q].ptr)[bp := Header(m[q].ptr, m[bp].size + m[q].size)];
      Others(m, own, m2, Merge(own, bp, q), alloc - {bp})
  {
    forall b | b in alloc ensures b in m {
      assert BlockOk(m, own, b);
    }
  }

  // ----- What malloc takes from a free block -----

  /** A block of exactly the size asked for is taken off the list. */
  lemma TakeWhole(m: Memory, base: nat, list: seq<nat>, own: map<nat, nat>, alloc: set<nat>, k: nat)
    requires Ok(m, base, list, own, alloc) && k + 1 < |list|
    ensures list[k] in m && list[k + 1] in m
    ensures var p := list[k + 1]; var m' := SetPtr(m, list[k], m[p].ptr);
      Ok(m', base, Without(list, k + 1), own, alloc + {p}) && Others(m, own, m', own, alloc) && p !in alloc
  {
    var p, list' := list[k + 1], Without(list, k + 1);
    Removed(m, base, list, k);
    PtrOwns(m, own, Frees(list) + alloc, list[k], m[p].ptr);
    FreesWithout(m, base, list, k + 1);
    assert Frees(list') + (alloc + {p}) == Frees(list) + alloc;
    Sorted(m, base, list);
    forall b | b in alloc + {p} ensures b > base && b !in list' {
      forall i | 0 <= i < |list'| ensures list'[i] != b {
        WithoutAt(list, k + 1, i);
      }
    }
    forall b | b in alloc ensures b in m && b != list[k] {
      assert BlockOk(m, own, b) && b !in list;
    }
  }

  /** The end of a larger block is cut off. */
  lemma TakeTail(m: Memory, base: nat, list: seq<nat>, own: map<nat, nat>, alloc: set<nat>,
                 k: nat, p: nat, rest: nat, c: nat,
                 h: Header)
    requires Ok(m, base, list, own, alloc) && 0 < k < |list| && p == list[k] && p in m
    requires 0 < rest < m[p].size && c == p + rest && h.size == m[p].size - rest
    ensures c !in alloc && Ok(SetSize(m, p, rest)[c := h], base, list, Cut(own, p, c), alloc + {c})
    ensures Others(m, own, SetSize(m, p, rest)[c := h], Cut(own, p, c), alloc)
  {
    var n, blocks := m[p].size - rest, Frees(list) + alloc;
    assert p in Frees(list);
    Ascending(m, base, list, 0, k);
    WasCut(m, own, blocks, p, n, h);
    forall i | 0 <= i < |list| ensures list[i] != c {
      assert i > 0 ==> list[i] in Frees(list);
    }
    if k + 1 < |list| {
      Ascending(m, base, list, k, k + 1);
    }
    Resized(m, base, list, k, rest);
    Irrelevant(SetSize(m, p, rest), base, list, c, h);
    assert blocks + {c} == Frees(list) + (alloc + {c});
    forall b | b in alloc ensures b in m && b != p && b != c {
      assert BlockOk(m, own, b);
    }
  }

  lemma ListAbove(m: Memory, base: nat, list: seq<nat>, p: nat)
    requires Chain(m, base, list) && p in list
    ensures p >= base > 0 && p in m
  {
    var i :| 0 <= i < |list| && list[i] == p;
    assert LinkAt(m, list, i);
    if i > 0 {
      Ascending(m, base, list, 0, i);
    }
  }

  /** Index i was passed on the way round from f to j. */
  predicate Passed(f: nat, j: nat, i: nat) {
    if f <= j then f < i <= j else i > f || i <= j
  }

  /** All free blocks passed so far are too small. */
  ghost predicate TooSmall(m: Memory, list: seq<nat>, f: nat, j: nat, n: nat) {
    forall i :: 0 <= i < |list| && Passed(f, j, i) ==> list[i] in m && m[list[i]].size < n
  }

  lemma PassNext(m: Memory, list: seq<nat>, f: nat, j: nat, n: nat)
    requires f < |list| && j < |list| && TooSmall(m, list, f, j, n)
    requires var k := Succ(j, |list|); list[k] in m && m[list[k]].size < n
    ensures var k := Succ(j, |list|);
      if k == f then !BigEnough(m, list, n) else TooSmall(m, list, f, k, n)
  {
    var k := Succ(j, |list|);
    if k != f {
      forall i | 0 <= i < |list| && Passed(f, k, i) ensures list[i] in m && m[list[i]].size < n {
        assert i == k || Passed(f, j, i);
      }
    } else {
      forall i | 0 < i < |list| && list[i] in m ensures m[list[i]].size < n {
        assert i == k || Passed(f, j, i);
      }
    }
  }

  /** sizeof(Header) */
  const UNIT: nat := 16

  class Heap {
    /** The address of the static header `base`, below every address that sbrk returns. */
    const base: nat
    var mem: Memory
    var freep: nat
    ghost var list: seq<nat>
    ghost var own: map<nat, nat>
    ghost var alloc: set<nat>
    /** One past the highest unit that sbrk has supplied. */
    ghost var top: nat

    ghost predicate Valid()
      reads this
    {
      && 0 < base < top && (forall u :: u in own ==> base < u < top)
      && (if freep == 0 then own == map[] && alloc == {} && list == []
          else Ok(mem, base, list, own, alloc) && freep in list)
    }

    constructor (b: nat)
      requires b > 0
      ensures Valid() && base == b && alloc == {} && own == map[] && freep == 0
    {
      base := b;
      mem, freep := map[], 0;
      list, own, alloc, top := [], map[], {}, b + 1;
    }

    /** free's search: the free block after which bp belongs, from wherever freep points. */
    method FindSpot(bp: nat) returns (p: nat, ghost t: nat)
      requires Valid() && freep != 0 && bp > base && bp !in list
      ensures Belongs(list, bp, t) && p == list[t]
    {
      t := FindPlace(mem, base, list, bp, |list|);
      ghost var k: nat :| k < |list| && list[k] == freep;
      p := freep;
      StopsAt(mem, base, list, bp, t, k);
      while !(p < bp < mem[p].ptr)
        invariant k < |list| && p == list[k] && LinkAt(mem, list, k)
        invariant (p < bp < mem[p].ptr || (p >= mem[p].ptr && (bp > p || bp < mem[p].ptr))) <==> k == t
        decreases if k <= t then t - k else |list| - k + t
      {
        if p >= mem[p].ptr && (bp > p || bp < mem[p].ptr) {
          break;
        }
        p := mem[p].ptr;
        k := Succ(k, |list|);
        StopsAt(mem, base, list, bp, t, k);
      }
    }

    /** free(ap) for the block whose header is at bp. */
    method Free(bp: nat)
      requires Valid() && bp in alloc
      modifies this
      ensures Valid() && alloc == old(alloc) - {bp} && top == old(top) && freep != 0
      ensures Others(old(mem), old(own), mem, own, alloc)
      ensures bp in old(mem) && BigEnough(mem, list, old(mem)[bp].size)
    {
      assert bp in alloc && bp !in list;
      var p; ghost var t;
      p, t := FindSpot(bp);
      ghost var list', own' := FreeOk(mem, base, list, own, alloc, bp, t);
      Release(p, bp);
      list, own, alloc := list', own', alloc - {bp};
      freep := p;
      ListAbove(mem, base, list, p);
    }

    /** The header updates of free. */
    method Release(p: nat, bp: nat)
      requires p in mem && bp in mem && mem[p].ptr in mem && p != bp
      modifies `mem
      ensures mem == JoinLower(JoinUpper(old(mem), p, bp), p, bp)
    {
      var q := mem[p].ptr;
      if bp + mem[bp].size == q {
        mem := mem[bp := mem[bp].(size := mem[bp].size + mem[q].size)];
        mem := mem[bp := mem[bp].(ptr := mem[q].ptr)];
      } else {
        mem := mem[bp := mem[bp].(ptr := q)];
      }
      if p + mem[p].size == bp {
        mem := mem[p := mem[p].(size := mem[p].size + mem[bp].size)];
        mem := mem[p := mem[p].(ptr := mem[bp].ptr)];
      } else {
        mem := mem[p := mem[p].(ptr := bp)];
      }
    }

    /** morecore: core is what sbrk returns, 0 for an error. */
    method Morecore(nu: nat, core: nat) returns (p: nat)
      requires Valid() && freep != 0 && (core == 0 || core >= top)
      modifies this
      ensures Valid() && alloc == old(alloc)
      ensures p == 0 <==> core == 0
      ensures core == 0 ==> mem == old(mem) && own == old(own) && list == old(list) && freep == old(freep)
      ensures core != 0 ==> p == freep && BigEnough(mem, list, nu)
      ensures core != 0 ==> Supply(old(mem), old(own), mem, own, alloc, core, nu)
    {
      var n := if nu < 4096 then 4096 else nu;
      if core == 0 {
        return 0;
      }
      ghost var mem0, own0 := mem, own;
      AllocInMemory(mem, base, list, own, alloc);
      var h := Header(if core in mem then mem[core].ptr else 0, n);
      NewBlock(mem, base, list, own, alloc, core, h);
      mem := mem[core := h];
      own, alloc, top := own + Fresh(core, n), alloc + {core}, core + n;
      Free(core);
      SupplyThenFree(mem0, own0, h, mem, own, alloc, core, nu);
      return freep;
    }

    /** Take n units from free block p, which prevp points to. */
    method Take(prevp: nat, p: nat, n: nat, ghost k: nat) returns (r: nat)
      requires Valid() && freep != 0 && n > 0 && k + 1 < |list| && prevp == list[k] && p == list[k + 1]
      requires p in mem && prevp in mem && mem[p].size >= n
      modifies this
      ensures Valid() && freep != 0 && r > 0 && r - 1 !in old(alloc) && alloc == old(alloc) + {r - 1}
      ensures r - 1 in mem && mem[r - 1].size == n && Others(old(mem), old(own), mem, own, old(alloc))
    {
      if mem[p].size == n {
        TakeAll(prevp, p, k);
        return p + 1;
      }
      var b := TakePart(p, n, k);
      freep := prevp;
      ListAbove(mem, base, list, prevp);
      return b + 1;
    }

    method TakeAll(prevp: nat, p: nat, ghost k: nat)
      requires Valid() && freep != 0 && k + 1 < |list| && prevp == list[k] && p == list[k + 1]
      requires p in mem && prevp in mem
      modifies this
      ensures Valid() && freep != 0 && p !in old(alloc) && alloc == old(alloc) + {p}
      ensures p in mem && mem[p] == old(mem)[p] && Others(old(mem), old(own), mem, own, old(alloc))
    {
      TakeWhole(mem, base, list, own, alloc, k);
      Distinct(mem, base, list, k, k + 1);
      mem := mem[prevp := mem[prevp].(ptr := mem[p].ptr)];
      WithoutAt(list, k + 1, k);
      list := Without(list, k + 1);
      alloc := alloc + {p};
      freep := prevp;
      assert list[k] == prevp;
      ListAbove(mem, base, list, prevp);
    }

    method TakePart(p: nat, n: nat, ghost k: nat) returns (b: nat)
      requires Valid() && freep != 0 && 0 < n && k + 1 < |list| && p == list[k + 1] && p in mem && n < mem[p].size
      modifies `mem, `own, `alloc
      ensures Valid() && b !in old(alloc) && alloc == old(alloc) + {b}
      ensures b in mem && mem[b].size == n && Others(old(mem), old(own), mem, own, old(alloc))
    {
      var rest := mem[p].size - n;
      b := p + rest;
      var h := Header(if b in mem then mem[b].ptr else 0, n);
      TakeTail(mem, base, list, own, alloc, k + 1, p, rest, b, h);
      CutKeys(own, p, b);
      mem := SetSize(mem, p, rest)[b := h];
      own := Cut(own, p, b);
      alloc := alloc + {b};
    }

    /** malloc's first call makes the list of the one empty block. */
    method Start()
      requires Valid()
      modifies this
      ensures Valid() && freep != 0 && alloc == old(alloc) && own == old(own) && top == old(top)
      ensures old(freep) != 0 ==> mem == old(mem) && list == old(list) && freep == old(freep)
    {
      if freep == 0 {
        mem := mem[base := Header(base, 0)];
        freep := base;
        list := [base];
        assert LinkAt(mem, list, 0) && Frees(list) == {};
      }
    }

    /**
     malloc: a block of enough units that no other block shares, and nothing else allocated changes; 0 only if
     no free block was large enough and sbrk refused, and more memory is asked for only if none was.  core is what sbrk
     returns if it is called, which happens at most once.  The size in bytes fits an int, as sbrk's argument must.
     */
    method Malloc(nbytes: nat, core: nat) returns (r: nat)
      requires Valid() && (core == 0 || core >= top) && ((nbytes + UNIT - 1) / UNIT + 1) * UNIT <= 0x7FFF_FFFF
      modifies this
      ensures Valid() && freep != 0
      ensures r == 0 ==> core == 0 && alloc == old(alloc) && own == old(own)
      ensures r == 0 ==> !old(BigEnough(mem, list, (nbytes + UNIT - 1) / UNIT + 1))
      ensures r != 0 ==> r - 1 !in old(alloc) && alloc == old(alloc) + {r - 1}
      ensures r != 0 ==> r - 1 in mem && mem[r - 1].size == (nbytes + UNIT - 1) / UNIT + 1
      ensures old(alloc) <= old(mem).Keys && own.Keys >= old(own).Keys
      ensures old(BigEnough(mem, list, (nbytes + UNIT - 1) / UNIT + 1)) ==> own.Keys == old(own).Keys
      ensures forall b :: b in old(alloc) ==> b in mem && mem[b].size == old(mem)[b].size
      ensures forall u :: u in old(own) && old(own)[u] in old(alloc) ==> own[u] == old(own)[u]
    {
      var nunits := (nbytes + UNIT - 1) / UNIT + 1;
      if freep != 0 {
        AllocInMemory(mem, base, list, own, alloc);
      }
      Start();
      r := Search(nunits, core);
    }

    /** The block after prevp is large enough: the caller's blocks stay as they were at the start. */
    method TakeNext(prevp: nat, p: nat, n: nat, ghost j: nat, ghost mem0: Memory, ghost own0: map<nat, nat>)
      returns (r: nat)
      requires Valid() && freep != 0 && n > 0 && j < |list| && prevp == list[j] && p == list[Succ(j, |list|)]
      requires prevp in mem && p in mem && mem[p].size >= n && Kept(mem0, own0, mem, own, alloc)
      modifies this
      ensures Valid() && freep != 0 && Kept(mem0, own0, mem, own, old(alloc))
      ensures r > 0 && r - 1 !in old(alloc) && alloc == old(alloc) + {r - 1} && r - 1 in mem && mem[r - 1].size == n
      ensures own.Keys == old(own).Keys
    {
      assert LinkAt(mem, list, Succ(j, |list|)) && Succ(j, |list|) != 0;
      ghost var mem1, own1, alloc1 := mem, own, alloc;
      r := Take(prevp, p, n, j);
      KeptThen(mem0, own0, mem1, own1, mem, own, alloc1);
    }

    /** malloc's loop. */
    method Search(nunits: nat, core: nat) returns (r: nat)
      requires Valid() && freep != 0 && nunits > 0 && (core == 0 || core >= top)
      modifies this
      ensures Valid() && freep != 0
      ensures r == 0 ==> core == 0 && !old(BigEnough(mem, list, nunits))
      ensures r == 0 ==> alloc == old(alloc) && own == old(own) && mem == old(mem)
      ensures r != 0 ==> r - 1 !in old(alloc) && alloc == old(alloc) + {r - 1}
      ensures r != 0 ==> r - 1 in mem && mem[r - 1].size == nunits
      ensures Kept(old(mem), old(own), mem, own, old(alloc))
      ensures old(BigEnough(mem, list, nunits)) ==> own.Keys == old(own).Keys
    {
      ghost var mem0, own0, alloc0 := mem, own, alloc;
      AllocInMemory(mem, base, list, own, alloc);
      ghost var f: nat :| f < |list| && list[f] == freep;
      ghost var j: nat, grown: bool := f, false;
      assert LinkAt(mem, list, f);
      var prevp := freep;
      var p := mem[prevp].ptr;
      while true
        invariant Valid() && freep != 0 && alloc == alloc0 && Kept(mem0, own0, mem, own, alloc0)
        invariant f < |list| && list[f] == freep && j < |list| && prevp == list[j] && p == list[Succ(j, |list|)]
        invariant TooSmall(mem, list, f, j, nunits)
        invariant grown ==> !old(BigEnough(mem, list, nunits))
        invariant if grown then BigEnough(mem, list, nunits)
          else mem == mem0 && own == own0 && list == old(list) && top == old(top)
        decreases if grown then 0 else 1, if f <= j then |list| - (j - f) else f - j
      {
        assert LinkAt(mem, list, Succ(j, |list|)) && LinkAt(mem, list, j);
        if mem[p].size >= nunits {
          r := TakeNext(prevp, p, nunits, j, mem0, own0);
          return;
        }
        PassNext(mem, list, f, j, nunits);
        if p == freep {
          Distinct(mem, base, list, Succ(j, |list|), f);
          assert !grown;
          p := Morecore(nunits, core);
          if p == 0 {
            return 0;
          }
          grown := true;
          f :| 0 <= f < |list| && list[f] == freep;
          j := f;
        } else {
          j := Succ(j, |list|);
        }
        assert LinkAt(mem, list, j);
        prevp, p := p, mem[p].ptr;
      }
    }
  }

  /** What a caller keeps: its blocks' sizes and units, while units are only ever added. */
  ghost predicate Kept(m: Memory, own: map<nat, nat>, m': Memory, own': map<nat, nat>, alloc: set<nat>) {
    && own.Keys <= own'.Keys
    && (forall b :: b in alloc ==> b in m && b in m' && m'[b].size == m[b].size)
    && (forall u :: u in own && own[u] in alloc ==> own'[u] == own[u])
  }

  /** n fresh units from core on, and otherwise only merging of free blocks. */
  ghost predicate Supply(m: Memory, own: map<nat, nat>, m': Memory, own': map<nat, nat>,
                         alloc: set<nat>, core: nat, nu: nat) {
    && Kept(m, own, m', own', alloc)
    && (forall u :: u in own' <==> u in own || InRange(u, core, if nu < 4096 then 4096 else nu))
  }

  /** The region that sbrk returns, as an allocated block. */
  lemma NewBlock(m: Memory, base: nat, list: seq<nat>, own: map<nat, nat>, alloc: set<nat>, core: nat, h: Header)
    requires Ok(m, base, list, own, alloc) && h.size > 0 && core > base && forall u :: u in own ==> u < core
    ensures core !in alloc && core !in list
    ensures Ok(m[core := h], base, list, own + Fresh(core, h.size), alloc + {core})
  {
    var blocks := Frees(list) + alloc;
    Supplied(m, own, blocks, core, h);
    forall i | 0 <= i < |list| ensures list[i] != core {
      assert i > 0 ==> list[i] in Frees(list);
    }
    Irrelevant(m, base, list, core, h);
    assert blocks + {core} == Frees(list) + (alloc + {core});
  }

  lemma CutKeys(own: map<nat, nat>, p: nat, b: nat)
    ensures Cut(own, p, b).Keys == own.Keys
  {
  }

  lemma Distinct(m: Memory, base: nat, list: seq<nat>, i: nat, j: nat)
    requires Chain(m, base, list) && i < |list| && j < |list|
    ensures list[i] == list[j] ==> i == j
  {
    Sorted(m, base, list);
  }

  lemma AllocInMemory(m: Memory, base: nat, list: seq<nat>, own: map<nat, nat>, alloc: set<nat>)
    requires Ok(m, base, list, own, alloc)
    ensures alloc <= m.Keys && Kept(m, own, m, own, alloc)
  {
    forall b | b in alloc ensures b in m {
      assert BlockOk(m, own, b);
    }
  }

  lemma KeptThen(m0: Memory, own0: map<nat, nat>, m1: Memory, own1: map<nat, nat>, m2: Memory, own2: map<nat, nat>,
                 alloc: set<nat>)
    requires Kept(m0, own0, m1, own1, alloc) && Others(m1, own1, m2, own2, alloc)
    ensures Kept(m0, own0, m2, own2, alloc)
  {
  }

  lemma SupplyThenFree(m: Memory, own: map<nat, nat>, h: Header, m': Memory, own': map<nat, nat>, alloc: set<nat>,
                       core: nat, nu: nat)
    requires h.size == (if nu < 4096 then 4096 else nu) && alloc <= m.Keys && core !in alloc
    requires forall u :: u in own ==> u < core
    requires Others(m[core := h], own + Fresh(core, h.size), m', own', alloc)
    ensures Supply(m, own, m', own', alloc, core, nu)
  {
    forall u ensures u in own' <==> u in own || InRange(u, core, h.size) {
    }
  }
}
