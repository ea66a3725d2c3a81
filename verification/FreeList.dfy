/**
 The free list of the user-level allocator (user/umalloc.c; section 8.7 of Kernighan and Ritchie, The
 C Programming Language, 2nd edition).  Addresses count units of one header; 0 is the null pointer.
 */
module FreeList {

  datatype Header = Header(ptr: nat, size: nat)

  type Memory = map<nat, Header>

  function Succ(i: nat, n: nat): nat { if i + 1 == n then 0 else i + 1 }

  /** The i-th free block points to the next, the last back to the first. */
  ghost predicate LinkAt(m: Memory, list: seq<nat>, i: nat)
    requires i < |list|
  {
    list[i] in m && m[list[i]].ptr == list[Succ(i, |list|)]
  }

  /** Free blocks i and i + 1 are in order and leave a gap: adjacent ones would have been merged. */
  ghost predicate GapAt(m: Memory, list: seq<nat>, i: nat)
    requires i + 1 < |list|
  {
    list[i] in m && list[i] + m[list[i]].size < list[i + 1]
  }

  /** A circular list through base and then, in order of address, the free blocks above it. */
  ghost predicate Chain(m: Memory, base: nat, list: seq<nat>) {
    && |list| > 0 && list[0] == base && base > 0 && base in m && m[base].size == 0
    && (forall i :: 0 <= i < |list| ==> LinkAt(m, list, i))
    && (forall i :: 0 <= i < |list| - 1 ==> GapAt(m, list, i))
    && (forall i :: 0 < i < |list| ==> list[i] in m && m[list[i]].size > 0)
  }

  /** The list is sorted. */
  lemma {:induction false} Ascending(m: Memory, base: nat, list: seq<nat>, i: nat, j: nat)
    requires Chain(m, base, list) && i < j < |list|
    ensures list[i] in m && list[i] + m[list[i]].size < list[j]
    decreases j - i
  {
    assert GapAt(m, list, i);
    if i + 1 < j {
      Ascending(m, base, list, i + 1, j);
    }
  }

  lemma Sorted(m: Memory, base: nat, list: seq<nat>)
    requires Chain(m, base, list)
    ensures forall i, j :: 0 <= i < j < |list| ==> list[i] < list[j]
  {
    forall i, j | 0 <= i < j < |list| ensures list[i] < list[j] {
      Ascending(m, base, list, i, j);
    }
  }

  /** Position t of the list is where a block at bp belongs: after list[t], before the next if there is one. */
  ghost predicate Belongs(list: seq<nat>, bp: nat, t: nat) {
    t < |list| && list[t] < bp && (t + 1 < |list| ==> bp < list[t + 1])
  }

  lemma {:induction false} FindPlace(m: Memory, base: nat, list: seq<nat>, bp: nat, n: nat) returns (t: nat)
    requires Chain(m, base, list) && bp > base && bp !in list && 0 < n <= |list|
    requires n < |list| ==> bp < list[n]
    ensures Belongs(list, bp, t)
    decreases n
  {
    if n == 1 || list[n - 1] < bp {
      t := n - 1;
    } else {
      t := FindPlace(m, base, list, bp, n - 1);
    }
  }

  /** free's test, at the right place and nowhere else. */
  lemma StopsAt(m: Memory, base: nat, list: seq<nat>, bp: nat, t: nat, i: nat)
    requires Chain(m, base, list) && bp > base && bp !in list && Belongs(list, bp, t) && i < |list|
    ensures LinkAt(m, list, i)
    ensures var p := list[i]; var q := m[p].ptr; (p < bp < q || (p >= q && (bp > p || bp < q))) <==> i == t
  {
    Sorted(m, base, list);
    assert LinkAt(m, list, i);
  }

  // ----- Changing the list -----

  function Without(list: seq<nat>, k: nat): seq<nat>
    requires k < |list|
  {
    list[..k] + list[k + 1..]
  }

  function With(list: seq<nat>, k: nat, bp: nat): seq<nat>
    requires k <= |list|
  {
    list[..k] + [bp] + list[k..]
  }

  function SetPtr(m: Memory, p: nat, q: nat): Memory
    requires p in m
  {
    m[p := m[p].(ptr := q)]
  }

  function SetSize(m: Memory, p: nat, n: nat): Memory
    requires p in m
  {
    m[p := m[p].(size := n)]
  }

  /** Headers of blocks that are not on the list do not matter to it. */
  lemma Irrelevant(m: Memory, base: nat, list: seq<nat>, b: nat, h: Header)
    requires Chain(m, base, list) && b !in list
    ensures Chain(m[b := h], base, list)
  {
    var m' := m[b := h];
    forall i | 0 <= i < |list| ensures LinkAt(m', list, i) {
      assert LinkAt(m, list, i) && list[i] != b;
    }
    forall i | 0 <= i < |list| - 1 ensures GapAt(m', list, i) {
      assert GapAt(m, list, i);
    }
  }

  /** A block put in after position t, with gaps on both sides. */
  lemma Inserted(m: Memory, base: nat, list: seq<nat>, bp: nat, t: nat)
    requires Chain(m, base, list) && Belongs(list, bp, t) && bp in m && m[bp].size > 0 && bp !in list
    requires list[t] in m && m[bp].ptr == m[list[t]].ptr
    requires list[t] + m[list[t]].size < bp && (t + 1 < |list| ==> bp + m[bp].size < list[t + 1])
    ensures Chain(SetPtr(m, list[t], bp), base, With(list, t + 1, bp))
  {
    var m', list' := SetPtr(m, list[t], bp), With(list, t + 1, bp);
    Sorted(m, base, list);
    forall i | 0 <= i < |list'| ensures LinkAt(m', list', i) {
      assert LinkAt(m, list, if i <= t then i else i - 1);
    }
    forall i | 0 <= i < |list'| - 1 ensures GapAt(m', list', i) {
      if i < t {
        assert GapAt(m, list, i);
      } else if i > t + 1 {
        assert GapAt(m, list, i - 1);
      }
    }
    forall i | 0 < i < |list'| ensures list'[i] in m' && m'[list'[i]].size > 0 {
      assert i != t + 1 ==> LinkAt(m, list, if i <= t then i else i - 1);
    }
  }

  lemma WithoutAt(list: seq<nat>, k: nat, i: nat)
    requires k < |list| && i < |list| - 1
    ensures Without(list, k)[i] == list[if i < k then i else i + 1]
  {
  }

  /** The block after position k taken out. */
  lemma Removed(m: Memory, base: nat, list: seq<nat>, k: nat)
    requires Chain(m, base, list) && k + 1 < |list|
    ensures list[k] in m && list[k + 1] in m
    ensures Chain(SetPtr(m, list[k], m[list[k + 1]].ptr), base, Without(list, k + 1))
  {
    assert LinkAt(m, list, k) && LinkAt(m, list, k + 1);
    var m', list' := SetPtr(m, list[k], m[list[k + 1]].ptr), Without(list, k + 1);
    Sorted(m, base, list);
    forall i | 0 <= i < |list'| ensures LinkAt(m', list', i) && (i > 0 ==> m'[list'[i]].size > 0) {
      RemovedLink(m, base, list, k, i);
    }
    forall i | 0 <= i < |list'| - 1 ensures GapAt(m', list', i) {
      RemovedGap(m, base, list, k, i);
    }
    WithoutAt(list, k + 1, 0);
  }

  lemma RemovedLink(m: Memory, base: nat, list: seq<nat>, k: nat, i: nat)
    requires Chain(m, base, list) && k + 1 < |list| && list[k] in m && list[k + 1] in m && i < |list| - 1
    ensures LinkAt(SetPtr(m, list[k], m[list[k + 1]].ptr), Without(list, k + 1), i)
    ensures i > 0 ==> SetPtr(m, list[k], m[list[k + 1]].ptr)[Without(list, k + 1)[i]].size > 0
  {
    var j := if i <= k then i else i + 1;
    var next := if i == k then Succ(k + 1, |list|) else Succ(j, |list|);
    assert LinkAt(m, list, j) && LinkAt(m, list, k + 1);
    WithoutAt(list, k + 1, i);
    RemovedNext(list, k, i, next);
    if j != k {
      Ascending(m, base, list, if j < k then j else k, if j < k then k else j);
    }
  }

  lemma RemovedNext(list: seq<nat>, k: nat, i: nat, next: nat)
    requires k + 1 < |list| && i < |list| - 1
    requires next == if i == k then Succ(k + 1, |list|) else Succ(if i < k then i else i + 1, |list|)
    ensures next < |list| && Without(list, k + 1)[Succ(i, |list| - 1)] == list[next]
  {
    WithoutAt(list, k + 1, Succ(i, |list| - 1));
  }

  lemma RemovedGap(m: Memory, base: nat, list: seq<nat>, k: nat, i: nat)
    requires Chain(m, base, list) && k + 1 < |list| && list[k] in m && list[k + 1] in m && i < |list| - 2
    ensures GapAt(SetPtr(m, list[k], m[list[k + 1]].ptr), Without(list, k + 1), i)
  {
    var j := if i <= k then i else i + 1;
    assert GapAt(m, list, j);
    WithoutAt(list, k + 1, i);
    WithoutAt(list, k + 1, i + 1);
    if i == k {
      Ascending(m, base, list, k, k + 2);
    }
  }

  /** A free block made larger or smaller, with the gap above it left open. */
  lemma Resized(m: Memory, base: nat, list: seq<nat>, k: nat, n: nat)
    requires Chain(m, base, list) && 0 < k < |list| && n > 0
    requires k + 1 < |list| ==> list[k] + n < list[k + 1]
    ensures list[k] in m && Chain(SetSize(m, list[k], n), base, list)
  {
    assert LinkAt(m, list, k);
    var m' := SetSize(m, list[k], n);
    Sorted(m, base, list);
    forall i | 0 <= i < |list| ensures LinkAt(m', list, i) {
      assert LinkAt(m, list, i);
    }
    forall i | 0 <= i < |list| - 1 ensures GapAt(m', list, i) {
      assert GapAt(m, list, i);
    }
  }

  // ----- Who owns each unit -----

  /** Each unit is in the block that own says, and each block has all its units: blocks never overlap. */
  ghost predicate Owns(m: Memory, own: map<nat, nat>, blocks: set<nat>) {
    && (forall b :: b in blocks ==> BlockOk(m, own, b))
    && (forall u :: u in own ==> InBlock(m, own[u], u) && own[u] in blocks)
  }

  predicate InBlock(m: Memory, b: nat, u: nat) { b in m && b <= u < b + m[b].size }

  ghost predicate BlockOk(m: Memory, own: map<nat, nat>, b: nat) {
    b in m && m[b].size > 0 && forall u :: InBlock(m, b, u) ==> u in own && own[u] == b
  }

  /** Two blocks are apart. */
  lemma Disjoint(m: Memory, own: map<nat, nat>, blocks: set<nat>, a: nat, b: nat)
    requires Owns(m, own, blocks) && a in blocks && b in blocks && a < b
    ensures a in m && a + m[a].size <= b
  {
    assert BlockOk(m, own, a) && BlockOk(m, own, b);
    assert InBlock(m, b, b);
    assert own[b] == b && !InBlock(m, a, b);
  }

  /** Block b becomes the upper part of block a, which it follows. */
  ghost function Merge(own: map<nat, nat>, a: nat, b: nat): map<nat, nat> {
    map u | u in own :: if own[u] == b then a else own[u]
  }

  lemma Merged(m: Memory, own: map<nat, nat>, blocks: set<nat>, a: nat, b: nat)
    requires Owns(m, own, blocks) && a in blocks && b in blocks && a in m && b in m && a != b && a + m[a].size == b
    ensures Owns(SetSize(m, a, m[a].size + m[b].size), Merge(own, a, b), blocks - {b})
  {
    var m', own' := SetSize(m, a, m[a].size + m[b].size), Merge(own, a, b);
    assert BlockOk(m, own, a) && BlockOk(m, own, b);
    forall c | c in blocks - {b} ensures BlockOk(m', own', c) {
      assert BlockOk(m, own, c);
      forall u | InBlock(m', c, u) ensures u in own' && own'[u] == c {
        assert c == a ==> InBlock(m, a, u) || InBlock(m, b, u);
        assert c != a ==> InBlock(m, c, u);
      }
    }
    forall u | u in own' ensures InBlock(m', own'[u], u) && own'[u] in blocks - {b} {
      assert InBlock(m, own[u], u);
    }
  }

  /** Block a is cut at c: the upper part becomes a block of its own. */
  ghost function Cut(own: map<nat, nat>, a: nat, c: nat): map<nat, nat> {
    map u | u in own :: if own[u] == a && u >= c then c else own[u]
  }

  lemma WasCut(m: Memory, own: map<nat, nat>, blocks: set<nat>, a: nat, n: nat, h: Header)
    requires Owns(m, own, blocks) && a in blocks && a in m && 0 < n < m[a].size && h.size == n
    ensures var c := a + m[a].size - n;
      c !in blocks && Owns(SetSize(m, a, m[a].size - n)[c := h], Cut(own, a, c), blocks + {c})
  {
    var c := a + m[a].size - n;
    assert BlockOk(m, own, a);
    if c in blocks {
      Disjoint(m, own, blocks, a, c);
    }
    var m', own' := SetSize(m, a, m[a].size - n)[c := h], Cut(own, a, c);
    forall b | b in blocks + {c} ensures BlockOk(m', own', b) {
      assert b != c ==> BlockOk(m, own, b);
      forall u | InBlock(m', b, u) ensures u in own' && own'[u] == b {
        assert b == a || b == c ==> InBlock(m, a, u);
        assert b != a && b != c ==> InBlock(m, b, u);
      }
    }
    forall u | u in own' ensures InBlock(m', own'[u], u) && own'[u] in blocks + {c} {
      assert InBlock(m, own[u], u);
    }
  }

  /** Fresh units, as one new block. */
  lemma Supplied(m: Memory, own: map<nat, nat>, blocks: set<nat>, b: nat, h: Header)
    requires Owns(m, own, blocks) && h.size > 0 && forall u :: u in own ==> u < b
    ensures b !in blocks && Owns(m[b := h], own + Fresh(b, h.size), blocks + {b})
  {
    var m', own' := m[b := h], own + Fresh(b, h.size);
    if b in blocks {
      assert BlockOk(m, own, b) && InBlock(m, b, b);
    }
    forall c | c in blocks + {b} ensures BlockOk(m', own', c) {
      if c != b {
        assert BlockOk(m, own, c);
        forall u | InBlock(m', c, u) ensures u in own' && own'[u] == c {
          assert InBlock(m, c, u);
        }
      }
    }
    forall u | u in own' ensures InBlock(m', own'[u], u) && own'[u] in blocks + {b} {
      if u in own {
        assert InBlock(m, own[u], u);
      }
    }
  }

  predicate InRange(u: nat, b: nat, n: nat) { b <= u < b + n }

  ghost function Fresh(b: nat, n: nat): map<nat, nat> {
    map u: nat | b <= u < b + n && InRange(u, b, n) :: b
  }

  /** A pointer written into a header moves no unit. */
  lemma PtrOwns(m: Memory, own: map<nat, nat>, blocks: set<nat>, p: nat, q: nat)
    requires Owns(m, own, blocks) && p in m
    ensures Owns(SetPtr(m, p, q), own, blocks)
  {
    var m' := SetPtr(m, p, q);
    forall b | b in blocks ensures BlockOk(m', own, b) {
      assert BlockOk(m, own, b);
      forall u | InBlock(m', b, u) ensures u in own && own[u] == b {
        assert InBlock(m, b, u);
      }
    }
    forall u | u in own ensures InBlock(m', own[u], u) && own[u] in blocks {
      assert InBlock(m, own[u], u);
    }
  }
}
