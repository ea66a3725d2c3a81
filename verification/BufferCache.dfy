/**
 The buffer cache (kernel/bio.c): buffers found by block, recycled least recently used first, and
 kept in a doubly linked ring in order of use.  The methods are the critical sections that bio.c
 runs under bcache.lock.
 */
module BufferCache {

  type Block = seq<int>

  datatype Buf = Buf(dev: nat, blockno: nat, valid: bool, refcnt: nat, data: Block)

  predicate Holds(b: Buf, dev: nat, blockno: nat) { b.dev == dev && b.blockno == blockno }

  // ----- What one critical section does to the buffers -----

  /** Buffer i may be handed out for a block: it holds the block, or nothing does and it is unused. */
  predicate CanGrab(bufs: seq<Buf>, dev: nat, blockno: nat, i: nat) {
    i < |bufs| && (Holds(bufs[i], dev, blockno) ||
                   (bufs[i].refcnt == 0 && forall j :: 0 <= j < |bufs| ==> !Holds(bufs[j], dev, blockno)))
  }

  function Grab(bufs: seq<Buf>, dev: nat, blockno: nat, i: nat): seq<Buf>
    requires CanGrab(bufs, dev, blockno, i)
  {
    if Holds(bufs[i], dev, blockno) then AddRef(bufs, i)
    else bufs[i := Buf(dev, blockno, false, 1, bufs[i].data)]
  }

  function AddRef(bufs: seq<Buf>, i: nat): seq<Buf>
    requires i < |bufs|
  {
    bufs[i := bufs[i].(refcnt := bufs[i].refcnt + 1)]
  }

  function DropRef(bufs: seq<Buf>, i: nat): seq<Buf>
    requires i < |bufs| && bufs[i].refcnt > 0
  {
    bufs[i := bufs[i].(refcnt := bufs[i].refcnt - 1)]
  }

  /** No block of a real device is held by two buffers; binit leaves every buffer at device 0. */
  ghost predicate OneEach(bufs: seq<Buf>) {
    forall i, j :: 0 <= i < |bufs| && 0 <= j < |bufs| && i != j && bufs[i].dev != 0 ==>
      !Holds(bufs[j], bufs[i].dev, bufs[i].blockno)
  }

  // ----- The ring -----

  /** Position k of the ring; the head, h, stands before the first and after the last. */
  function At(ring: seq<nat>, k: int, h: nat): nat {
    if 0 <= k < |ring| then ring[k] else h
  }

  /** The links between positions k and k + 1 of the ring. */
  ghost predicate LinkAt(next: seq<nat>, prev: seq<nat>, h: nat, ring: seq<nat>, k: int)
    requires |next| == |prev| == h + 1 && Members(ring, h)
  {
    next[At(ring, k, h)] == At(ring, k + 1, h) && prev[At(ring, k + 1, h)] == At(ring, k, h)
  }

  ghost predicate Members(ring: seq<nat>, h: nat) {
    && (forall k :: 0 <= k < |ring| ==> ring[k] < h)
    && (forall k, m :: 0 <= k < m < |ring| ==> ring[k] != ring[m])
  }

  /** From the list head the links run through ring and back, in both directions. */
  ghost predicate Linked(next: seq<nat>, prev: seq<nat>, h: nat, ring: seq<nat>) {
    && |next| == |prev| == h + 1 && Members(ring, h)
    && forall k :: -1 <= k < |ring| ==> LinkAt(next, prev, h, ring, k)
  }

  function Without(ring: seq<nat>, k: nat): seq<nat>
    requires k < |ring|
  {
    ring[..k] + ring[k + 1..]
  }

  lemma WithoutAt(ring: seq<nat>, k: nat, m: int, h: nat)
    requires k < |ring| && -1 <= m
    ensures At(Without(ring, k), m, h) == At(ring, if m < k then m else m + 1, h)
  {
  }

  lemma Unlink(next: seq<nat>, prev: seq<nat>, h: nat, ring: seq<nat>, k: nat)
    requires Linked(next, prev, h, ring) && k < |ring|
    ensures ring[k] != next[ring[k]] <= h && ring[k] != prev[ring[k]] <= h
    ensures var b := ring[k]; Linked(next[prev[b] := next[b]], prev[next[b] := prev[b]], h, Without(ring, k))
  {
    var b, ring' := ring[k], Without(ring, k);
    assert LinkAt(next, prev, h, ring, k) && LinkAt(next, prev, h, ring, k - 1);
    var next', prev' := next[prev[b] := next[b]], prev[next[b] := prev[b]];
    forall m | -1 <= m < |ring'| ensures LinkAt(next', prev', h, ring', m) {
      WithoutAt(ring, k, m, h);
      WithoutAt(ring, k, m + 1, h);
      var m0 := if m < k then m else m + 1;
      assert LinkAt(next, prev, h, ring, m0);
    }
  }

  lemma PushFront(next: seq<nat>, prev: seq<nat>, h: nat, ring: seq<nat>, b: nat)
    requires Linked(next, prev, h, ring) && b < h && b !in ring
    ensures next[h] == At(ring, 0, h) <= h && next[h] != b
    ensures Linked(next[b := next[h]][h := b], prev[b := h][next[h] := b], h, [b] + ring)
  {
    assert LinkAt(next, prev, h, ring, -1);
    var ring' := [b] + ring;
    var next', prev' := next[b := next[h]][h := b], prev[b := h][next[h] := b];
    forall m | -1 <= m < |ring'| ensures LinkAt(next', prev', h, ring', m) {
      if m > 0 {
        assert LinkAt(next, prev, h, ring, m - 1);
      }
    }
  }

  /** The ring is in order of last use, most recent first. */
  ghost predicate ByUse(ring: seq<nat>, last: seq<nat>, clock: nat) {
    && (forall k :: 0 <= k < |ring| ==> ring[k] < |last| && last[ring[k]] < clock)
    && (forall k, m :: 0 <= k < m < |ring| ==> last[ring[m]] < last[ring[k]])
  }

  lemma FrontByUse(ring: seq<nat>, last: seq<nat>, clock: nat, b: nat)
    requires ByUse(ring, last, clock) && b !in ring && b < |last|
    ensures ByUse([b] + ring, last[b := clock], clock + 1)
  {
    var ring', last' := [b] + ring, last[b := clock];
    forall k, m | 0 <= k < m < |ring'| ensures last'[ring'[m]] < last'[ring'[k]] {
      assert ring'[m] == ring[m - 1];
      if k > 0 {
        assert ring'[k] == ring[k - 1];
      }
    }
  }

  lemma WithoutByUse(ring: seq<nat>, last: seq<nat>, clock: nat, k: nat, h: nat)
    requires ByUse(ring, last, clock) && k < |ring| && Members(ring, h)
    ensures ByUse(Without(ring, k), last, clock) && ring[k] !in Without(ring, k)
    ensures forall b :: b in ring <==> b == ring[k] || b in Without(ring, k)
  {
    var ring' := Without(ring, k);
    forall m | 0 <= m < |ring'| ensures ring'[m] == ring[if m < k then m else m + 1] {
    }
    forall m | 0 <= m < |ring| && m != k ensures ring[m] in ring' {
      assert ring'[if m < k then m else m - 1] == ring[m];
    }
  }

  class Cache {
    const n: nat
    var bufs: seq<Buf>
    /** Links by buffer index; index n is the list head. */
    var next: seq<nat>
    var prev: seq<nat>
    ghost var ring: seq<nat>
    /** When each buffer was last put at the front of the ring. */
    ghost var last: seq<nat>
    ghost var clock: nat

    ghost predicate Valid()
      reads this
    {
      && |bufs| == |last| == n && OneEach(bufs)
      && Linked(next, prev, n, ring) && ByUse(ring, last, clock)
      && forall b: nat :: b < n <==> b in ring
    }

    /** binit */
    constructor (size: nat, blank: Block)
      ensures Valid() && n == size && forall i :: 0 <= i < n ==> bufs[i] == Buf(0, 0, false, 0, blank)
    {
      n := size;
      bufs := seq(size, _ => Buf(0, 0, false, 0, blank));
      next := seq(size + 1, _ => size);
      prev := seq(size + 1, _ => size);
      ring, last, clock := [], seq(size, _ => 0), 0;
      new;
      for b := 0 to n
        invariant Linked(next, prev, n, ring) && ByUse(ring, last, clock) && |last| == n
        invariant bufs == seq(n, _ => Buf(0, 0, false, 0, blank))
        invariant forall x: nat :: x < b <==> x in ring
      {
        PushFront(next, prev, n, ring, b);
        FrontByUse(ring, last, clock, b);
        ToFront(b);
      }
    }

    /** Link b in behind the list head. */
    method ToFront(b: nat)
      requires Linked(next, prev, n, ring) && b < n && b !in ring && next[n] <= n && b < |last|
      modifies `next, `prev, `ring, `last, `clock
      ensures next == old(next)[b := old(next)[n]][n := b] && prev == old(prev)[b := n][old(next)[n] := b]
      ensures ring == [b] + old(ring) && last == old(last)[b := old(clock)] && clock == old(clock) + 1
    {
      next := next[b := next[n]];
      prev := prev[b := n];
      prev := prev[next[n] := b];
      next := next[n := b];
      ring, last, clock := [b] + ring, last[b := clock], clock + 1;
    }

    /** The buffer that holds a block, searched for from the front; n if there is none. */
    method Lookup(dev: nat, blockno: nat) returns (b: nat)
      requires Valid()
      ensures b == n ==> forall j :: 0 <= j < n ==> !Holds(bufs[j], dev, blockno)
      ensures b != n ==> b < n && Holds(bufs[b], dev, blockno)
    {
      assert LinkAt(next, prev, n, ring, -1);
      b := next[n];
      ghost var k := 0;
      while b != n
        invariant 0 <= k <= |ring| && b == At(ring, k, n)
        invariant forall m :: 0 <= m < k ==> !Holds(bufs[ring[m]], dev, blockno)
        decreases |ring| - k
      {
        assert LinkAt(next, prev, n, ring, k);
        if Holds(bufs[b], dev, blockno) {
          return;
        }
        b, k := next[b], k + 1;
      }
      forall j: nat | j < n ensures !Holds(bufs[j], dev, blockno) {
        assert j in ring;
      }
    }

    /** The unused buffer nearest the back of the ring, n if there is none: the least recently used. */
    method Victim() returns (b: nat)
      requires Valid()
      ensures b == n ==> forall j :: 0 <= j < n ==> bufs[j].refcnt > 0
      ensures b != n ==> b < n && bufs[b].refcnt == 0
      ensures b != n ==> forall j :: 0 <= j < n && j != b && bufs[j].refcnt == 0 ==> last[b] < last[j]
    {
      assert LinkAt(next, prev, n, ring, |ring| - 1);
      b := prev[n];
      ghost var k := |ring| - 1;
      while b != n
        invariant -1 <= k < |ring| && b == At(ring, k, n)
        invariant forall m :: k < m < |ring| ==> bufs[ring[m]].refcnt > 0
        decreases k
      {
        assert LinkAt(next, prev, n, ring, k - 1);
        if bufs[b].refcnt == 0 {
          forall j: nat | j < n && j != b && bufs[j].refcnt == 0 ensures last[b] < last[j] {
            assert j in ring;
          }
          return;
        }
        b, k := prev[b], k - 1;
      }
      forall j: nat | j < n ensures bufs[j].refcnt > 0 {
        assert j in ring;
      }
    }

    /** bget up to the release of bcache.lock; n is the panic "no buffers". */
    method Bget(dev: nat, blockno: nat) returns (b: nat)
      requires Valid()
      modifies `bufs
      ensures Valid()
      ensures b == n <==> forall j :: 0 <= j < n ==> !Holds(old(bufs)[j], dev, blockno) && old(bufs)[j].refcnt > 0
      ensures b == n ==> bufs == old(bufs)
      ensures b != n ==> CanGrab(old(bufs), dev, blockno, b) && bufs == Grab(old(bufs), dev, blockno, b)
      ensures b != n && !Holds(old(bufs)[b], dev, blockno) ==>
        forall j :: 0 <= j < n && j != b && old(bufs)[j].refcnt == 0 ==> last[b] < last[j]
    {
      b := Lookup(dev, blockno);
      if b != n {
        bufs := bufs[b := bufs[b].(refcnt := bufs[b].refcnt + 1)];
        return;
      }
      b := Victim();
      if b != n {
        bufs := bufs[b := Buf(dev, blockno, false, 1, bufs[b].data)];
      }
    }

    /** brelse's critical section: the last reference moves the buffer to the front. */
    method Unref(b: nat)
      requires Valid() && b < n && bufs[b].refcnt > 0
      modifies this
      ensures Valid() && bufs == DropRef(old(bufs), b)
      ensures bufs[b].refcnt > 0 ==> ring == old(ring)
      ensures bufs[b].refcnt == 0 ==>
        exists k :: 0 <= k < |old(ring)| && old(ring)[k] == b && ring == [b] + Without(old(ring), k)
    {
      bufs := bufs[b := bufs[b].(refcnt := bufs[b].refcnt - 1)];
      if bufs[b].refcnt == 0 {
        assert b in ring;
        ghost var k :| 0 <= k < |ring| && ring[k] == b;
        MoveToFront(b, k);
      }
    }

    method MoveToFront(b: nat, ghost k: nat)
      requires Linked(next, prev, n, ring) && ByUse(ring, last, clock) && k < |ring| && ring[k] == b
      modifies `next, `prev, `ring, `last, `clock
      ensures Linked(next, prev, n, ring) && ByUse(ring, last, clock) && |last| == |old(last)|
      ensures ring == [b] + Without(old(ring), k) && forall x :: x in ring <==> x in old(ring)
    {
      Unlink(next, prev, n, ring, k);
      WithoutByUse(ring, last, clock, k, n);
      prev := prev[next[b] := prev[b]];
      next := next[prev[b] := next[b]];
      ring := Without(ring, k);
      PushFront(next, prev, n, ring, b);
      FrontByUse(ring, last, clock, b);
      ToFront(b);
    }

    method Bpin(b: nat)
      requires Valid() && b < n
      modifies `bufs
      ensures Valid() && bufs == AddRef(old(bufs), b)
    {
      bufs := bufs[b := bufs[b].(refcnt := bufs[b].refcnt + 1)];
    }

    method Bunpin(b: nat)
      requires Valid() && b < n && bufs[b].refcnt > 0
      modifies `bufs
      ensures Valid() && bufs == DropRef(old(bufs), b)
    {
      bufs := bufs[b := bufs[b].(refcnt := bufs[b].refcnt - 1)];
    }
  }
}
