/**
 Pipes (kernel/pipe.c): a ring of bytes with two 32-bit counters that only count up and wrap around.  The
 ring may have any size that divides 2^32 and is less than it, as PIPESIZE does.
 */
module Pipe {
  import opened Remainders
  import opened Folding

  const U32: nat := 0x1_0000_0000

  type Byte = nat

  /** The ring as a value. */
  datatype Ring = Ring(data: seq<Byte>, nread: nat, nwrite: nat)

  function Size(r: Ring): nat { |r.data| }

  /** A size that the counters can wrap around with: it divides 2^32. */
  ghost predicate SizeOk(n: nat) { 0 < n < U32 && forall k {:trigger Unfold(k)} :: Unfold(k) ==> U32 % n == 0 }

  /** How many bytes the counters say are in the ring: nwrite - nread in 32 bits. */
  function Count(r: Ring): nat
    requires r.nread < U32 && r.nwrite < U32
  {
    if r.nwrite >= r.nread then r.nwrite - r.nread else r.nwrite + U32 - r.nread
  }

  ghost predicate Shaped(r: Ring) {
    SizeOk(Size(r)) && r.nread < U32 && r.nwrite < U32 && Count(r) <= Size(r)
  }

  /** The bytes in the ring, oldest first. */
  ghost function Contents(r: Ring): (s: seq<Byte>)
    requires Shaped(r)
    ensures |s| == Count(r)
  {
    seq(Count(r), k requires 0 <= k < Count(r) => r.data[(r.nread + k) % Size(r)])
  }

  /** The test for a full ring, in 32 bits. */
  predicate Full(r: Ring) { r.nwrite == (r.nread + Size(r)) % U32 }

  function Push(r: Ring, ch: Byte): Ring
    requires Size(r) > 0
  {
    r.(data := r.data[r.nwrite % Size(r) := ch], nwrite := (r.nwrite + 1) % U32)
  }

  function Pop(r: Ring): Ring { r.(nread := (r.nread + 1) % U32) }

  /** The tests tell exactly whether the ring is full or empty, across the wrap of the counters. */
  lemma FullEmpty(r: Ring)
    requires Shaped(r)
    ensures Full(r) <==> Count(r) == Size(r)
    ensures r.nread == r.nwrite <==> Count(r) == 0
  {
  }

  // ----- Slots across the wrap -----

  /** A counter that has wrapped names the same slot. */
  lemma WrapSlot(k: nat, n: nat)
    requires SizeOk(n)
    ensures (k + U32) % n == k % n
  {
    var q, p := k / n, U32 / n;
    assert Unfold(KEY);
    assert k == n * q + k % n && U32 == n * p;
    assert k + U32 == n * (q + p) + k % n;
    Remainder(n, q + p, k % n);
  }

  lemma NextSlot(i: nat, k: nat, n: nat)
    requires SizeOk(n) && i < U32
    ensures ((i + 1) % U32 + k) % n == (i + (k + 1)) % n
  {
    if i + 1 == U32 {
      WrapSlot(k, n);
    }
  }

  lemma WriteSlot(r: Ring)
    requires Shaped(r)
    ensures r.nwrite % Size(r) == (r.nread + Count(r)) % Size(r)
  {
    if r.nwrite < r.nread {
      WrapSlot(r.nwrite, Size(r));
    }
  }

  lemma CountUp(r: Ring, r': Ring)
    requires r.nread < U32 && r.nwrite < U32 && Count(r) + 1 < U32
    requires r'.nread == r.nread && r'.nwrite == (r.nwrite + 1) % U32
    ensures r'.nwrite < U32 && Count(r') == Count(r) + 1
  {
  }

  lemma PushCount(r: Ring, ch: Byte)
    requires Shaped(r) && Count(r) < Size(r)
    ensures Shaped(Push(r, ch)) && Count(Push(r, ch)) == Count(r) + 1
  {
    CountUp(r, Push(r, ch));
  }

  /** A byte stored goes to the end, and no byte in the ring is overwritten. */
  lemma PushContents(r: Ring, ch: Byte)
    requires Shaped(r) && Count(r) < Size(r)
    ensures Shaped(Push(r, ch)) && Contents(Push(r, ch)) == Contents(r) + [ch]
  {
    var r' := Push(r, ch);
    var c, n := Count(r), Size(r);
    WriteSlot(r);
    PushCount(r, ch);
    forall k | 0 <= k < c ensures Contents(r')[k] == Contents(r)[k] {
      if (r.nread + k) % n == (r.nread + c) % n {
        SameRemainder(r.nread + k, r.nread + c, n);
      }
    }
    assert Contents(r')[c] == ch;
  }

  lemma PopCount(r: Ring)
    requires Shaped(r) && Count(r) > 0
    ensures Shaped(Pop(r)) && Count(Pop(r)) == Count(r) - 1
  {
  }

  /** A byte fetched is the oldest. */
  lemma PopContents(r: Ring)
    requires Shaped(r) && Count(r) > 0
    ensures Shaped(Pop(r)) && Contents(r) == [r.data[r.nread % Size(r)]] + Contents(Pop(r))
  {
    var r' := Pop(r);
    PopCount(r);
    forall k | 0 <= k < Count(r') ensures Contents(r')[k] == Contents(r)[k + 1] {
      NextSlot(r.nread, k, Size(r));
    }
  }

  lemma Regroup(a: seq<Byte>, ch: Byte, b: seq<Byte>)
    ensures a + ([ch] + b) == (a + [ch]) + b
  {
  }

  class PipeBuffer {
    const data: array<Byte>
    var nread: nat
    var nwrite: nat
    var readopen: bool
    var writeopen: bool

    ghost function R(): Ring
      reads this, data
    {
      Ring(data[..], nread, nwrite)
    }

    ghost predicate Valid()
      reads this, data
    {
      Shaped(R())
    }

    /** pipealloc's fresh pipe. */
    constructor (size: nat)
      requires SizeOk(size)
      ensures Valid() && Contents(R()) == [] && readopen && writeopen && fresh(data) && data.Length == size
    {
      data := new Byte[size];
      nread, nwrite := 0, 0;
      readopen, writeopen := true, true;
    }

    /**
     pipewrite's loop from byte i of src until it must sleep: the ring is full, or the copy of byte
     bad fails, or all is stored.
     */
    method Store(src: seq<Byte>, i: nat, bad: nat) returns (j: nat)
      requires Valid() && i <= |src|
      modifies data, `nwrite
      ensures Valid() && i <= j <= |src|
      ensures Contents(R()) == old(Contents(R())) + src[i..j]
      ensures j == |src| || Count(R()) == data.Length || j == bad
    {
      j := i;
      ghost var start := Contents(R());
      assert start + src[i..i] == start;
      while j < |src|
        invariant Valid() && i <= j <= |src| && Contents(R()) == start + src[i..j]
      {
        FullEmpty(R());
        if nwrite == (nread + data.Length) % U32 {
          return;
        }
        if j == bad {
          return;
        }
        StoreOne(src[j]);
        assert start + src[i..j] + [src[j]] == start + src[i..j + 1];
        j := j + 1;
      }
    }

    method StoreOne(x: Byte)
      requires Valid() && !Full(R())
      modifies data, `nwrite
      ensures Valid() && Contents(R()) == old(Contents(R())) + [x]
    {
      PushContents(R(), x);
      ghost var r := R();
      data[nwrite % data.Length] := x;
      nwrite := (nwrite + 1) % U32;
      assert R() == Push(r, x);
    }

    /**
     piperead's loop: up to n bytes, oldest first, until the ring is empty.  If the copy out of byte bad
     fails, that byte is gone from the ring but not counted.
     */
    method Fetch(n: nat, bad: nat) returns (out: seq<Byte>, ghost lost: seq<Byte>)
      requires Valid()
      modifies `nread
      ensures Valid() && old(Contents(R())) == out + lost + Contents(R())
      ensures |out| <= n && |lost| <= 1 && (lost != [] <==> |out| == bad < n && bad < |old(Contents(R()))|)
      ensures |out| == n || Contents(R()) == [] || lost != []
    {
      out, lost := [], [];
      ghost var start := Contents(R());
      while |out| < n
        invariant Valid() && |out| <= n && start == out + Contents(R()) && lost == [] && |out| <= bad
        decreases n - |out|
      {
        FullEmpty(R());
        if nread == nwrite {
          return;
        }
        var ch := FetchOne();
        Regroup(out, ch, Contents(R()));
        if |out| == bad {
          lost := [ch];
          return;
        }
        out := out + [ch];
      }
    }

    method FetchOne() returns (ch: Byte)
      requires Valid() && Count(R()) > 0
      modifies `nread
      ensures Valid() && old(Contents(R())) == [ch] + Contents(R())
    {
      PopContents(R());
      ch := data[nread % data.Length];
      nread := (nread + 1) % U32;
    }

    /** pipeclose; true when both ends are closed and the pipe is freed. */
    method Close(writable: bool) returns (dead: bool)
      requires Valid()
      modifies `readopen, `writeopen
      ensures Valid() && R() == old(R())
      ensures writeopen == (old(writeopen) && !writable) && readopen == (old(readopen) && writable)
      ensures dead <==> !readopen && !writeopen
    {
      if writable {
        writeopen := false;
      } else {
        readopen := false;
      }
      return !readopen && !writeopen;
    }
  }
}
