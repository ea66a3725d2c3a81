/**
 Which inode owns which disk block (the data structures of kernel/fs.c).

 A block is held through a slot: a direct address of an inode, its indirect block, or an entry of
 its indirect block.  `own` maps each allocated block to the one slot that holds it; that it is
 a map from blocks is what makes double ownership impossible.
 */
module FileBlocks {

  const BSIZE: nat := 1024
  const NDIRECT: nat := 12
  const NINDIRECT: nat := 256
  const MAXFILE: nat := 268

  type byte = x: int | 0 <= x < 256

  datatype Inode = Inode(size: nat, addrs: seq<nat>)

  datatype Slot = Direct(i: nat, k: nat) | Indirect(i: nat) | Entry(i: nat, k: nat)

  /**
   The disk as the file layer sees it.  `ptrs` and `data` are the two ways a block is read, as
   block addresses or as file bytes; allocation zeroes both.  Blocks below `nmeta` hold
   the boot block, superblock, log, inodes and bitmap.
   */
  datatype Fs = Fs(size: nat, nmeta: nat, inodes: seq<Inode>, ptrs: seq<seq<nat>>, data: seq<seq<byte>>)

  ghost predicate Shaped(f: Fs) {
    match f case Fs(size, nmeta, inodes, ptrs, data) =>
      && 1 <= nmeta <= size && |ptrs| == |data| == size
      && (forall b :: 0 <= b < size ==> |ptrs[b]| == NINDIRECT)
      && (forall b :: 0 <= b < size ==> |data[b]| == BSIZE)
      && (forall i :: 0 <= i < |inodes| ==> |inodes[i].addrs| == NDIRECT + 1)
  }

  predicate SlotOk(f: Fs, s: Slot) {
    match s
    case Direct(i, k) => i < |f.inodes| && k < NDIRECT
    case Indirect(i) => i < |f.inodes|
    case Entry(i, k) => i < |f.inodes| && k < NINDIRECT
  }

  /** The block a slot holds, 0 for none. */
  ghost function Held(f: Fs, s: Slot): nat
    requires Shaped(f) && SlotOk(f, s)
  {
    match s
    case Direct(i, k) => f.inodes[i].addrs[k]
    case Indirect(i) => f.inodes[i].addrs[NDIRECT]
    case Entry(i, k) =>
      var a := f.inodes[i].addrs[NDIRECT];
      if a == 0 || a >= f.size then 0 else f.ptrs[a][k]
  }

  ghost predicate Owns(f: Fs, own: map<nat, Slot>)
    requires Shaped(f)
  {
    match f case Fs(size, nmeta, _, _, _) =>
      && (forall s :: SlotOk(f, s) && Held(f, s) != 0 ==> Held(f, s) in own && own[Held(f, s)] == s)
      && (forall b :: b in own ==> nmeta <= b < size && SlotOk(f, own[b]) && Held(f, own[b]) == b)
  }

  /** The slot of the bn-th block of a file. */
  function FileSlot(i: nat, bn: nat): Slot {
    if bn < NDIRECT then Direct(i, bn) else Entry(i, bn - NDIRECT)
  }

  /** Every block below the file's size is present. */
  ghost predicate HoleFree(f: Fs)
    requires Shaped(f)
  {
    match f case Fs(_, _, inodes, _, _) =>
      && (forall i :: 0 <= i < |inodes| ==> inodes[i].size <= MAXFILE * BSIZE)
      && (forall i, bn :: 0 <= i < |inodes| && 0 <= bn < MAXFILE && bn * BSIZE < inodes[i].size ==>
            Held(f, FileSlot(i, bn)) != 0)
  }

  ghost predicate Valid(f: Fs, own: map<nat, Slot>) {
    match f case Fs(size, _, _, ptrs, _) =>
      |ptrs| == size && Shaped(f) && Owns(f, own) && HoleFree(f)
  }

  ghost function ByteAt(f: Fs, i: nat, p: nat): byte
    requires Shaped(f) && i < |f.inodes| && p < MAXFILE * BSIZE
  {
    var b := Held(f, FileSlot(i, p / BSIZE));
    if b < f.size then f.data[b][p % BSIZE] else 0
  }

  /** The byte sequence that is the content of file i. */
  ghost function Contents(f: Fs, i: nat): (s: seq<byte>)
    requires Shaped(f) && i < |f.inodes| && f.inodes[i].size <= MAXFILE * BSIZE
    ensures |s| == f.inodes[i].size
  {
    seq(f.inodes[i].size, p requires 0 <= p < f.inodes[i].size => ByteAt(f, i, p))
  }

  // ----- Taking a free block into a slot -----

  function Zeros(n: nat): (z: seq<nat>)
    ensures |z| == n && forall k :: 0 <= k < n ==> z[k] == 0
  {
    seq(n, _ => 0)
  }

  function ZeroBytes(n: nat): (z: seq<byte>)
    ensures |z| == n && forall k :: 0 <= k < n ==> z[k] == 0
  {
    seq(n, _ => 0)
  }

  /** bzero: block b reads as zeroes. */
  function Zero(f: Fs, b: nat): Fs
    requires b < |f.ptrs| == |f.data|
  {
    f.(ptrs := f.ptrs[b := Zeros(NINDIRECT)], data := f.data[b := ZeroBytes(BSIZE)])
  }

  function SetPtr(a: seq<nat>, k: nat, b: nat): seq<nat>
    requires k < |a|
  {
    a[k := b]
  }

  /** Store block number b into slot s. */
  ghost function Store(f: Fs, s: Slot, b: nat): Fs
    requires Shaped(f) && SlotOk(f, s)
    requires s.Entry? ==> 0 < f.inodes[s.i].addrs[NDIRECT] < f.size
  {
    var ip := f.inodes[s.i];
    match s
    case Direct(i, k) => f.(inodes := f.inodes[i := ip.(addrs := ip.addrs[k := b])])
    case Indirect(i) => f.(inodes := f.inodes[i := ip.(addrs := ip.addrs[NDIRECT := b])])
    case Entry(i, k) =>
      var a := ip.addrs[NDIRECT];
      f.(ptrs := f.ptrs[a := SetPtr(f.ptrs[a], k, b)])
  }

  /** A free block may be zeroed: no slot changes. */
  lemma ZeroFree(f: Fs, own: map<nat, Slot>, b: nat)
    requires Shaped(f) && Owns(f, own) && b < f.size && b !in own
    ensures Shaped(Zero(f, b)) && Owns(Zero(f, b), own)
    ensures forall s :: SlotOk(f, s) ==> Held(Zero(f, b), s) == Held(f, s)
  {
    var f' := Zero(f, b);
    forall s | SlotOk(f, s) ensures Held(f', s) == Held(f, s) {
      if s.Entry? {
        assert SlotOk(f, Indirect(s.i)) && Held(f, Indirect(s.i)) == f.inodes[s.i].addrs[NDIRECT];
      }
    }
    forall b' | b' in own ensures SlotOk(f', own[b']) && Held(f', own[b']) == b' {
      assert SlotOk(f, own[b']);
    }
  }

  /** An empty slot takes a zeroed free block: only that slot changes, and ownership stays exact. */
  lemma StoreFresh(f: Fs, own: map<nat, Slot>, s: Slot, b: nat)
    requires Shaped(f) && Owns(f, own) && SlotOk(f, s) && Held(f, s) == 0
    requires f.nmeta <= b < f.size && b !in own && f.ptrs[b] == Zeros(NINDIRECT)
    requires s.Entry? ==> f.inodes[s.i].addrs[NDIRECT] != 0
    ensures s.Entry? ==> 0 < f.inodes[s.i].addrs[NDIRECT] < f.size
    ensures Shaped(Store(f, s, b)) && Owns(Store(f, s, b), own[b := s])
    ensures Held(Store(f, s, b), s) == b
    ensures forall t :: SlotOk(f, t) && t != s ==> Held(Store(f, s, b), t) == Held(f, t)
  {
    if s.Entry? {
      assert Held(f, Indirect(s.i)) == f.inodes[s.i].addrs[NDIRECT];
    }
    var f' := Store(f, s, b);
    forall t | SlotOk(f, t) && t != s ensures Held(f', t) == Held(f, t) {
      if t.Entry? {
        assert SlotOk(f, Indirect(t.i)) && Held(f, Indirect(t.i)) == f.inodes[t.i].addrs[NDIRECT];
        if s.Entry? {
          assert Held(f, Indirect(s.i)) == f.inodes[s.i].addrs[NDIRECT];
        }
      }
    }
    StoredOwns(f, own, s, b, f');
  }

  lemma StoredOwns(f: Fs, own: map<nat, Slot>, s: Slot, b: nat, f': Fs)
    requires Shaped(f) && Owns(f, own) && SlotOk(f, s) && Held(f, s) == 0 && b !in own
    requires Shaped(f') && |f'.inodes| == |f.inodes| && f'.size == f.size && f'.nmeta == f.nmeta
    requires Held(f', s) == b && f.nmeta <= b < f.size
    requires forall t :: SlotOk(f, t) && t != s ==> Held(f', t) == Held(f, t)
    ensures Owns(f', own[b := s])
  {
    var own' := own[b := s];
    forall t | SlotOk(f', t) && Held(f', t) != 0 ensures Held(f', t) in own' && own'[Held(f', t)] == t {
      assert SlotOk(f, t);
    }
    forall x | x in own' ensures f'.nmeta <= x < f'.size && SlotOk(f', own'[x]) && Held(f', own'[x]) == x {
      if x != b {
        assert SlotOk(f, own[x]) && own[x] != s;
      }
    }
  }
}
