/**
 What a write to a file does to the disk and to the log: the state in the middle of writei, its
 outcome, and how many distinct blocks it hands to log_write (kernel/fs.c, kernel/file.c).
 */
module FileLog {
  import opened Folding
  import opened FileBlocks
  import opened FileContents
  import opened Bitmap

  /** The blocks handed to log_write: a bitmap block, an inode block, or a data or indirect block. */
  datatype LogRef = Bits(n: nat) | Node(n: nat) | Blk(b: nat)

  const IPB: nat := 16

  /** The bitmap marks exactly the metadata blocks and the blocks in `taken`. */
  ghost predicate BitsMatch(m: Map, size: nat, nmeta: nat, taken: set<nat>) {
    && Shape(m, size)
    && forall b :: 0 <= b < size ==> (Used(m, size, b) <==> b < nmeta || b in taken)
  }

  // ----- Everything that changes is logged -----

  /**
   Every bitmap, data and indirect block that changed since the state f0, m0, logged0 was handed to log_write, and no
   inode but i changed.
   */
  ghost predicate Logs(i: nat, f0: Fs, m0: Map, logged0: set<LogRef>, f: Fs, m: Map, logged: set<LogRef>) {
    forall k {:trigger Open(k)} :: Open(k) ==>
      && logged0 <= logged && |f.data| == |f0.data| && |f.ptrs| == |f0.ptrs| && |m| == |m0|
      && |f.inodes| == |f0.inodes|
      && (forall b :: 0 <= b < |f.data| && f.data[b] != f0.data[b] ==> Blk(b) in logged)
      && (forall b :: 0 <= b < |f.ptrs| && f.ptrs[b] != f0.ptrs[b] ==> Blk(b) in logged)
      && (forall n :: 0 <= n < |m| && m[n] != m0[n] ==> Bits(n) in logged)
      && (forall j :: 0 <= j < |f.inodes| && j != i ==> f.inodes[j] == f0.inodes[j])
  }

  lemma LogsRefl(i: nat, f: Fs, m: Map, logged: set<LogRef>)
    ensures Logs(i, f, m, logged, f, m, logged)
  {
  }

  lemma LogsTrans(i: nat, f0: Fs, m0: Map, logged0: set<LogRef>, f1: Fs, m1: Map, logged1: set<LogRef>,
                  f: Fs, m: Map, logged: set<LogRef>)
    requires Logs(i, f0, m0, logged0, f1, m1, logged1) && Logs(i, f1, m1, logged1, f, m, logged)
    ensures Logs(i, f0, m0, logged0, f, m, logged)
  {
    assert Open(KEY);
  }

  /** One block and inode i may have changed. */
  lemma LogsBlk(i: nat, f0: Fs, f: Fs, m: Map, logged: set<LogRef>, b: nat)
    requires |f.data| == |f0.data| && |f.ptrs| == |f0.ptrs| && |f.inodes| == |f0.inodes|
    requires forall x :: 0 <= x < |f.data| && x != b ==> f.data[x] == f0.data[x]
    requires forall x :: 0 <= x < |f.ptrs| && x != b ==> f.ptrs[x] == f0.ptrs[x]
    requires forall j :: 0 <= j < |f.inodes| && j != i ==> f.inodes[j] == f0.inodes[j]
    ensures Logs(i, f0, m, logged, f, m, logged + {Blk(b)})
  {
  }

  /** Only inode i may have changed. */
  lemma LogsInode(i: nat, f0: Fs, f: Fs, m: Map, logged: set<LogRef>)
    requires f == f0.(inodes := f.inodes) && |f.inodes| == |f0.inodes|
    requires forall j :: 0 <= j < |f.inodes| && j != i ==> f.inodes[j] == f0.inodes[j]
    ensures Logs(i, f0, m, logged, f, m, logged)
  {
  }

  /** One bitmap block may have changed. */
  lemma LogsBits(i: nat, f: Fs, m0: Map, m: Map, logged: set<LogRef>, n: nat)
    requires |m| == |m0| && forall x :: 0 <= x < |m| && x != n ==> m[x] == m0[x]
    ensures Logs(i, f, m0, logged, f, m, logged + {Bits(n)})
  {
  }

  /** More may be handed to log_write. */
  lemma LogsMore(i: nat, f0: Fs, m0: Map, logged0: set<LogRef>, f: Fs, m: Map, logged: set<LogRef>, more: set<LogRef>)
    requires Logs(i, f0, m0, logged0, f, m, logged)
    ensures Logs(i, f0, m0, logged0, f, m, logged + more)
  {
    assert Open(KEY);
  }

  /** What allocating the blocks that `own'` has over `own` hands to log_write. */
  ghost function NewRefs(own: map<nat, Slot>, own': map<nat, Slot>): set<LogRef> {
    (set b | b in own' && b !in own :: Blk(b)) + (set b | b in own' && b !in own :: Bits(b / BPB))
  }

  ghost function IndirectRef(f: Fs, i: nat): set<LogRef>
    requires Shaped(f) && i < |f.inodes|
  {
    if Held(f, Indirect(i)) == 0 then {} else {Blk(Held(f, Indirect(i)))}
  }

  /** Blocks lo to hi - 1 of file i. */
  ghost function DataRefs(f: Fs, i: nat, lo: nat, hi: nat): set<LogRef>
    requires Shaped(f) && i < |f.inodes| && hi <= MAXFILE
  {
    set bn | lo <= bn < hi :: Blk(Held(f, FileSlot(i, bn)))
  }

  /** All that a write to blocks lo to hi - 1 of file i has handed to log_write so far. */
  ghost function WriteRefs(own0: map<nat, Slot>, f: Fs, own: map<nat, Slot>, i: nat, lo: nat, hi: nat): set<LogRef>
    requires Shaped(f) && i < |f.inodes| && hi <= MAXFILE
  {
    NewRefs(own0, own) + IndirectRef(f, i) + DataRefs(f, i, lo, hi)
  }

  lemma WriteRefsGrow(own0: map<nat, Slot>, f: Fs, own: map<nat, Slot>, f': Fs, own': map<nat, Slot>,
                      slots: set<Slot>, i: nat, lo: nat, hi: nat)
    requires Filled(f, own, f', own', slots) && i < |f.inodes| && hi <= MAXFILE && own0.Keys <= own.Keys
    requires forall bn :: lo <= bn < hi ==> Held(f, FileSlot(i, bn)) != 0
    ensures WriteRefs(own0, f, own, i, lo, hi) + NewRefs(own, own') + IndirectRef(f', i)
         <= WriteRefs(own0, f', own', i, lo, hi)
  {
    NewRefsTrans(own0, own, own');
    assert SlotOk(f, Indirect(i));
    assert forall bn :: lo <= bn < hi ==> SlotOk(f, FileSlot(i, bn));
  }

  /** Writing m more bytes, all in one block, adds that block to the data blocks handed to log_write. */
  lemma WriteRefsNext(own0: map<nat, Slot>, f: Fs, f': Fs, own: map<nat, Slot>, i: nat, lo: nat, at: nat, m: nat)
    requires Shaped(f) && Shaped(f') && i < |f.inodes|
    requires f'.inodes == f.inodes && f'.ptrs == f.ptrs && f'.size == f.size
    requires lo <= at / BSIZE && 0 < m && at % BSIZE + m <= BSIZE && at + m <= MAXFILE * BSIZE
    ensures Ceil(at) <= Ceil(at + m) <= MAXFILE && at / BSIZE < MAXFILE
    ensures WriteRefs(own0, f, own, i, lo, Ceil(at)) + {Blk(Held(f, FileSlot(i, at / BSIZE)))}
         <= WriteRefs(own0, f', own, i, lo, Ceil(at + m))
  {
    assert lo <= at / BSIZE < Ceil(at + m);
    assert Held(f', FileSlot(i, at / BSIZE)) == Held(f, FileSlot(i, at / BSIZE));
    assert DataRefs(f, i, lo, Ceil(at)) <= DataRefs(f', i, lo, Ceil(at + m)) by {
      forall bn: nat | lo <= bn < Ceil(at) ensures Held(f', FileSlot(i, bn)) == Held(f, FileSlot(i, bn)) {
      }
    }
  }

  lemma NewRefsTrans(own: map<nat, Slot>, own1: map<nat, Slot>, own2: map<nat, Slot>)
    requires own.Keys <= own1.Keys <= own2.Keys
    ensures NewRefs(own, own1) + NewRefs(own1, own2) <= NewRefs(own, own2)
  {
  }

  lemma BitsTake(m: Map, size: nat, nmeta: nat, taken: set<nat>, b: nat)
    requires BitsMatch(m, size, nmeta, taken) && b < size
    ensures BitsMatch(PutByte(m, b, SetBit(m[b / BPB][b % BPB / 8], b % BPB % 8)), size, nmeta, taken + {b})
  {
    PutByteExact(m, size, b, true);
    var m' := PutByte(m, b, SetBit(m[b / BPB][b % BPB / 8], b % BPB % 8));
    forall a | 0 <= a < size ensures Used(m', size, a) <==> a < nmeta || a in taken + {b} {
      if a != b {
        assert Used(m', size, a) == Used(m, size, a);
        assert a in taken + {b} <==> a in taken;
        assert Used(m, size, a) <==> a < nmeta || a in taken;
      } else {
        assert Used(m', size, a);
      }
    }
  }

  lemma BitsDrop(m: Map, size: nat, nmeta: nat, taken: set<nat>, b: nat)
    requires BitsMatch(m, size, nmeta, taken) && nmeta <= b < size
    ensures BitsMatch(PutByte(m, b, ClearBit(m[b / BPB][b % BPB / 8], b % BPB % 8)), size, nmeta, taken - {b})
  {
    PutByteExact(m, size, b, false);
  }

  const U32: nat := 0x1_0000_0000

  function Min(a: nat, b: nat): nat { if a < b then a else b }

  lemma SliceJoin(s: seq<byte>, a: nat, b: nat, e: nat)
    requires a <= b <= e <= |s|
    ensures s[a..b] + s[b..e] == s[a..e]
  {
  }

  lemma BitPosition(b: nat, bi: nat)
    requires b % BPB == 0 && bi < BPB
    ensures (b + bi) / BPB == b / BPB && (b + bi) % BPB == bi
  {
  }

  /** min(left, BSIZE - at % BSIZE): how much of what is left fits in the block at offset `at`. */
  function PieceLen(at: nat, left: nat): (m: nat)
    requires 0 < left
    ensures 0 < m <= left && at % BSIZE + m <= BSIZE
  {
    Min(left, BSIZE - at % BSIZE)
  }

  /** Bytes that lie in one block are a slice of it. */
  lemma ReadChunk(f: Fs, i: nat, at: nat, m: nat)
    requires Shaped(f) && i < |f.inodes| && at + m <= f.inodes[i].size <= MAXFILE * BSIZE
    requires at / BSIZE < MAXFILE && at % BSIZE + m <= BSIZE
    requires Held(f, FileSlot(i, at / BSIZE)) < f.size
    ensures f.data[Held(f, FileSlot(i, at / BSIZE))][at % BSIZE..at % BSIZE + m] == Contents(f, i)[at..at + m]
  {
    var d := f.data[Held(f, FileSlot(i, at / BSIZE))][at % BSIZE..at % BSIZE + m];
    var c := Contents(f, i)[at..at + m];
    forall k | 0 <= k < m ensures d[k] == c[k] {
      assert c[k] == Contents(f, i)[at + k] == ByteAt(f, i, at + k);
      SameBlock(at, k);
    }
  }

  lemma SameBlock(at: nat, k: nat)
    requires at % BSIZE + k < BSIZE
    ensures (at + k) / BSIZE == at / BSIZE && (at + k) % BSIZE == at % BSIZE + k
  {
  }

  /** Blocks that hold some byte before offset e. */
  function Ceil(e: nat): nat { (e + BSIZE - 1) / BSIZE }

  lemma WrittenPresent(f0: Fs, f: Fs, own: map<nat, Slot>, i: nat, off: nat, src: seq<byte>, tot: nat)
    requires Written(f0, f, own, i, off, src, tot)
    ensures Ceil(off + tot) <= MAXFILE
    ensures forall bn :: off / BSIZE <= bn < Ceil(off + tot) ==> Held(f, FileSlot(i, bn)) != 0
  {
    forall bn: nat | off / BSIZE <= bn < Ceil(off + tot) ensures Held(f, FileSlot(i, bn)) != 0 {
      assert WrittenByte(f0, f, i, off, src[..tot], bn * BSIZE);
    }
  }

  /** The slots a write of n bytes at off may fill. */
  ghost function WriteSlots(i: nat, off: nat, n: nat): set<Slot> {
    {Indirect(i)} + set bn | off / BSIZE <= bn < Ceil(off + n) :: FileSlot(i, bn)
  }

  /** Everything that holds in the middle of writei, the log_write calls so far included. */
  ghost predicate InWrite(f0: Fs, own0: map<nat, Slot>, logged0: set<LogRef>,
                          f: Fs, own: map<nat, Slot>, logged: set<LogRef>,
                          i: nat, off: nat, src: seq<byte>, tot: nat) {
    forall k {:trigger Unfold(k)} :: Unfold(k) ==>
      && Writing(f0, own0, f, own, WriteSlots(i, off, |src|), i, off, src, tot)
      && Ceil(off + tot) <= MAXFILE
      && logged <= logged0 + WriteRefs(own0, f, own, i, off / BSIZE, Ceil(off + tot))
  }

  lemma InWriteInode(f0: Fs, own0: map<nat, Slot>, logged0: set<LogRef>,
                     f: Fs, own: map<nat, Slot>, logged: set<LogRef>, i: nat, off: nat, src: seq<byte>, tot: nat)
    requires InWrite(f0, own0, logged0, f, own, logged, i, off, src, tot)
    ensures i < |f.inodes| && tot <= |src| && FileBlocks.Valid(f, own)
  {
    assert Unfold(KEY);
  }

  lemma InWriteStart(f: Fs, own: map<nat, Slot>, logged: set<LogRef>, i: nat, off: nat, src: seq<byte>)
    requires FileBlocks.Valid(f, own) && i < |f.inodes| && off <= f.inodes[i].size
    ensures InWrite(f, own, logged, f, own, logged, i, off, src, 0)
  {
    WrittenStart(f, own, i, off, src);
    GrownRefl(f, own, WriteSlots(i, off, |src|));
    assert f.inodes[i].size <= MAXFILE * BSIZE;
    forall j | 0 <= j < |f.inodes| ensures SameFile(f, f, j) {
      assert f.inodes[j].size <= MAXFILE * BSIZE;
      SameBytes(f, f, j);
    }
  }

  /** The outcome of a write of the first r bytes of src to file i at off. */
  ghost predicate WriteDone(f0: Fs, own0: map<nat, Slot>, logged0: set<LogRef>,
                            f: Fs, own: map<nat, Slot>, logged: set<LogRef>,
                            i: nat, off: nat, src: seq<byte>, r: int) {
    forall k {:trigger Unfold(k)} :: Unfold(k) ==>
      && FileBlocks.Valid(f0, own0) && FileBlocks.Valid(f, own) && i < |f0.inodes| == |f.inodes|
      && 0 <= r <= |src| && off <= f0.inodes[i].size
      && Contents(f, i) == Splice(Contents(f0, i), off, src[..r])
      && (forall j :: 0 <= j < |f0.inodes| && j != i ==> SameFile(f0, f, j))
      && Filled(f0, own0, f, own, WriteSlots(i, off, |src|))
      && Ceil(off + r) <= MAXFILE
      && logged <= logged0 + WriteRefs(own0, f, own, i, off / BSIZE, Ceil(off + r)) + {Node(i / IPB)}
  }

  lemma WriteFinish(f0: Fs, own0: map<nat, Slot>, logged0: set<LogRef>,
                    f: Fs, own: map<nat, Slot>, logged: set<LogRef>, i: nat, off: nat, src: seq<byte>, tot: nat)
    requires InWrite(f0, own0, logged0, f, own, logged, i, off, src, tot)
    ensures i < |f.inodes| == |f0.inodes| && tot <= |src|
    ensures Resize(f, i, f.inodes[i].size) == f
    ensures FileBlocks.Valid(Resize(f, i, Max(f.inodes[i].size, off + tot)), own)
    ensures WriteDone(f0, own0, logged0, Resize(f, i, Max(f.inodes[i].size, off + tot)), own,
                      logged + {Node(i / IPB)}, i, off, src, tot)
  {
    assert Unfold(KEY);
    WritingDone(f0, own0, f, own, WriteSlots(i, off, |src|), i, off, src, tot);
    var f' := Resize(f, i, Max(f.inodes[i].size, off + tot));
    assert Resize(f, i, f.inodes[i].size).inodes == f.inodes;
    ResizeRefs(own0, f, f', own, i, off / BSIZE, Ceil(off + tot));
  }

  lemma ResizeRefs(own0: map<nat, Slot>, f: Fs, f': Fs, own: map<nat, Slot>, i: nat, lo: nat, hi: nat)
    requires Shaped(f) && Shaped(f') && i < |f.inodes| == |f'.inodes| && hi <= MAXFILE
    requires f'.inodes[i].addrs == f.inodes[i].addrs && f'.ptrs == f.ptrs && f'.size == f.size
    ensures WriteRefs(own0, f', own, i, lo, hi) == WriteRefs(own0, f, own, i, lo, hi)
  {
    assert forall bn: nat :: bn < MAXFILE ==> Held(f', FileSlot(i, bn)) == Held(f, FileSlot(i, bn));
    assert DataRefs(f', i, lo, hi) == DataRefs(f, i, lo, hi);
  }

  lemma InWriteGrow(f0: Fs, own0: map<nat, Slot>, logged0: set<LogRef>,
                    f: Fs, own: map<nat, Slot>, logged: set<LogRef>,
                    f': Fs, own': map<nat, Slot>, logged': set<LogRef>,
                    i: nat, off: nat, src: seq<byte>, tot: nat)
    requires InWrite(f0, own0, logged0, f, own, logged, i, off, src, tot) && tot < |src|
    requires i < |f.inodes| && (off + tot) / BSIZE < MAXFILE
    requires Grown(f, own, f', own', {FileSlot(i, (off + tot) / BSIZE), Indirect(i)})
    requires i < |f'.inodes| && logged' <= logged + NewRefs(own, own') + IndirectRef(f', i)
    ensures InWrite(f0, own0, logged0, f', own', logged', i, off, src, tot)
  {
    assert Unfold(KEY);
    var bn := (off + tot) / BSIZE;
    assert FileSlot(i, bn) in WriteSlots(i, off, |src|);
    WrittenPresent(f0, f, own, i, off, src, tot);
    WritingGrow(f0, own0, f, own, f', own', {FileSlot(i, bn), Indirect(i)},
      WriteSlots(i, off, |src|), i, off, src, tot);
    WriteRefsGrow(own0, f, own, f', own', {FileSlot(i, bn), Indirect(i)}, i, off / BSIZE, Ceil(off + tot));
  }

  lemma InWritePatch(f0: Fs, own0: map<nat, Slot>, logged0: set<LogRef>,
                     f: Fs, own: map<nat, Slot>, logged: set<LogRef>,
                     i: nat, off: nat, src: seq<byte>, tot: nat, m: nat)
    requires InWrite(f0, own0, logged0, f, own, logged, i, off, src, tot)
    requires off + |src| <= MAXFILE * BSIZE && 0 < m <= |src| - tot && (off + tot) % BSIZE + m <= BSIZE
    requires i < |f.inodes| && Shaped(f) && Held(f, FileSlot(i, (off + tot) / BSIZE)) != 0
    ensures f.nmeta <= Held(f, FileSlot(i, (off + tot) / BSIZE)) < f.size
    ensures var b := Held(f, FileSlot(i, (off + tot) / BSIZE));
      InWrite(f0, own0, logged0, Patch(f, b, (off + tot) % BSIZE, src[tot..tot + m]), own, logged + {Blk(b)},
              i, off, src, tot + m)
  {
    assert Unfold(KEY);
    WritingPatch(f0, own0, f, own, WriteSlots(i, off, |src|), i, off, src, tot, m);
    PatchRefs(own0, logged0, f, own, logged, i, off, src, tot, m);
  }

  lemma PatchRefs(own0: map<nat, Slot>, logged0: set<LogRef>, f: Fs, own: map<nat, Slot>, logged: set<LogRef>,
                  i: nat, off: nat, src: seq<byte>, tot: nat, m: nat)
    requires Shaped(f) && i < |f.inodes| && Ceil(off + tot) <= MAXFILE
    requires off + |src| <= MAXFILE * BSIZE && 0 < m <= |src| - tot && (off + tot) % BSIZE + m <= BSIZE
    requires logged <= logged0 + WriteRefs(own0, f, own, i, off / BSIZE, Ceil(off + tot))
    requires Held(f, FileSlot(i, (off + tot) / BSIZE)) < f.size
    ensures var b := Held(f, FileSlot(i, (off + tot) / BSIZE));
      var f' := Patch(f, b, (off + tot) % BSIZE, src[tot..tot + m]);
      && Shaped(f') && Ceil(off + (tot + m)) <= MAXFILE
      && logged + {Blk(b)} <= logged0 + WriteRefs(own0, f', own, i, off / BSIZE, Ceil(off + (tot + m)))
  {
    var b := Held(f, FileSlot(i, (off + tot) / BSIZE));
    var f' := Patch(f, b, (off + tot) % BSIZE, src[tot..tot + m]);
    DivMono(off, tot);
    WriteRefsNext(own0, f, f', own, i, off / BSIZE, off + tot, m);
    assert off + (tot + m) == off + tot + m;
    OneMore(logged0, logged, WriteRefs(own0, f, own, i, off / BSIZE, Ceil(off + tot)), Blk(b),
            WriteRefs(own0, f', own, i, off / BSIZE, Ceil(off + tot + m)));
  }

  lemma DivMono(a: nat, b: nat)
    ensures a / BSIZE <= (a + b) / BSIZE
  {
  }

  lemma OneMore(logged0: set<LogRef>, logged: set<LogRef>, refs: set<LogRef>, r: LogRef, refs': set<LogRef>)
    requires logged <= logged0 + refs && refs + {r} <= refs'
    ensures logged + {r} <= logged0 + refs'
  {
  }

  const MAXOPBLOCKS: nat := 10

  /** ((MAXOPBLOCKS - 1 - 1 - 2) / 2) * BSIZE */
  const MAXCHUNK: nat := (MAXOPBLOCKS - 1 - 1 - 2) / 2 * BSIZE

  // ----- How many blocks a chunk touches -----

  /** The bitmap blocks of blocks lo to hi - 1 of file i. */
  ghost function BitRefs(f: Fs, i: nat, lo: nat, hi: nat): set<LogRef>
    requires Shaped(f) && i < |f.inodes| && hi <= MAXFILE
  {
    set bn | lo <= bn < hi :: Bits(Held(f, FileSlot(i, bn)) / BPB)
  }

  lemma {:induction false} DataRefsSize(f: Fs, i: nat, lo: nat, hi: nat)
    requires Shaped(f) && i < |f.inodes| && lo <= hi <= MAXFILE
    ensures |DataRefs(f, i, lo, hi)| <= hi - lo
    decreases hi - lo
  {
    if lo < hi {
      DataRefsSize(f, i, lo, hi - 1);
      var last := Blk(Held(f, FileSlot(i, hi - 1)));
      assert DataRefs(f, i, lo, hi) <= DataRefs(f, i, lo, hi - 1) + {last};
      SubsetSize(DataRefs(f, i, lo, hi), DataRefs(f, i, lo, hi - 1) + {last});
    } else {
      assert DataRefs(f, i, lo, hi) == {};
    }
  }

  lemma {:induction false} BitRefsSize(f: Fs, i: nat, lo: nat, hi: nat)
    requires Shaped(f) && i < |f.inodes| && lo <= hi <= MAXFILE
    ensures |BitRefs(f, i, lo, hi)| <= hi - lo
    decreases hi - lo
  {
    if lo < hi {
      BitRefsSize(f, i, lo, hi - 1);
      var last := Bits(Held(f, FileSlot(i, hi - 1)) / BPB);
      assert BitRefs(f, i, lo, hi) <= BitRefs(f, i, lo, hi - 1) + {last};
      SubsetSize(BitRefs(f, i, lo, hi), BitRefs(f, i, lo, hi - 1) + {last});
    } else {
      assert BitRefs(f, i, lo, hi) == {};
    }
  }

  /** The first block of the write that may be absent: a partly filled first block is present. */
  function FirstNew(off: nat): nat { Ceil(off) }

  /** A block that a write allocated is the indirect block or one of the blocks from FirstNew on. */
  lemma NewBlock(f0: Fs, own0: map<nat, Slot>, f: Fs, own: map<nat, Slot>, i: nat, off: nat, n: nat, b: nat)
    requires Shaped(f) && i < |f0.inodes| == |f.inodes| && off <= f0.inodes[i].size
    requires Filled(f0, own0, f, own, WriteSlots(i, off, n))
    requires Ceil(off + n) <= MAXFILE && b in own && b !in own0
    ensures b == Held(f, Indirect(i)) != 0
         || exists bn: nat :: FirstNew(off) <= bn < Ceil(off + n) && bn < MAXFILE && b == Held(f, FileSlot(i, bn))
  {
    assert own[b] in WriteSlots(i, off, n) && Held(f0, own[b]) == 0;
    assert SlotOk(f, own[b]) && Held(f, own[b]) == b;
    if own[b] != Indirect(i) {
      var bn: nat :| off / BSIZE <= bn < Ceil(off + n) && own[b] == FileSlot(i, bn);
      assert bn < MAXFILE;
      assert SlotOk(f0, FileSlot(i, bn)) && bn * BSIZE >= f0.inodes[i].size;
    }
  }

  /** The blocks a write of n bytes at off can hand to log_write. */
  ghost function Touched(f: Fs, i: nat, off: nat, n: nat): set<LogRef>
    requires Shaped(f) && i < |f.inodes| && Ceil(off + n) <= MAXFILE
  {
    {Node(i / IPB), Blk(Held(f, Indirect(i))), Bits(Held(f, Indirect(i)) / BPB)}
    + DataRefs(f, i, off / BSIZE, Ceil(off + n)) + BitRefs(f, i, FirstNew(off), Ceil(off + n))
  }

  lemma NewTouched(f0: Fs, own0: map<nat, Slot>, f: Fs, own: map<nat, Slot>, i: nat, off: nat, n: nat, b: nat)
    requires Shaped(f) && i < |f0.inodes| == |f.inodes| && off <= f0.inodes[i].size
    requires Filled(f0, own0, f, own, WriteSlots(i, off, n))
    requires Ceil(off + n) <= MAXFILE && b in own && b !in own0
    ensures Blk(b) in Touched(f, i, off, n) && Bits(b / BPB) in Touched(f, i, off, n)
  {
    NewBlock(f0, own0, f, own, i, off, n, b);
    if b != Held(f, Indirect(i)) {
      var bn: nat :| FirstNew(off) <= bn < Ceil(off + n) && bn < MAXFILE && b == Held(f, FileSlot(i, bn));
      assert off / BSIZE <= bn;
      assert Blk(b) in DataRefs(f, i, off / BSIZE, Ceil(off + n));
      assert Bits(b / BPB) in BitRefs(f, i, FirstNew(off), Ceil(off + n));
    }
  }

  lemma DataTouched(f: Fs, i: nat, off: nat, r: nat, n: nat)
    requires Shaped(f) && i < |f.inodes| && r <= n && Ceil(off + n) <= MAXFILE
    ensures DataRefs(f, i, off / BSIZE, Ceil(off + r)) <= Touched(f, i, off, n)
  {
    assert Ceil(off + r) <= Ceil(off + n);
  }

  lemma NewRefsTouched(f0: Fs, own0: map<nat, Slot>, f: Fs, own: map<nat, Slot>, i: nat, off: nat, n: nat)
    requires Shaped(f) && i < |f0.inodes| == |f.inodes| && off <= f0.inodes[i].size
    requires Ceil(off + n) <= MAXFILE && Filled(f0, own0, f, own, WriteSlots(i, off, n))
    ensures NewRefs(own0, own) <= Touched(f, i, off, n)
  {
    var all := Touched(f, i, off, n);
    forall b | b in own && b !in own0 ensures Blk(b) in all && Bits(b / BPB) in all {
      NewTouched(f0, own0, f, own, i, off, n, b);
    }
    NewRefsWithin(own0, own, all);
  }

  lemma NewRefsWithin(own0: map<nat, Slot>, own: map<nat, Slot>, all: set<LogRef>)
    requires forall b :: b in own && b !in own0 ==> Blk(b) in all && Bits(b / BPB) in all
    ensures NewRefs(own0, own) <= all
  {
  }

  lemma Cover(logged0: set<LogRef>, logged: set<LogRef>, a: set<LogRef>, b: set<LogRef>, e: set<LogRef>, r: LogRef,
              all: set<LogRef>)
    requires logged <= logged0 + (a + b + e) + {r} && a <= all && b <= all && e <= all && r in all
    ensures logged <= logged0 + all
  {
  }

  lemma WriteTouches(f0: Fs, own0: map<nat, Slot>, logged0: set<LogRef>,
                     f: Fs, own: map<nat, Slot>, logged: set<LogRef>, i: nat, off: nat, src: seq<byte>, r: int)
    requires WriteDone(f0, own0, logged0, f, own, logged, i, off, src, r) && off + |src| <= MAXFILE * BSIZE
    ensures i < |f.inodes| && Shaped(f) && logged <= logged0 + Touched(f, i, off, |src|)
  {
    assert Unfold(KEY);
    DataTouched(f, i, off, r, |src|);
    NewRefsTouched(f0, own0, f, own, i, off, |src|);
    Cover(logged0, logged, NewRefs(own0, own), IndirectRef(f, i), DataRefs(f, i, off / BSIZE, Ceil(off + r)),
          Node(i / IPB), Touched(f, i, off, |src|));
  }

  /** A chunk touches at most 10 distinct blocks. */
  lemma TouchedAtMostTen(f: Fs, i: nat, off: nat, n: nat)
    requires Shaped(f) && i < |f.inodes| && n <= MAXCHUNK && Ceil(off + n) <= MAXFILE
    ensures |Touched(f, i, off, n)| <= MAXOPBLOCKS
  {
    var lo, lo', hi := off / BSIZE, FirstNew(off), Ceil(off + n);
    assert lo <= hi && lo' <= hi && (hi - lo) + (hi - lo') <= 7;
    DataRefsSize(f, i, lo, hi);
    BitRefsSize(f, i, lo', hi);
  }

  /** On a disk with a single bitmap block a chunk touches at most 7. */
  lemma TouchedAtMostSeven(f: Fs, i: nat, off: nat, n: nat)
    requires Shaped(f) && i < |f.inodes| && n <= MAXCHUNK && Ceil(off + n) <= MAXFILE && f.size <= BPB
    requires forall s :: SlotOk(f, s) ==> Held(f, s) < f.size
    ensures |Touched(f, i, off, n)| <= 7
  {
    var lo, hi := off / BSIZE, Ceil(off + n);
    assert lo <= hi <= lo + 4;
    DataRefsSize(f, i, lo, hi);
    assert SlotOk(f, Indirect(i)) && Held(f, Indirect(i)) / BPB == 0;
    assert forall bn :: 0 <= bn < hi ==> SlotOk(f, FileSlot(i, bn)) && Held(f, FileSlot(i, bn)) / BPB == 0;
    var few := {Node(i / IPB), Blk(Held(f, Indirect(i))), Bits(0)};
    assert Touched(f, i, off, n) <= few + DataRefs(f, i, lo, hi);
    SubsetSize(Touched(f, i, off, n), few + DataRefs(f, i, lo, hi));
  }

  lemma SubsetSize(a: set<LogRef>, b: set<LogRef>)
    requires a <= b
    ensures |a| <= |b|
  {
    assert b == a + (b - a);
  }

  lemma ChunkFits(f0: Fs, own0: map<nat, Slot>, f: Fs, own: map<nat, Slot>, logged: set<LogRef>,
                  i: nat, off: nat, chunk: seq<byte>, r: int)
    requires WriteDone(f0, own0, {}, f, own, logged, i, off, chunk, r)
    requires off + |chunk| <= MAXFILE * BSIZE && |chunk| <= MAXCHUNK
    ensures |logged| <= MAXOPBLOCKS
  {
    WriteTouches(f0, own0, {}, f, own, logged, i, off, chunk, r);
    TouchedAtMostTen(f, i, off, |chunk|);
    SubsetSize(logged, Touched(f, i, off, |chunk|));
  }

  /** On a disk with a single bitmap block, as the default 2000-block image is, 7 blocks are enough. */
  lemma ChunkFitsSeven(f0: Fs, own0: map<nat, Slot>, f: Fs, own: map<nat, Slot>, logged: set<LogRef>,
                       i: nat, off: nat, chunk: seq<byte>, r: int)
    requires WriteDone(f0, own0, {}, f, own, logged, i, off, chunk, r) && f.size <= BPB
    requires off + |chunk| <= MAXFILE * BSIZE && |chunk| <= MAXCHUNK
    ensures |logged| <= 7
  {
    assert Unfold(KEY);
    WriteTouches(f0, own0, {}, f, own, logged, i, off, chunk, r);
    forall s | SlotOk(f, s) ensures Held(f, s) < f.size {
      assert Held(f, s) != 0 ==> Held(f, s) in own;
    }
    TouchedAtMostSeven(f, i, off, |chunk|);
    SubsetSize(logged, Touched(f, i, off, |chunk|));
  }

  /** A finished write, seen as a change to the byte sequences of the files. */
  lemma WriteView(f0: Fs, own0: map<nat, Slot>, logged0: set<LogRef>,
                  f: Fs, own: map<nat, Slot>, logged: set<LogRef>,
                  i: nat, off: nat, src: seq<byte>, r: int, view: seq<seq<byte>>)
    requires WriteDone(f0, own0, logged0, f, own, logged, i, off, src, r) && ViewOf(f0, view)
    ensures i < |view| && off <= |view[i]| && 0 <= r <= |src|
    ensures ViewOf(f, view[i := Splice(view[i], off, src[..r])])
  {
    assert Unfold(KEY);
    var view' := view[i := Splice(view[i], off, src[..r])];
    forall j | 0 <= j < |view| ensures f.inodes[j].size <= MAXFILE * BSIZE && view'[j] == Contents(f, j) {
      if j != i {
        assert SameFile(f0, f, j);
      }
    }
  }
}
