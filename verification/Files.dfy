/**
 Block allocation, file reads, file writes and truncation of kernel/fs.c and the chunked writes of
 kernel/file.c, updating the disk in place.
 */
module Files {
  import opened FileBlocks
  import opened FileContents
  import opened Bitmap
  import opened FileLog

  lemma SpliceSplice(c: seq<byte>, off: nat, a: seq<byte>, b: seq<byte>)
    requires off <= |c|
    ensures off + |a| <= |Splice(c, off, a)|
    ensures Splice(Splice(c, off, a), off + |a|, b) == Splice(c, off, a + b)
  {
  }

  lemma ViewKept(view: seq<seq<byte>>, view': seq<seq<byte>>, i: nat, off: nat, none: seq<byte>)
    requires i < |view| && off <= |view[i]| && none == [] && view' == view[i := Splice(view[i], off, none)]
    ensures view' == view
  {
    assert Splice(view[i], off, []) == view[i];
  }

  /** The files are as in view0, with the first done bytes of src written to file i at off. */
  ghost predicate Stored(view0: seq<seq<byte>>, view: seq<seq<byte>>, i: nat, off: nat, src: seq<byte>, done: nat) {
    && i < |view0| && done <= |src|
    && if done == 0 then view == view0
       else off <= |view0[i]| && view == view0[i := Splice(view0[i], off, src[..done])]
  }

  lemma StoredLength(view0: seq<seq<byte>>, view: seq<seq<byte>>, i: nat, off: nat, src: seq<byte>, done: nat)
    requires Stored(view0, view, i, off, src, done) && i < |view|
    ensures off + done > |view[i]| <==> done == 0 && off > |view0[i]|
  {
  }

  /** A chunk of n1 bytes, after done of them, would make the file too long, or start past its end. */
  predicate Refused(size: nat, off: nat, done: nat, n1: nat) {
    (done == 0 && off > size) || off + done + n1 > MAXFILE * BSIZE
  }

  /** The first done of n bytes were written in whole chunks, none of which was refused. */
  predicate InChunks(size: nat, off: nat, n: nat, done: nat) {
    done <= n && (done == n || done % MAXCHUNK == 0) && (done > 0 ==> !Refused(size, off, 0, done))
  }

  lemma ChunkNext(size: nat, off: nat, n: nat, done: nat)
    requires InChunks(size, off, n, done) && done < n && !Refused(size, off, done, Min(n - done, MAXCHUNK))
    ensures InChunks(size, off, n, done + Min(n - done, MAXCHUNK))
  {
    var next := done + Min(n - done, MAXCHUNK);
    if next != n {
      WholeChunks(done);
    }
  }

  lemma WholeChunks(done: nat)
    requires done % MAXCHUNK == 0
    ensures (done + MAXCHUNK) % MAXCHUNK == 0
  {
  }

  /** Writing the first r bytes of the next chunk continues the write of src. */
  lemma ViewNext(view0: seq<seq<byte>>, view: seq<seq<byte>>, view': seq<seq<byte>>,
                 i: nat, off: nat, src: seq<byte>, done: nat, n: nat, r: nat)
    requires Stored(view0, view, i, off, src, done) && done + n <= |src| && 0 < r <= n
    requires off + done <= |view[i]| && view' == view[i := Splice(view[i], off + done, src[done..done + n][..r])]
    ensures Stored(view0, view', i, off, src, done + r)
  {
    var more := src[done..done + n][..r];
    assert src[..done] + more == src[..done + r];
    if done == 0 {
      assert src[..done] + more == more;
    } else {
      SpliceSplice(view0[i], off, src[..done], more);
    }
  }

  /** If all blocks below `end` are marked, then those past the metadata are taken; the next one is not, if clear. */
  lemma UsedTaken(m: Map, size: nat, nmeta: nat, taken: set<nat>, end: nat)
    requires BitsMatch(m, size, nmeta, taken) && end <= size
    requires forall x :: 0 <= x < end ==> Used(m, size, x)
    ensures forall x :: nmeta <= x < end ==> x in taken
    ensures end < size && !Used(m, size, end) ==> nmeta <= end && end !in taken
  {
    forall x | nmeta <= x < end ensures x in taken {
      assert Used(m, size, x);
    }
  }

  lemma MarkNext(m: Map, size: nat, i: nat)
    requires BitsMatch(m, size, i, {}) && i < size && i < BPB
    ensures BitsMatch(m[0 := m[0][i / 8 := SetBit(m[0][i / 8], i % 8)]], size, i + 1, {})
  {
    assert i / BPB == 0 && i % BPB == i;
    BitsTake(m, size, i, {}, i);
    var m' := PutByte(m, i, SetBit(m[i / BPB][i % BPB / 8], i % BPB % 8));
    forall b | 0 <= b < size ensures Used(m', size, b) <==> b < i + 1 {
      assert Used(m', size, b) <==> b < i || b in {i};
    }
  }

  /** balloc of mkfs: a bitmap that marks the first used blocks, all in its first block. */
  method MarkUsed(size: nat, used: nat) returns (m: Map)
    requires used <= size && used < BPB
    ensures BitsMatch(m, size, used, {})
  {
    m := seq(size / BPB + 1, _ => seq(BSIZE, _ => 0));
    var i := 0;
    while i < used
      invariant i <= used && BitsMatch(m, size, i, {})
    {
      MarkNext(m, size, i);
      m := m[0 := m[0][i / 8 := SetBit(m[0][i / 8], i % 8)]];
      i := i + 1;
    }
  }

  class FileSystem {
    const size: nat
    const nmeta: nat
    var bitmap: Map
    var inodes: seq<Inode>
    var ptrs: seq<seq<nat>>
    var data: seq<seq<byte>>
    ghost var own: map<nat, Slot>
    ghost var logged: set<LogRef>
    /** The byte sequence of each file, which reads and writes are specified by. */
    ghost var view: seq<seq<byte>>

    ghost function F(): Fs
      reads this
    {
      Fs(size, nmeta, inodes, ptrs, data)
    }

    ghost predicate Valid()
      reads this
    {
      FileBlocks.Valid(F(), own) && BitsMatch(bitmap, size, nmeta, own.Keys)
    }

    ghost predicate Ok()
      reads this
    {
      Valid() && ViewOf(F(), view)
    }

    ghost predicate Same(f0: Fs, own0: map<nat, Slot>, bitmap0: Map, logged0: set<LogRef>)
      reads this
    {
      F() == f0 && own == own0 && bitmap == bitmap0 && logged == logged0
    }

    /**
     The empty file system that mkfs lays out: every block is zeroed, no inode has a block, and the bitmap marks the
     boot block, superblock, log, inodes and bitmap, which it insists lie within the first bitmap block.
     */
    constructor (size: nat, nmeta: nat, ninodes: nat)
      requires 1 <= nmeta <= size && nmeta < BPB
      ensures this.size == size && this.nmeta == nmeta && |inodes| == ninodes && Ok()
      ensures own == map[] && view == seq(ninodes, _ => []) && logged == {}
      ensures forall b :: 0 <= b < size ==> (Used(bitmap, size, b) <==> b < nmeta)
    {
      this.size, this.nmeta := size, nmeta;
      inodes := seq(ninodes, _ => Inode(0, Zeros(NDIRECT + 1)));
      ptrs := seq(size, _ => Zeros(NINDIRECT));
      data := seq(size, _ => ZeroBytes(BSIZE));
      var m := MarkUsed(size, nmeta);
      bitmap := m;
      own, view, logged := map[], seq(ninodes, _ => []), {};
    }

    /** No block is left to allocate. */
    ghost predicate Full()
      reads this
    {
      forall b :: nmeta <= b < size ==> b in own
    }

    /** The search loops of balloc: the lowest block whose bit is clear, as base + offset. */
    method FirstFree() returns (found: bool, b: nat, bi: nat)
      requires Shape(bitmap, size)
      ensures found ==> b + bi < size && !Used(bitmap, size, b + bi)
      ensures found ==> (b + bi) / BPB == b / BPB && (b + bi) % BPB == bi
      ensures forall x :: 0 <= x < size && (!found || x < b + bi) ==> Used(bitmap, size, x)
    {
      b := 0;
      while b < size
        invariant b % BPB == 0
        invariant forall x :: 0 <= x < b && x < size ==> Used(bitmap, size, x)
        decreases size - b
      {
        bi := 0;
        while bi < BPB && b + bi < size
          invariant bi <= BPB
          invariant forall x :: 0 <= x < b + bi && x < size ==> Used(bitmap, size, x)
        {
          BitPosition(b, bi);
          if !Bit(bitmap[b / BPB][bi / 8], bi % 8) {
            return true, b, bi;
          }
          bi := bi + 1;
        }
        b := b + BPB;
      }
      return false, 0, 0;
    }

    /** Mark the lowest free block in use and zero it; 0 if there is none. */
    method Balloc() returns (r: nat)
      requires Valid()
      modifies `bitmap, `ptrs, `data, `logged
      ensures r == 0 ==> (forall b :: nmeta <= b < size ==> b in own)
      ensures r == 0 ==> bitmap == old(bitmap) && F() == old(F()) && logged == old(logged)
      ensures r != 0 ==> nmeta <= r < size && r !in own
      ensures r != 0 ==> forall b :: nmeta <= b < r ==> b in own
      ensures r != 0 ==> BitsMatch(bitmap, size, nmeta, own.Keys + {r}) && F() == Zero(old(F()), r)
      ensures r != 0 ==> logged == old(logged) + {Bits(r / BPB), Blk(r)}
      ensures forall i :: Logs(i, old(F()), old(bitmap), old(logged), F(), bitmap, logged)
    {
      ghost var f0, m0, logged0 := F(), bitmap, logged;
      var found, b, bi := FirstFree();
      UsedTaken(bitmap, size, nmeta, own.Keys, if found then b + bi else size);
      if !found {
        forall i ensures Logs(i, f0, m0, logged0, F(), bitmap, logged) {
          LogsRefl(i, f0, m0, logged0);
        }
        return 0;
      }
      r := b + bi;
      SetUsed(r, b, bi, own.Keys);
      ghost var m1, logged1 := bitmap, logged;
      Bzero(r);
      forall i ensures Logs(i, f0, m0, logged0, F(), bitmap, logged) {
        LogsTrans(i, f0, m0, logged0, f0, m1, logged1, F(), bitmap, logged);
      }
    }

    /** Set the bit of a block, found as base + offset, and log the bitmap block. */
    method SetUsed(r: nat, b: nat, bi: nat, ghost taken: set<nat>)
      requires BitsMatch(bitmap, size, nmeta, taken) && r == b + bi < size && r / BPB == b / BPB && r % BPB == bi
      modifies `bitmap, `logged
      ensures BitsMatch(bitmap, size, nmeta, taken + {r}) && logged == old(logged) + {Bits(r / BPB)}
      ensures forall i :: Logs(i, F(), old(bitmap), old(logged), F(), bitmap, logged)
    {
      ghost var m0, logged0 := bitmap, logged;
      BitsTake(bitmap, size, nmeta, taken, r);
      bitmap := bitmap[b / BPB := bitmap[b / BPB][bi / 8 := SetBit(bitmap[b / BPB][bi / 8], bi % 8)]];
      logged := logged + {Bits(b / BPB)};
      forall i ensures Logs(i, F(), m0, logged0, F(), bitmap, logged) {
        LogsBits(i, F(), m0, bitmap, logged0, b / BPB);
      }
    }

    /** balloc followed by storing the address: `addr = balloc(dev); slot = addr`. */
    method AllocSlot(s: Slot, ghost slots: set<Slot>) returns (addr: nat)
      requires Valid() && SlotOk(F(), s) && Held(F(), s) == 0 && s in slots
      requires s.Entry? ==> inodes[s.i].addrs[NDIRECT] != 0
      modifies `bitmap, `inodes, `ptrs, `data, `own, `logged
      ensures Valid() && Grown(old(F()), old(own), F(), own, slots) && Held(F(), s) == addr
      ensures addr == 0 ==> F() == old(F()) && own == old(own) && logged == old(logged)
      ensures addr == 0 ==> forall b :: nmeta <= b < size ==> b in own
      ensures logged <= old(logged) + NewRefs(old(own), own)
        + if s.Entry? then {Blk(inodes[s.i].addrs[NDIRECT])} else {}
      ensures Logs(s.i, old(F()), old(bitmap), old(logged), F(), bitmap, logged)
    {
      ghost var f0, m0, logged0 := F(), bitmap, logged;
      addr := Balloc();
      if addr == 0 {
        GrownRefl(F(), own, slots);
        return;
      }
      ghost var f1, logged1 := F(), logged;
      GrownByAlloc(old(F()), own, s, addr, slots);
      StoreAddr(s, addr);
      LogsTrans(s.i, f0, m0, logged0, f1, bitmap, logged1, F(), bitmap, logged);
      own := own[addr := s];
      assert F() == Alloc(old(F()), s, addr);
      assert addr in own && addr !in old(own);
      assert own.Keys == old(own).Keys + {addr};
    }

    /** Store a block address: in the inode, or in the indirect block, which is logged. */
    method StoreAddr(s: Slot, addr: nat)
      requires Shaped(F()) && SlotOk(F(), s) && (s.Entry? ==> 0 < inodes[s.i].addrs[NDIRECT] < size)
      modifies `inodes, `ptrs, `logged
      ensures F() == Store(old(F()), s, addr)
      ensures logged == old(logged) + if s.Entry? then {Blk(old(inodes)[s.i].addrs[NDIRECT])} else {}
      ensures Logs(s.i, old(F()), bitmap, old(logged), F(), bitmap, logged)
    {
      ghost var f1, logged1 := F(), logged;
      match s {
        case Direct(i, k) => inodes := inodes[i := inodes[i].(addrs := SetPtr(inodes[i].addrs, k, addr))];
        case Indirect(i) => inodes := inodes[i := inodes[i].(addrs := SetPtr(inodes[i].addrs, NDIRECT, addr))];
        case Entry(i, k) =>
          var a := inodes[i].addrs[NDIRECT];
          ptrs := ptrs[a := SetPtr(ptrs[a], k, addr)];
          logged := logged + {Blk(a)};
      }
      if s.Entry? {
        LogsBlk(s.i, f1, F(), bitmap, logged1, inodes[s.i].addrs[NDIRECT]);
      } else {
        assert logged1 + {} == logged1;
        LogsInode(s.i, f1, F(), bitmap, logged1);
      }
    }

    method Bzero(b: nat)
      requires b < |ptrs| == |data|
      modifies `ptrs, `data, `logged
      ensures F() == Zero(old(F()), b) && logged == old(logged) + {Blk(b)}
      ensures forall i :: Logs(i, old(F()), bitmap, old(logged), F(), bitmap, logged)
    {
      ghost var f0, logged0 := F(), logged;
      ptrs := ptrs[b := Zeros(NINDIRECT)];
      data := data[b := ZeroBytes(BSIZE)];
      logged := logged + {Blk(b)};
      forall i ensures Logs(i, f0, bitmap, logged0, F(), bitmap, logged) {
        LogsBlk(i, f0, F(), bitmap, logged0, b);
      }
    }

    /** Clear the bit of a block in use; that it is in use makes the panic unreachable. */
    method Bfree(b: nat, ghost taken: set<nat>)
      requires BitsMatch(bitmap, size, nmeta, taken) && b in taken && nmeta <= b < size
      modifies `bitmap, `logged
      ensures BitsMatch(bitmap, size, nmeta, taken - {b})
      ensures logged == old(logged) + {Bits(b / BPB)}
      ensures forall i :: Logs(i, F(), old(bitmap), old(logged), F(), bitmap, logged)
    {
      ghost var m0, logged0 := bitmap, logged;
      var bi := b % BPB;
      var old_ := bitmap[b / BPB][bi / 8];
      assert Used(bitmap, size, b);
      if !Bit(old_, bi % 8) {
        assert false;
      }
      BitsDrop(bitmap, size, nmeta, taken, b);
      bitmap := bitmap[b / BPB := bitmap[b / BPB][bi / 8 := ClearBit(old_, bi % 8)]];
      logged := logged + {Bits(b / BPB)};
      forall i ensures Logs(i, F(), m0, logged0, F(), bitmap, logged) {
        LogsBits(i, F(), m0, bitmap, logged0, b / BPB);
      }
    }

    /** The part of bmap for blocks beyond the direct ones. */
    method BmapIndirect(i: nat, k: nat, ghost slots: set<Slot>) returns (addr: nat)
      requires Valid() && i < |inodes| && k < NINDIRECT && slots == {Entry(i, k), Indirect(i)}
      modifies `bitmap, `inodes, `ptrs, `data, `own, `logged
      ensures Valid() && Grown(old(F()), old(own), F(), own, slots)
      ensures Held(F(), Entry(i, k)) == addr
      ensures addr == 0 ==> forall b :: nmeta <= b < size ==> b in own
      ensures Held(old(F()), Entry(i, k)) != 0 ==> Same(old(F()), old(own), old(bitmap), old(logged))
      ensures logged <= old(logged) + NewRefs(old(own), own) + IndirectRef(F(), i)
      ensures Logs(i, old(F()), old(bitmap), old(logged), F(), bitmap, logged)
    {
      ghost var f0, m0, logged0 := F(), bitmap, logged;
      LogsRefl(i, f0, m0, logged0);
      var a := inodes[i].addrs[NDIRECT];
      GrownRefl(F(), own, slots);
      if a == 0 {
        a := AllocSlot(Indirect(i), slots);
        if a == 0 {
          return 0;
        }
      }
      ghost var f1, own1, m1, logged1 := F(), own, bitmap, logged;
      assert SlotOk(f1, Indirect(i)) && Held(f1, Indirect(i)) == a;
      addr := ptrs[a][k];
      if addr == 0 {
        addr := AllocSlot(Entry(i, k), slots);
        LogsTrans(i, f0, m0, logged0, f1, m1, logged1, F(), bitmap, logged);
        GrownTrans(old(F()), old(own), f1, own1, F(), own, slots);
        NewRefsTrans(old(own), own1, own);
        assert SlotOk(f1, Indirect(i)) && Held(F(), Indirect(i)) == a;
      }
    }

    /**
     The disk address of block bn of file i, allocated if absent; 0 if the disk is full.  Only the
     file's own empty slots are filled, and no file's content changes.
     */
    method Bmap(i: nat, bn: nat) returns (addr: nat)
      requires Valid() && i < |inodes| && bn < MAXFILE
      modifies `bitmap, `inodes, `ptrs, `data, `own, `logged
      ensures Valid() && Grown(old(F()), old(own), F(), own, {FileSlot(i, bn), Indirect(i)})
      ensures Held(F(), FileSlot(i, bn)) == addr
      ensures addr == 0 ==> forall b :: nmeta <= b < size ==> b in own
      ensures Held(old(F()), FileSlot(i, bn)) != 0 ==> Same(old(F()), old(own), old(bitmap), old(logged))
      ensures logged <= old(logged) + NewRefs(old(own), own) + IndirectRef(F(), i)
      ensures Logs(i, old(F()), old(bitmap), old(logged), F(), bitmap, logged)
    {
      LogsRefl(i, F(), bitmap, logged);
      ghost var slots := {FileSlot(i, bn), Indirect(i)};
      if bn < NDIRECT {
        addr := inodes[i].addrs[bn];
        if addr == 0 {
          addr := AllocSlot(Direct(i, bn), slots);
        } else {
          GrownRefl(F(), own, slots);
        }
      } else {
        addr := BmapIndirect(i, bn - NDIRECT, slots);
      }
    }

    /** One round of readi's loop: m bytes at `at`, all in one block of the file. */
    method ReadPiece(i: nat, at: nat, m: nat) returns (piece: seq<byte>)
      requires Valid() && i < |inodes| && 0 < m && at % BSIZE + m <= BSIZE && at + m <= inodes[i].size
      modifies `bitmap, `inodes, `ptrs, `data, `own, `logged
      ensures Same(old(F()), old(own), old(bitmap), old(logged))
      ensures piece == Contents(F(), i)[at..at + m]
    {
      BlockOfByte(at, inodes[i].size);
      PresentBlock(F(), own, i, at / BSIZE);
      ReadChunk(F(), i, at, m);
      var addr := Bmap(i, at / BSIZE);
      piece := data[addr][at % BSIZE..at % BSIZE + m];
    }

    /** The loop of readi, once n is clipped to the file. */
    method ReadLoop(i: nat, off: nat, n: nat) returns (dst: seq<byte>)
      requires Valid() && i < |inodes| && off + n <= inodes[i].size
      modifies `bitmap, `inodes, `ptrs, `data, `own, `logged
      ensures Same(old(F()), old(own), old(bitmap), old(logged))
      ensures dst == Contents(F(), i)[off..off + n]
    {
      ghost var c, f0, own0, bitmap0, logged0 := Contents(F(), i), F(), own, bitmap, logged;
      dst := [];
      var tot := 0;
      while tot < n
        invariant tot <= n && Same(f0, own0, bitmap0, logged0) && dst == c[off..off + tot]
      {
        var m, piece := ReadRound(i, off, n, tot);
        SliceJoin(c, off, off + tot, off + tot + m);
        dst := dst + piece;
        tot := tot + m;
      }
    }

    /** One round of readi's loop: the bytes up to the end of a block or of the request. */
    method ReadRound(i: nat, off: nat, n: nat, tot: nat) returns (m: nat, piece: seq<byte>)
      requires Valid() && i < |inodes| && off + n <= inodes[i].size && tot < n
      modifies `bitmap, `inodes, `ptrs, `data, `own, `logged
      ensures Same(old(F()), old(own), old(bitmap), old(logged))
      ensures 0 < m <= n - tot && piece == Contents(F(), i)[off + tot..off + tot + m]
    {
      m := PieceLen(off + tot, n - tot);
      piece := ReadPiece(i, off + tot, m);
    }

    /** Read up to n bytes from offset off; off and n are 32-bit unsigned, and the sum may wrap. */
    method Readi(i: nat, off: nat, n: nat) returns (dst: seq<byte>)
      requires Ok() && i < |inodes| && off < U32 && n < U32
      modifies `bitmap, `inodes, `ptrs, `data, `own, `logged
      ensures Ok() && Same(old(F()), old(own), old(bitmap), old(logged))
      ensures dst == if off > |view[i]| || off + n >= U32 then [] else view[i][off..Min(off + n, |view[i]|)]
    {
      if off > inodes[i].size || (off + n) % U32 < off {
        return [];
      }
      if (off + n) % U32 > inodes[i].size {
        dst := ReadLoop(i, off, inodes[i].size - off);
      } else {
        dst := ReadLoop(i, off, n);
      }
    }

    /** One round of writei's loop: m bytes within one block; false if no block could be had. */
    method WritePiece(i: nat, off: nat, src: seq<byte>, tot: nat, m: nat,
                      ghost f0: Fs, ghost own0: map<nat, Slot>, ghost logged0: set<LogRef>)
      returns (ok: bool, next: nat)
      requires BitsMatch(bitmap, size, nmeta, own.Keys)
      requires InWrite(f0, own0, logged0, F(), own, logged, i, off, src, tot)
      requires off + |src| <= MAXFILE * BSIZE
      requires 0 < m <= |src| - tot && (off + tot) % BSIZE + m <= BSIZE
      modifies `bitmap, `inodes, `ptrs, `data, `own, `logged
      ensures BitsMatch(bitmap, size, nmeta, own.Keys)
      ensures next == (if ok then tot + m else tot) && InWrite(f0, own0, logged0, F(), own, logged, i, off, src, next)
      ensures !ok ==> forall b :: nmeta <= b < size ==> b in own
      ensures Logs(i, old(F()), old(bitmap), old(logged), F(), bitmap, logged)
    {
      ghost var f1, own1, logged1, m1 := F(), own, logged, bitmap;
      InWriteInode(f0, own0, logged0, F(), own, logged, i, off, src, tot);
      var addr := Bmap(i, (off + tot) / BSIZE);
      InWriteGrow(f0, own0, logged0, f1, own1, logged1, F(), own, logged, i, off, src, tot);
      if addr == 0 {
        return false, tot;
      }
      ghost var f2, logged2 := F(), logged;
      InWritePatch(f0, own0, logged0, f2, own, logged, i, off, src, tot, m);
      data := data[addr := Splice(data[addr], (off + tot) % BSIZE, src[tot..tot + m])];
      logged := logged + {Blk(addr)};
      assert F() == Patch(f2, addr, (off + tot) % BSIZE, src[tot..tot + m]);
      LogsBlk(i, f2, F(), bitmap, logged2, addr);
      LogsTrans(i, f1, m1, logged1, f2, bitmap, logged2, F(), bitmap, logged);
      return true, tot + m;
    }

    method WriteLoop(i: nat, off: nat, src: seq<byte>) returns (tot: nat)
      requires Valid() && i < |inodes| && off <= inodes[i].size && off + |src| <= MAXFILE * BSIZE
      modifies `bitmap, `inodes, `ptrs, `data, `own, `logged
      ensures BitsMatch(bitmap, size, nmeta, own.Keys)
      ensures InWrite(old(F()), old(own), old(logged), F(), own, logged, i, off, src, tot)
      ensures tot <= |src| && (tot < |src| ==> forall b :: nmeta <= b < size ==> b in own)
      ensures Logs(i, old(F()), old(bitmap), old(logged), F(), bitmap, logged)
    {
      InWriteStart(F(), own, logged, i, off, src);
      tot := WriteRounds(i, off, src, F(), own, logged);
    }

    method WriteRounds(i: nat, off: nat, src: seq<byte>,
                       ghost f0: Fs, ghost own0: map<nat, Slot>, ghost logged0: set<LogRef>) returns (tot: nat)
      requires BitsMatch(bitmap, size, nmeta, own.Keys) && off + |src| <= MAXFILE * BSIZE
      requires InWrite(f0, own0, logged0, F(), own, logged, i, off, src, 0)
      modifies `bitmap, `inodes, `ptrs, `data, `own, `logged
      ensures BitsMatch(bitmap, size, nmeta, own.Keys)
      ensures InWrite(f0, own0, logged0, F(), own, logged, i, off, src, tot)
      ensures tot <= |src| && (tot < |src| ==> forall b :: nmeta <= b < size ==> b in own)
      ensures Logs(i, old(F()), old(bitmap), old(logged), F(), bitmap, logged)
    {
      ghost var f1, m1, logged1 := F(), bitmap, logged;
      LogsRefl(i, f1, m1, logged1);
      tot := 0;
      while tot < |src|
        invariant Logs(i, f1, m1, logged1, F(), bitmap, logged)
        invariant tot <= |src| && BitsMatch(bitmap, size, nmeta, own.Keys)
        invariant InWrite(f0, own0, logged0, F(), own, logged, i, off, src, tot)
      {
        var m := PieceLen(off + tot, |src| - tot);
        ghost var f2, m2, logged2 := F(), bitmap, logged;
        var ok;
        ok, tot := WritePiece(i, off, src, tot, m, f0, own0, logged0);
        LogsTrans(i, f1, m1, logged1, f2, m2, logged2, F(), bitmap, logged);
        if !ok {
          return;
        }
      }
    }

    /**
     Write the bytes `src` at offset off: all of them, or as many as fit when the disk fills up.
     Other files keep their content.  Every block that changes is handed to the log, the inode's included, and a chunk
     of filewrite, starting a transaction, hands over at most MAXOPBLOCKS distinct blocks, and at most 7 on a disk with
     one bitmap block.
     */
    method Writei(i: nat, off: nat, src: seq<byte>) returns (r: int)
      requires Ok() && i < |inodes| && off < U32 && |src| < U32
      modifies `bitmap, `inodes, `ptrs, `data, `own, `logged, `view
      ensures Ok() && |inodes| == |old(inodes)|
      ensures r == -1 <==> off > |old(view)[i]| || off + |src| > MAXFILE * BSIZE
      ensures r == -1 ==> Same(old(F()), old(own), old(bitmap), old(logged)) && view == old(view)
      ensures r != -1 ==> 0 <= r <= |src| && view == old(view)[i := Splice(old(view)[i], off, src[..r])]
      ensures 0 <= r < |src| ==> Full()
      ensures Logs(i, old(F()), old(bitmap), old(logged), F(), bitmap, logged)
      ensures inodes[i] != old(inodes)[i] ==> Node(i / IPB) in logged
      ensures old(logged) == {} && |src| <= MAXCHUNK ==> |logged| <= if size <= BPB then 7 else MAXOPBLOCKS
    {
      ghost var f0, own0, logged0, m0 := F(), own, logged, bitmap;
      LogsRefl(i, f0, m0, logged0);
      if off > inodes[i].size || (off + |src|) % U32 < off {
        return -1;
      }
      if (off + |src|) % U32 > MAXFILE * BSIZE {
        return -1;
      }
      var tot := WriteLoop(i, off, src);
      ghost var f1, logged1 := F(), logged;
      WriteFinish(f0, own0, logged0, F(), own, logged, i, off, src, tot);
      if off + tot > inodes[i].size {
        inodes := inodes[i := inodes[i].(size := off + tot)];
      }
      logged := logged + {Node(i / IPB)};
      LogsInode(i, f1, F(), bitmap, logged1);
      LogsTrans(i, f0, m0, logged0, f1, bitmap, logged1, F(), bitmap, logged1);
      LogsMore(i, f0, m0, logged0, F(), bitmap, logged1, {Node(i / IPB)});
      assert WriteDone(f0, own0, logged0, F(), own, logged, i, off, src, tot);
      WriteView(f0, own0, logged0, F(), own, logged, i, off, src, tot, view);
      view := view[i := Splice(view[i], off, src[..tot])];
      if logged0 == {} && |src| <= MAXCHUNK {
        ChunkFits(f0, own0, F(), own, logged, i, off, src, tot);
        if size <= BPB {
          ChunkFitsSeven(f0, own0, F(), own, logged, i, off, src, tot);
        }
      }
      r := tot;
    }


    /** One transaction of filewrite: begin_op, writei of a chunk, end_op. */
    method WriteChunk(i: nat, off: nat, src: seq<byte>) returns (r: int)
      requires Ok() && i < |inodes| && off < U32 && |src| <= MAXCHUNK
      modifies `bitmap, `inodes, `ptrs, `data, `own, `logged, `view
      ensures Ok() && |inodes| == |old(inodes)|
      ensures r == -1 <==> off > |old(view)[i]| || off + |src| > MAXFILE * BSIZE
      ensures r == -1 ==> view == old(view)
      ensures r != -1 ==> 0 <= r <= |src| && off <= |old(view)[i]|
      ensures 0 <= r < |src| ==> Full()
      ensures r != -1 ==> view == old(view)[i := Splice(old(view)[i], off, src[..r])]
      ensures |logged| <= if size <= BPB then 7 else MAXOPBLOCKS
      ensures Logs(i, old(F()), old(bitmap), {}, F(), bitmap, logged)
      ensures inodes[i] != old(inodes)[i] ==> Node(i / IPB) in logged
    {
      logged := {};
      r := Writei(i, off, src);
    }

    /**
     filewrite: write src to file i at the file offset `off`.  What reaches the file is src[..done],
     all of src unless -1 is returned, and the offset moves past it.  It stops early only at a chunk that would start
     past the end or make the file too long, after whole chunks, or with the disk full.  `largest` is the
     largest number of distinct blocks that one of its transactions handed to the log.
     */
    method FileWrite(i: nat, off: nat, src: seq<byte>)
      returns (ret: int, off': nat, done: nat, ghost largest: nat)
      requires Ok() && i < |inodes| && off + |src| < U32
      modifies `bitmap, `inodes, `ptrs, `data, `own, `logged, `view
      ensures Ok() && done <= |src| && off' == off + done
      ensures ret == if done == |src| then |src| else -1
      ensures ret == -1 && !Full() ==>
        done % MAXCHUNK == 0 && Refused(|old(view)[i]|, off, done, Min(|src| - done, MAXCHUNK))
      ensures ret != -1 && |src| > 0 ==> off <= |old(view)[i]| && off + |src| <= MAXFILE * BSIZE
      ensures done > 0 ==> off <= |old(view)[i]| && view == old(view)[i := Splice(old(view)[i], off, src[..done])]
      ensures done == 0 ==> view == old(view)
      ensures largest <= if size <= BPB then 7 else MAXOPBLOCKS
    {
      largest := 0;
      done := 0;
      off' := off;
      ghost var view0 := view;
      while done < |src|
        invariant done <= |src| && off' == off + done && Ok() && i < |inodes|
        invariant Stored(view0, view, i, off, src, done)
        invariant largest <= if size <= BPB then 7 else MAXOPBLOCKS
        invariant InChunks(|view0[i]|, off, |src|, done)
      {
        var n1 := Min(|src| - done, MAXCHUNK);
        var r := WriteRound(i, off, off', src, done, n1, view0);
        largest := Max(largest, |logged|);
        if r > 0 {
          off' := off' + r;
          done := done + r;
        }
        if r != n1 {
          ret := -1;
          return;
        }
        ChunkNext(|view0[i]|, off, |src|, done - n1);
      }
      ret := |src|;
    }

    /** One round of filewrite's loop: one transaction. */
    method WriteRound(i: nat, ghost off: nat, off': nat, src: seq<byte>, done: nat, n1: nat,
                      ghost view0: seq<seq<byte>>)
      returns (r: int)
      requires Ok() && i < |inodes| && off' == off + done && off + |src| < U32
      requires done < |src| && n1 == Min(|src| - done, MAXCHUNK) && Stored(view0, view, i, off, src, done)
      modifies `bitmap, `inodes, `ptrs, `data, `own, `logged, `view
      ensures Ok() && i < |inodes| && -1 <= r <= n1
      ensures r == -1 <==> Refused(|view0[i]|, off, done, n1)
      ensures 0 <= r < n1 ==> Full()
      ensures Stored(view0, view, i, off, src, if r > 0 then done + r else done)
      ensures |logged| <= if size <= BPB then 7 else MAXOPBLOCKS
    {
      ghost var before := view;
      StoredLength(view0, view, i, off, src, done);
      r := WriteChunk(i, off', src[done..done + n1]);
      if r > 0 {
        ViewNext(view0, before, view, i, off, src, done, n1, r);
      } else if r == 0 {
        ViewKept(before, view, i, off', src[done..done + n1][..r]);
      }
    }

    /** The first loop of itrunc: free the direct blocks, clearing their addresses. */
    method FreeDirect(i: nat) returns (addrs: seq<nat>)
      requires Valid() && i < |inodes|
      modifies `bitmap, `logged
      ensures BitsMatch(bitmap, size, nmeta, own.Keys - Freed(own, i, NDIRECT, 0, false))
      ensures |addrs| == NDIRECT + 1 && addrs[NDIRECT] == inodes[i].addrs[NDIRECT]
      ensures forall x :: 0 <= x < NDIRECT ==> addrs[x] == 0
      ensures Logs(i, F(), old(bitmap), old(logged), F(), bitmap, logged)
    {
      ghost var f, m0, logged0 := F(), bitmap, logged;
      LogsRefl(i, f, m0, logged0);
      assert Freed(own, i, 0, 0, false) == {};
      assert own.Keys - {} == own.Keys;
      addrs := inodes[i].addrs;
      var k := 0;
      while k < NDIRECT
        invariant 0 <= k <= NDIRECT && |addrs| == NDIRECT + 1 && addrs[NDIRECT] == f.inodes[i].addrs[NDIRECT]
        invariant forall x :: 0 <= x < k ==> addrs[x] == 0
        invariant Logs(i, f, m0, logged0, f, bitmap, logged)
        invariant forall x :: k <= x < NDIRECT ==> addrs[x] == f.inodes[i].addrs[x]
        invariant BitsMatch(bitmap, size, nmeta, own.Keys - Freed(own, i, k, 0, false))
      {
        FreedNext(f, own, Direct(i, k), k, 0);
        if addrs[k] != 0 {
          ghost var m1, logged1 := bitmap, logged;
          Bfree(addrs[k], own.Keys - Freed(own, i, k, 0, false));
          assert F() == f;
          LogsTrans(i, f, m0, logged0, f, m1, logged1, f, bitmap, logged);
          addrs := SetPtr(addrs, k, 0);
        }
        k := k + 1;
      }
    }

    /** The second loop of itrunc: free the blocks listed in indirect block a, then a itself. */
    method FreeIndirect(i: nat, a: nat)
      requires FileBlocks.Valid(F(), own) && i < |inodes| && a == inodes[i].addrs[NDIRECT] && a != 0
      requires BitsMatch(bitmap, size, nmeta, own.Keys - Freed(own, i, NDIRECT, 0, false))
      modifies `bitmap, `logged
      ensures BitsMatch(bitmap, size, nmeta, Without(own, i).Keys)
      ensures Logs(i, F(), old(bitmap), old(logged), F(), bitmap, logged)
    {
      ghost var f, m0, logged0 := F(), bitmap, logged;
      LogsRefl(i, f, m0, logged0);
      FreedIndirect(f, own, i);
      var entries := ptrs[a];
      var j := 0;
      while j < NINDIRECT
        invariant 0 <= j <= NINDIRECT && Logs(i, f, m0, logged0, f, bitmap, logged)
        invariant BitsMatch(bitmap, size, nmeta, own.Keys - Freed(own, i, NDIRECT, j, false))
      {
        FreedNext(f, own, Entry(i, j), NDIRECT, j);
        if entries[j] != 0 {
          ghost var m1, logged1 := bitmap, logged;
          Bfree(entries[j], own.Keys - Freed(own, i, NDIRECT, j, false));
          assert F() == f;
          LogsTrans(i, f, m0, logged0, f, m1, logged1, f, bitmap, logged);
        }
        j := j + 1;
      }
      ghost var m1, logged1 := bitmap, logged;
      Bfree(a, own.Keys - Freed(own, i, NDIRECT, NINDIRECT, false));
      assert F() == f;
      LogsTrans(i, f, m0, logged0, f, m1, logged1, f, bitmap, logged);
    }

    /** Free exactly the blocks of file i: its direct blocks, indirect entries and indirect block. */
    method Itrunc(i: nat)
      requires Ok() && i < |inodes|
      modifies `bitmap, `inodes, `own, `logged, `view
      ensures Ok() && view == old(view)[i := []]
      ensures F() == Truncated(old(F()), i) && own == Without(old(own), i)
      ensures Logs(i, old(F()), old(bitmap), old(logged), F(), bitmap, logged) && Node(i / IPB) in logged
    {
      ghost var f, m0, logged0 := F(), bitmap, logged;
      TruncatedValid(f, own, i);
      TruncatedView(f, own, i, view);
      FreedIndirect(f, own, i);
      var addrs := FreeDirect(i);
      ghost var m1, logged1 := bitmap, logged;
      if addrs[NDIRECT] != 0 {
        FreeIndirect(i, addrs[NDIRECT]);
        LogsTrans(i, f, m0, logged0, f, m1, logged1, f, bitmap, logged);
        addrs := SetPtr(addrs, NDIRECT, 0);
      }
      ghost var logged2 := logged;
      assert addrs == Zeros(NDIRECT + 1);
      inodes := inodes[i := Inode(0, addrs)];
      own := Without(own, i);
      logged := logged + {Node(i / IPB)};
      LogsInode(i, f, F(), bitmap, logged2);
      LogsTrans(i, f, m0, logged0, f, bitmap, logged2, F(), bitmap, logged2);
      LogsMore(i, f, m0, logged0, F(), bitmap, logged2, {Node(i / IPB)});
      view := view[i := []];
      assert F() == Truncated(f, i);
    }
  }
}
