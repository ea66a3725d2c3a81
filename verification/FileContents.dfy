/**
 Files as byte sequences: what allocating, writing and releasing blocks does to `Contents`.
 */
module FileContents {
  import opened FileBlocks

  /** File i reads the same in f and f'. */
  ghost predicate SameFile(f: Fs, f': Fs, i: nat) {
    match f case Fs(_, _, inodes, _, _) =>
      && Shaped(f) && Shaped(f') && i < |inodes| && i < |f'.inodes|
      && inodes[i].size == f'.inodes[i].size <= MAXFILE * BSIZE
      && Contents(f, i) == Contents(f', i)
  }

  lemma SameBytes(f: Fs, f': Fs, i: nat)
    requires Shaped(f) && Shaped(f') && i < |f.inodes| && i < |f'.inodes|
    requires f.inodes[i].size == f'.inodes[i].size <= MAXFILE * BSIZE
    requires forall p :: 0 <= p < f.inodes[i].size ==> ByteAt(f, i, p) == ByteAt(f', i, p)
    ensures SameFile(f, f', i)
  {
    assert Contents(f, i) == Contents(f', i);
  }

  lemma BlockOfByte(p: nat, size: nat)
    requires p < size <= MAXFILE * BSIZE
    ensures p / BSIZE < MAXFILE && (p / BSIZE) * BSIZE < size
  {
  }

  /** A valid file's blocks exist and are its own. */
  lemma PresentBlock(f: Fs, own: map<nat, Slot>, i: nat, bn: nat)
    requires Valid(f, own) && i < |f.inodes| && bn < MAXFILE && Held(f, FileSlot(i, bn)) != 0
    ensures var b := Held(f, FileSlot(i, bn)); f.nmeta <= b < f.size && b in own && own[b] == FileSlot(i, bn)
  {
    assert SlotOk(f, FileSlot(i, bn));
  }

  // ----- Allocation -----

  ghost function Alloc(f: Fs, s: Slot, b: nat): Fs
    requires Shaped(f) && SlotOk(f, s) && b < f.size
    requires s.Entry? ==> 0 < f.inodes[s.i].addrs[NDIRECT] < f.size
    requires Shaped(Zero(f, b))
  {
    Store(Zero(f, b), s, b)
  }

  lemma AllocKeeps(f: Fs, own: map<nat, Slot>, s: Slot, b: nat)
    requires Valid(f, own) && SlotOk(f, s) && Held(f, s) == 0
    requires f.nmeta <= b < f.size && b !in own
    requires s.Entry? ==> f.inodes[s.i].addrs[NDIRECT] != 0
    ensures Shaped(Zero(f, b))
    ensures s.Entry? ==> 0 < f.inodes[s.i].addrs[NDIRECT] < f.size
    ensures Valid(Alloc(f, s, b), own[b := s]) && Held(Alloc(f, s, b), s) == b
    ensures forall t :: SlotOk(f, t) && t != s ==> Held(Alloc(f, s, b), t) == Held(f, t)
    ensures forall i :: 0 <= i < |f.inodes| ==> Alloc(f, s, b).inodes[i].size == f.inodes[i].size
    ensures forall x :: 0 <= x < f.size && x != b ==> Alloc(f, s, b).data[x] == f.data[x]
  {
    ZeroFree(f, own, b);
    var z := Zero(f, b);
    assert SlotOk(z, s) && Held(z, s) == 0;
    StoreFresh(z, own, s, b);
    var f' := Alloc(f, s, b);
    forall t | SlotOk(f, t) && t != s ensures Held(f', t) == Held(f, t) {
      assert SlotOk(z, t) && Held(z, t) == Held(f, t);
    }
    AllocHoleFree(f, f', s);
  }

  lemma AllocHoleFree(f: Fs, f': Fs, s: Slot)
    requires Shaped(f) && HoleFree(f) && Shaped(f') && |f'.inodes| == |f.inodes|
    requires forall i :: 0 <= i < |f.inodes| ==> f'.inodes[i].size == f.inodes[i].size
    requires SlotOk(f, s) && Held(f', s) != 0
    requires forall t :: SlotOk(f, t) && t != s ==> Held(f', t) == Held(f, t)
    ensures HoleFree(f')
  {
    forall i, bn | 0 <= i < |f'.inodes| && 0 <= bn < MAXFILE && bn * BSIZE < f'.inodes[i].size
      ensures Held(f', FileSlot(i, bn)) != 0
    {
      assert SlotOk(f, FileSlot(i, bn)) && Held(f, FileSlot(i, bn)) != 0;
    }
  }

  /** From f to f' empty slots among `slots` took free blocks; no slot changed otherwise. */
  ghost predicate Filled(f: Fs, own: map<nat, Slot>, f': Fs, own': map<nat, Slot>, slots: set<Slot>) {
    match f case Fs(size, nmeta, inodes, _, _) =>
      && Valid(f, own) && Valid(f', own')
      && f'.size == size && f'.nmeta == nmeta && |f'.inodes| == |inodes|
      && (forall t :: SlotOk(f, t) ==> Held(f', t) == Held(f, t) || (Held(f, t) == 0 && t in slots))
      && (forall b :: b in own ==> b in own' && own'[b] == own[b])
      && (forall b :: b in own' && b !in own ==> own'[b] in slots && Held(f, own'[b]) == 0)
  }

  /** ... and all that changed besides is the content of blocks that were free. */
  ghost predicate Grown(f: Fs, own: map<nat, Slot>, f': Fs, own': map<nat, Slot>, slots: set<Slot>) {
    match f case Fs(_, _, inodes, _, data) =>
      && Filled(f, own, f', own', slots)
      && (forall j :: 0 <= j < |inodes| ==> f'.inodes[j].size == inodes[j].size)
      && (forall b :: b in own ==> f'.data[b] == data[b])
  }

  lemma GrownRefl(f: Fs, own: map<nat, Slot>, slots: set<Slot>)
    requires Valid(f, own)
    ensures Grown(f, own, f, own, slots)
  {
  }

  lemma GrownByAlloc(f: Fs, own: map<nat, Slot>, s: Slot, b: nat, slots: set<Slot>)
    requires Valid(f, own) && SlotOk(f, s) && Held(f, s) == 0 && s in slots
    requires f.nmeta <= b < f.size && b !in own
    requires s.Entry? ==> f.inodes[s.i].addrs[NDIRECT] != 0
    ensures Shaped(Zero(f, b))
    ensures s.Entry? ==> 0 < f.inodes[s.i].addrs[NDIRECT] < f.size
    ensures Grown(f, own, Alloc(f, s, b), own[b := s], slots) && Held(Alloc(f, s, b), s) == b
  {
    AllocKeeps(f, own, s, b);
  }

  lemma FilledTrans(f: Fs, own: map<nat, Slot>, f1: Fs, own1: map<nat, Slot>,
                    f2: Fs, own2: map<nat, Slot>, slots: set<Slot>)
    requires Filled(f, own, f1, own1, slots) && Filled(f1, own1, f2, own2, slots)
    ensures Filled(f, own, f2, own2, slots)
  {
    forall t | SlotOk(f, t) ensures Held(f2, t) == Held(f, t) || (Held(f, t) == 0 && t in slots) {
      assert SlotOk(f1, t);
    }
    forall b | b in own2 && b !in own ensures own2[b] in slots && SlotOk(f, own2[b]) && Held(f, own2[b]) == 0 {
      if b in own1 {
        assert own2[b] == own1[b];
      } else {
        assert SlotOk(f1, own2[b]) && SlotOk(f, own2[b]);
      }
    }
  }

  lemma GrownTrans(f: Fs, own: map<nat, Slot>, f1: Fs, own1: map<nat, Slot>,
                   f2: Fs, own2: map<nat, Slot>, slots: set<Slot>)
    requires Grown(f, own, f1, own1, slots) && Grown(f1, own1, f2, own2, slots)
    ensures Grown(f, own, f2, own2, slots)
  {
    FilledTrans(f, own, f1, own1, f2, own2, slots);
  }

  /** Growing keeps every byte of a present block, and so the content of every file. */
  lemma GrownByte(f: Fs, own: map<nat, Slot>, f': Fs, own': map<nat, Slot>, slots: set<Slot>, i: nat, p: nat)
    requires Grown(f, own, f', own', slots) && i < |f.inodes| && p < MAXFILE * BSIZE
    requires Held(f, FileSlot(i, p / BSIZE)) != 0
    ensures Held(f', FileSlot(i, p / BSIZE)) != 0 && ByteAt(f', i, p) == ByteAt(f, i, p)
  {
    assert SlotOk(f, FileSlot(i, p / BSIZE));
    PresentBlock(f, own, i, p / BSIZE);
  }

  lemma GrownSameFile(f: Fs, own: map<nat, Slot>, f': Fs, own': map<nat, Slot>, slots: set<Slot>, i: nat)
    requires Grown(f, own, f', own', slots) && i < |f.inodes|
    ensures SameFile(f, f', i)
  {
    forall p | 0 <= p < f.inodes[i].size ensures ByteAt(f, i, p) == ByteAt(f', i, p) {
      BlockOfByte(p, f.inodes[i].size);
      GrownByte(f, own, f', own', slots, i, p);
    }
    SameBytes(f, f', i);
  }

  // ----- Writing bytes into a present block -----

  function Splice(s: seq<byte>, o: nat, src: seq<byte>): (r: seq<byte>)
    requires o <= |s|
    ensures |r| == if o + |src| <= |s| then |s| else o + |src|
  {
    s[..o] + src + if o + |src| <= |s| then s[o + |src|..] else []
  }

  ghost function Patch(f: Fs, b: nat, o: nat, src: seq<byte>): Fs
    requires Shaped(f) && b < f.size && o + |src| <= BSIZE
  {
    f.(data := f.data[b := Splice(f.data[b], o, src)])
  }

  /** Byte p of file i once `src` is laid over it from offset `lo`. */
  ghost function Overwritten(f: Fs, i: nat, lo: nat, src: seq<byte>, p: nat): byte
    requires Shaped(f) && i < |f.inodes| && p < MAXFILE * BSIZE
  {
    if lo <= p < lo + |src| then src[p - lo] else ByteAt(f, i, p)
  }

  lemma PatchKeeps(f: Fs, own: map<nat, Slot>, i: nat, bn: nat, o: nat, src: seq<byte>)
    requires Valid(f, own) && i < |f.inodes| && bn < MAXFILE && Held(f, FileSlot(i, bn)) != 0
    requires o + |src| <= BSIZE
    ensures f.nmeta <= Held(f, FileSlot(i, bn)) < f.size
    ensures var f' := Patch(f, Held(f, FileSlot(i, bn)), o, src);
      && Valid(f', own)
      && (forall t :: SlotOk(f, t) ==> Held(f', t) == Held(f, t))
      && (forall j :: 0 <= j < |f.inodes| && j != i ==> SameFile(f, f', j))
      && (forall p :: 0 <= p < MAXFILE * BSIZE ==> ByteAt(f', i, p) == Overwritten(f, i, bn * BSIZE + o, src, p))
  {
    PresentBlock(f, own, i, bn);
    var b := Held(f, FileSlot(i, bn));
    var f' := Patch(f, b, o, src);
    assert Shaped(f');
    assert forall t :: SlotOk(f', t) ==> SlotOk(f, t) && Held(f', t) == Held(f, t);
    assert Owns(f', own);
    assert HoleFree(f');
    forall j | 0 <= j < |f.inodes| && j != i ensures SameFile(f, f', j) {
      PatchOther(f, own, f', b, j);
    }
    forall p | 0 <= p < MAXFILE * BSIZE
      ensures ByteAt(f', i, p) == Overwritten(f, i, bn * BSIZE + o, src, p)
    {
      PatchByte(f, own, f', i, bn, o, src, p);
    }
  }

  lemma PatchOther(f: Fs, own: map<nat, Slot>, f': Fs, b: nat, j: nat)
    requires Valid(f, own) && Shaped(f') && b in own && j < |f.inodes| && own[b].i != j
    requires f'.size == f.size && f'.inodes == f.inodes && f'.ptrs == f.ptrs
    requires forall x :: 0 <= x < f.size && x != b ==> f'.data[x] == f.data[x]
    ensures SameFile(f, f', j)
  {
    forall p | 0 <= p < f.inodes[j].size ensures ByteAt(f, j, p) == ByteAt(f', j, p) {
      BlockOfByte(p, f.inodes[j].size);
      PresentBlock(f, own, j, p / BSIZE);
    }
    SameBytes(f, f', j);
  }

  lemma PatchByte(f: Fs, own: map<nat, Slot>, f': Fs, i: nat, bn: nat, o: nat, src: seq<byte>, p: nat)
    requires Valid(f, own) && i < |f.inodes| && bn < MAXFILE && o + |src| <= BSIZE
    requires Held(f, FileSlot(i, bn)) != 0 && Held(f, FileSlot(i, bn)) < f.size
    requires f' == Patch(f, Held(f, FileSlot(i, bn)), o, src) && Shaped(f')
    requires p < MAXFILE * BSIZE
    ensures ByteAt(f', i, p) == Overwritten(f, i, bn * BSIZE + o, src, p)
  {
    var bp := p / BSIZE;
    assert bp < MAXFILE && SlotOk(f, FileSlot(i, bp));
    assert Held(f', FileSlot(i, bp)) == Held(f, FileSlot(i, bp));
    if bp == bn {
      assert p == bn * BSIZE + p % BSIZE;
    } else {
      PresentBlock(f, own, i, bn);
      assert Held(f, FileSlot(i, bp)) != Held(f, FileSlot(i, bn));
    }
  }

  // ----- A write in progress -----

  function Max(a: nat, b: nat): nat { if a < b then b else a }

  /**
   File i after the first `tot` bytes of `src` went in at `off`, its size not yet updated: every
   byte up to the new end is in a present block and is the new byte or the one in f0.
   */
  ghost predicate Written(f0: Fs, f: Fs, own: map<nat, Slot>, i: nat, off: nat, src: seq<byte>, tot: nat) {
    match f0 case Fs(_, _, inodes, _, _) =>
      && Shaped(f0) && Valid(f, own) && i < |inodes| == |f.inodes|
      && f.inodes[i].size == inodes[i].size && off <= inodes[i].size
      && tot <= |src| && off + tot <= MAXFILE * BSIZE
      && forall p :: 0 <= p < Max(f.inodes[i].size, off + tot) ==>
           WrittenByte(f0, f, i, off, src[..tot], p)
  }

  ghost predicate WrittenByte(f0: Fs, f: Fs, i: nat, off: nat, src: seq<byte>, p: nat)
    requires Shaped(f0) && Shaped(f) && i < |f0.inodes| && i < |f.inodes|
  {
    p < MAXFILE * BSIZE && Held(f, FileSlot(i, p / BSIZE)) != 0 && ByteAt(f, i, p) == Overwritten(f0, i, off, src, p)
  }

  lemma WrittenStart(f0: Fs, own: map<nat, Slot>, i: nat, off: nat, src: seq<byte>)
    requires Valid(f0, own) && i < |f0.inodes| && off <= f0.inodes[i].size
    ensures Written(f0, f0, own, i, off, src, 0)
  {
    forall p | 0 <= p < f0.inodes[i].size ensures WrittenByte(f0, f0, i, off, src[..0], p) {
      BlockOfByte(p, f0.inodes[i].size);
    }
  }

  lemma WrittenGrow(f0: Fs, f: Fs, own: map<nat, Slot>, f': Fs, own': map<nat, Slot>, slots: set<Slot>,
                    i: nat, off: nat, src: seq<byte>, tot: nat)
    requires Written(f0, f, own, i, off, src, tot) && Grown(f, own, f', own', slots)
    ensures Written(f0, f', own', i, off, src, tot)
  {
    forall p | 0 <= p < Max(f.inodes[i].size, off + tot) ensures WrittenByte(f0, f', i, off, src[..tot], p) {
      assert WrittenByte(f0, f, i, off, src[..tot], p);
      GrownByte(f, own, f', own', slots, i, p);
    }
  }

  lemma WrittenPatch(f0: Fs, f: Fs, own: map<nat, Slot>, i: nat, off: nat, src: seq<byte>, tot: nat, m: nat)
    requires Written(f0, f, own, i, off, src, tot) && tot + m <= |src|
    requires (off + tot) % BSIZE + m <= BSIZE && off + tot + m <= MAXFILE * BSIZE
    requires (off + tot) / BSIZE < MAXFILE && Held(f, FileSlot(i, (off + tot) / BSIZE)) != 0
    ensures f.nmeta <= Held(f, FileSlot(i, (off + tot) / BSIZE)) < f.size
    ensures var f' := Patch(f, Held(f, FileSlot(i, (off + tot) / BSIZE)), (off + tot) % BSIZE, src[tot..tot + m]);
      Valid(f', own) && Written(f0, f', own, i, off, src, tot + m)
  {
    var bn, o := (off + tot) / BSIZE, (off + tot) % BSIZE;
    PatchKeeps(f, own, i, bn, o, src[tot..tot + m]);
    var f' := Patch(f, Held(f, FileSlot(i, bn)), o, src[tot..tot + m]);
    var tot' := tot + m;
    forall p | 0 <= p < Max(f.inodes[i].size, off + tot')
      ensures WrittenByte(f0, f', i, off, src[..tot'], p)
    {
      assert bn * BSIZE + o == off + tot;
      if off + tot <= p < off + tot + m {
        assert p / BSIZE == bn;
        assert SlotOk(f, FileSlot(i, bn));
      } else {
        assert WrittenByte(f0, f, i, off, src[..tot], p);
        assert SlotOk(f, FileSlot(i, p / BSIZE));
      }
    }
  }

  ghost function Resize(f: Fs, i: nat, size: nat): Fs
    requires i < |f.inodes|
  {
    f.(inodes := f.inodes[i := f.inodes[i].(size := size)])
  }

  lemma ResizeValid(f: Fs, own: map<nat, Slot>, i: nat, size: nat)
    requires Valid(f, own) && i < |f.inodes| && size <= MAXFILE * BSIZE
    requires forall bn :: 0 <= bn < MAXFILE && bn * BSIZE < size ==> Held(f, FileSlot(i, bn)) != 0
    ensures var f' := Resize(f, i, size);
      && Valid(f', own)
      && (forall j :: 0 <= j < |f.inodes| && j != i ==> SameFile(f, f', j))
      && (forall t :: SlotOk(f, t) ==> Held(f', t) == Held(f, t))
  {
    var f' := Resize(f, i, size);
    assert Shaped(f');
    assert forall t :: SlotOk(f', t) ==> SlotOk(f, t) && Held(f', t) == Held(f, t);
    assert Owns(f', own);
    forall j, bn | 0 <= j < |f'.inodes| && 0 <= bn < MAXFILE && bn * BSIZE < f'.inodes[j].size
      ensures Held(f', FileSlot(j, bn)) != 0
    {
      assert SlotOk(f, FileSlot(j, bn)) && Held(f', FileSlot(j, bn)) == Held(f, FileSlot(j, bn));
    }
    forall j | 0 <= j < |f.inodes| && j != i ensures SameFile(f, f', j) {
      SameBytes(f, f', j);
    }
  }

  /** Updating the size finishes the write: the file is the old one with the bytes laid over it. */
  lemma WrittenDone(f0: Fs, f: Fs, own: map<nat, Slot>, i: nat, off: nat, src: seq<byte>, tot: nat)
    requires Written(f0, f, own, i, off, src, tot) && f0.inodes[i].size <= MAXFILE * BSIZE
    ensures var f' := Resize(f, i, Max(f.inodes[i].size, off + tot));
      && Valid(f', own)
      && Contents(f', i) == Splice(Contents(f0, i), off, src[..tot])
      && (forall j :: 0 <= j < |f.inodes| && j != i ==> SameFile(f, f', j))
      && (forall t :: SlotOk(f, t) ==> Held(f', t) == Held(f, t))
  {
    var size := Max(f.inodes[i].size, off + tot);
    assert forall bn :: 0 <= bn < MAXFILE && bn * BSIZE < size ==> Held(f, FileSlot(i, bn)) != 0 by {
      forall bn: nat | bn < MAXFILE && bn * BSIZE < size ensures Held(f, FileSlot(i, bn)) != 0 {
        assert WrittenByte(f0, f, i, off, src[..tot], bn * BSIZE);
      }
    }
    ResizeValid(f, own, i, size);
    WrittenContents(f0, f, own, i, off, src, tot);
  }

  lemma WrittenContents(f0: Fs, f: Fs, own: map<nat, Slot>, i: nat, off: nat, src: seq<byte>, tot: nat)
    requires Written(f0, f, own, i, off, src, tot) && f0.inodes[i].size <= MAXFILE * BSIZE
    ensures Shaped(Resize(f, i, Max(f.inodes[i].size, off + tot)))
    ensures Contents(Resize(f, i, Max(f.inodes[i].size, off + tot)), i) == Splice(Contents(f0, i), off, src[..tot])
  {
    var size := Max(f.inodes[i].size, off + tot);
    var f' := Resize(f, i, size);
    var c0, c := Contents(f0, i), Contents(f', i);
    forall p | 0 <= p < size ensures c[p] == Splice(c0, off, src[..tot])[p] {
      assert WrittenByte(f0, f, i, off, src[..tot], p);
      assert SlotOk(f, FileSlot(i, p / BSIZE)) && ByteAt(f', i, p) == ByteAt(f, i, p);
    }
    assert c == Splice(c0, off, src[..tot]);
  }

  /** Everything that holds in the middle of writei. */
  ghost predicate Writing(f0: Fs, own0: map<nat, Slot>, f: Fs, own: map<nat, Slot>, slots: set<Slot>,
                          i: nat, off: nat, src: seq<byte>, tot: nat) {
    match f0 case Fs(_, _, inodes, _, _) =>
      && Written(f0, f, own, i, off, src, tot)
      && Filled(f0, own0, f, own, slots)
      && forall j :: 0 <= j < |inodes| && j != i ==> SameFile(f0, f, j)
  }

  lemma WritingGrow(f0: Fs, own0: map<nat, Slot>, f: Fs, own: map<nat, Slot>, f': Fs, own': map<nat, Slot>,
                    new_: set<Slot>, slots: set<Slot>, i: nat, off: nat, src: seq<byte>, tot: nat)
    requires Writing(f0, own0, f, own, slots, i, off, src, tot)
    requires Grown(f, own, f', own', new_) && new_ <= slots
    ensures Writing(f0, own0, f', own', slots, i, off, src, tot)
  {
    assert Grown(f, own, f', own', slots);
    WrittenGrow(f0, f, own, f', own', slots, i, off, src, tot);
    FilledTrans(f0, own0, f, own, f', own', slots);
    forall j | 0 <= j < |f0.inodes| && j != i ensures SameFile(f0, f', j) {
      assert SameFile(f0, f, j);
      GrownSameFile(f, own, f', own', slots, j);
    }
  }

  lemma WritingPatch(f0: Fs, own0: map<nat, Slot>, f: Fs, own: map<nat, Slot>, slots: set<Slot>,
                     i: nat, off: nat, src: seq<byte>, tot: nat, m: nat)
    requires Writing(f0, own0, f, own, slots, i, off, src, tot) && tot + m <= |src|
    requires (off + tot) % BSIZE + m <= BSIZE && off + tot + m <= MAXFILE * BSIZE
    requires (off + tot) / BSIZE < MAXFILE && Held(f, FileSlot(i, (off + tot) / BSIZE)) != 0
    ensures f.nmeta <= Held(f, FileSlot(i, (off + tot) / BSIZE)) < f.size
    ensures var f' := Patch(f, Held(f, FileSlot(i, (off + tot) / BSIZE)), (off + tot) % BSIZE, src[tot..tot + m]);
      Writing(f0, own0, f', own, slots, i, off, src, tot + m)
  {
    var bn, o := (off + tot) / BSIZE, (off + tot) % BSIZE;
    WrittenPatch(f0, f, own, i, off, src, tot, m);
    PatchKeeps(f, own, i, bn, o, src[tot..tot + m]);
    var f' := Patch(f, Held(f, FileSlot(i, bn)), o, src[tot..tot + m]);
    assert Filled(f, own, f', own, slots);
    FilledTrans(f0, own0, f, own, f', own, slots);
    forall j | 0 <= j < |f0.inodes| && j != i ensures SameFile(f0, f', j) {
      assert SameFile(f0, f, j) && SameFile(f, f', j);
    }
  }

  lemma WritingDone(f0: Fs, own0: map<nat, Slot>, f: Fs, own: map<nat, Slot>, slots: set<Slot>,
                    i: nat, off: nat, src: seq<byte>, tot: nat)
    requires Writing(f0, own0, f, own, slots, i, off, src, tot)
    ensures var f' := Resize(f, i, Max(f.inodes[i].size, off + tot));
      && Valid(f', own) && Filled(f0, own0, f', own, slots)
      && Contents(f', i) == Splice(Contents(f0, i), off, src[..tot])
      && (forall j :: 0 <= j < |f0.inodes| && j != i ==> SameFile(f0, f', j))
  {
    WrittenDone(f0, f, own, i, off, src, tot);
    var f' := Resize(f, i, Max(f.inodes[i].size, off + tot));
    assert Filled(f, own, f', own, slots);
    FilledTrans(f0, own0, f, own, f', own, slots);
    forall j | 0 <= j < |f0.inodes| && j != i ensures SameFile(f0, f', j) {
      assert SameFile(f0, f, j) && SameFile(f, f', j);
    }
  }

  // ----- Truncation -----

  ghost function Truncated(f: Fs, i: nat): Fs
    requires i < |f.inodes|
  {
    f.(inodes := f.inodes[i := Inode(0, Zeros(NDIRECT + 1))])
  }

  ghost function Without(own: map<nat, Slot>, i: nat): map<nat, Slot> {
    map b | b in own && own[b].i != i :: own[b]
  }

  lemma TruncatedValid(f: Fs, own: map<nat, Slot>, i: nat)
    requires Valid(f, own) && i < |f.inodes|
    ensures Valid(Truncated(f, i), Without(own, i))
    ensures forall j :: 0 <= j < |f.inodes| && j != i ==> SameFile(f, Truncated(f, i), j)
  {
    var f', own' := Truncated(f, i), Without(own, i);
    assert Shaped(f');
    assert forall s :: SlotOk(f', s) ==> SlotOk(f, s) && Held(f', s) == if s.i == i then 0 else Held(f, s);
    assert Owns(f', own');
    forall j, bn | 0 <= j < |f'.inodes| && 0 <= bn < MAXFILE && bn * BSIZE < f'.inodes[j].size
      ensures Held(f', FileSlot(j, bn)) != 0
    {
      assert SlotOk(f', FileSlot(j, bn)) && Held(f, FileSlot(j, bn)) != 0;
    }
    forall j | 0 <= j < |f.inodes| && j != i ensures SameFile(f, f', j) {
      SameBytes(f, f', j);
    }
  }

  /** Of file i's blocks: the first d direct ones, the first e indirect ones, and the indirect block if `ind`. */
  ghost function Freed(own: map<nat, Slot>, i: nat, d: nat, e: nat, ind: bool): set<nat> {
    set b | b in own && own[b].i == i &&
            match own[b] { case Direct(_, k) => k < d case Entry(_, k) => k < e case Indirect(_) => ind }
  }

  /** The next slot in the order of itrunc: its block, if any, is owned and not yet freed. */
  lemma FreedNext(f: Fs, own: map<nat, Slot>, s: Slot, d: nat, e: nat)
    requires Valid(f, own) && SlotOk(f, s) && !s.Indirect?
    requires s.Direct? ==> s.k == d && e == 0
    requires s.Entry? ==> s.k == e
    ensures var now := Freed(own, s.i, d, e, false);
      var next := if s.Direct? then Freed(own, s.i, d + 1, e, false) else Freed(own, s.i, d, e + 1, false);
      && (Held(f, s) == 0 ==> next == now)
      && (Held(f, s) != 0 ==> Held(f, s) in own && Held(f, s) !in now && f.nmeta <= Held(f, s) < f.size
                              && own.Keys - next == own.Keys - now - {Held(f, s)})
  {
    var now := Freed(own, s.i, d, e, false);
    var next := if s.Direct? then Freed(own, s.i, d + 1, e, false) else Freed(own, s.i, d, e + 1, false);
    forall b ensures b in next <==> b in now || (b in own && own[b] == s) {
    }
    assert forall b :: b in own && own[b] == s ==> Held(f, s) == b;
  }

  /** The indirect block comes last; without one there are no entries to free. */
  lemma FreedIndirect(f: Fs, own: map<nat, Slot>, i: nat)
    requires Valid(f, own) && i < |f.inodes|
    ensures var a := f.inodes[i].addrs[NDIRECT]; var all := Freed(own, i, NDIRECT, NINDIRECT, false);
      && (a == 0 ==> own.Keys - Freed(own, i, NDIRECT, 0, false) == Without(own, i).Keys)
      && (a != 0 ==> a in own && a !in all && f.nmeta <= a < f.size
                     && own.Keys - all - {a} == Without(own, i).Keys)
  {
    assert SlotOk(f, Indirect(i)) && Held(f, Indirect(i)) == f.inodes[i].addrs[NDIRECT];
    forall b | b in own && own[b].i == i
      ensures own[b].Indirect? ==> b == f.inodes[i].addrs[NDIRECT]
      ensures own[b].Entry? ==> f.inodes[i].addrs[NDIRECT] != 0
    {
      assert SlotOk(f, own[b]) && Held(f, own[b]) == b;
    }
  }

  // ----- All files at once -----

  /** `view` lists the content of every file. */
  ghost predicate ViewOf(f: Fs, view: seq<seq<byte>>) {
    && Shaped(f) && |view| == |f.inodes|
    && forall i :: 0 <= i < |view| ==> f.inodes[i].size <= MAXFILE * BSIZE && view[i] == Contents(f, i)
  }

  lemma TruncatedView(f: Fs, own: map<nat, Slot>, i: nat, view: seq<seq<byte>>)
    requires Valid(f, own) && i < |f.inodes| && ViewOf(f, view)
    ensures ViewOf(Truncated(f, i), view[i := []])
  {
    TruncatedValid(f, own, i);
    var f' := Truncated(f, i);
    forall j | 0 <= j < |view| && j != i
      ensures f'.inodes[j].size <= MAXFILE * BSIZE && view[i := []][j] == Contents(f', j)
    {
      assert SameFile(f, f', j);
    }
  }
}
