/**
 The disk driver (kernel/virtio_disk.c) and its device, updating the shared queue in place.  The
 driver's methods are what runs under vdisk_lock between two sleeps; the device's methods are the
 only things a device may do: take the next offered chain, and complete a chain it has taken.
 They may be called in any order.
 */
module VirtioDisk {
  import opened Virtqueue

  /** See is one turn of virtio_disk_intr's loop: the device may act between any two. */
  datatype Step = Rw(req: Request) | Finish(head: nat) | See | DeviceTakes | DeviceCompletes(head: nat)

  /** Offers and completions are only added, and are taken and seen in their order. */
  ghost predicate Later(l: Ledger, l': Ledger) {
    l.offered <= l'.offered && l.completed <= l'.completed && l.taken <= l'.taken && l.seen <= l'.seen
  }

  ghost function CountFree(own: seq<Owner>): nat {
    |set i | 0 <= i < |own| && own[i] == Free|
  }

  lemma OneLessFree(own: seq<Owner>, i: nat, o: Owner)
    requires i < |own| && own[i] == Free && o != Free
    ensures CountFree(own[i := o]) == CountFree(own) - 1
  {
    var a := set j | 0 <= j < |own| && own[j] == Free;
    var own' := own[i := o];
    assert (set j | 0 <= j < |own'| && own'[j] == Free) == a - {i};
  }

  lemma NoneFree(own: seq<Owner>)
    requires forall i :: 0 <= i < |own| ==> own[i] != Free
    ensures CountFree(own) == 0
  {
    assert (set i | 0 <= i < |own| && own[i] == Free) == {};
  }

  /** Three descriptors that the driver has taken back, still chained. */
  ghost predicate InHand(l: Ledger, desc: seq<Desc>, h: nat, d1: nat, d2: nat) {
    && |l.own| == |desc| == NUM && h < NUM && d1 < NUM && d2 < NUM && h != d1 && h != d2 && d1 != d2
    && l.own[h] == l.own[d1] == l.own[d2] == Held
    && HasNext(desc[h]) && desc[h].next == d1 && HasNext(desc[d1]) && desc[d1].next == d2 && !HasNext(desc[d2])
  }

  /** Freeing the three descriptors of a chain given up is freeing them in the ledger that had it. */
  lemma UnchainedBack(l: Ledger, h: nat)
    requires |l.own| == NUM && h in l.chains && h < NUM && l.chains[h].d1 < NUM && l.chains[h].d2 < NUM
    ensures var c := l.chains[h];
      Unchained(l, h).own[h := Free][c.d1 := Free][c.d2 := Free] == l.own[h := Free][c.d1 := Free][c.d2 := Free]
    ensures Unchained(l, h).chains == l.chains - {h}
  {
  }

  class Disk {
    // Shared with the device.
    var desc: seq<Desc>
    var ops: seq<Header>
    var availIdx: nat
    var availRing: seq<nat>
    var usedIdx: nat
    var usedRing: seq<nat>
    var status: seq<nat>
    // The driver's own.
    var free: seq<bool>
    var infoBuf: seq<Option>
    var seenIdx: nat
    /** The buffers with b->disk set. */
    var busy: set<nat>
    // The device's own.
    var takenIdx: nat
    var inflight: set<nat>
    ghost var l: Ledger

    ghost function V(): Vq
      reads this
    {
      Vq(free, desc, ops, infoBuf, status, availIdx, availRing, usedIdx, usedRing, seenIdx, takenIdx, inflight, busy)
    }

    ghost predicate Valid()
      reads this
    {
      Ok(V(), l)
    }

    /** The queue as virtio_disk_init leaves it. */
    constructor ()
      ensures Valid() && l.chains == map[] && busy == {}
      ensures forall i :: 0 <= i < NUM ==> l.own[i] == Free
    {
      desc := seq(NUM, _ => ZERO);
      ops := seq(NUM, _ => Header(0, 0));
      availIdx, usedIdx, seenIdx, takenIdx := 0, 0, 0, 0;
      availRing := seq(NUM, _ => 0);
      usedRing := seq(NUM, _ => 0);
      status := seq(NUM, _ => 0);
      free := seq(NUM, _ => true);
      infoBuf := seq(NUM, _ => None);
      busy, inflight := {}, {};
      l := Ledger(seq(NUM, _ => Free), map[], [], [], 0, 0);
    }

    /** The first free descriptor, now held; -1 if there is none. */
    method AllocDesc() returns (i: int)
      requires Valid()
      modifies `free, `l
      ensures Valid() && -1 <= i < NUM
      ensures i == -1 <==> CountFree(old(l).own) == 0
      ensures i == -1 ==> free == old(free) && l == old(l)
      ensures i >= 0 ==> old(l).own[i] == Free && free == old(free)[i := false]
      ensures i >= 0 ==> l == old(l).(own := old(l).own[i := Held])
      ensures i >= 0 ==> CountFree(l.own) == CountFree(old(l).own) - 1
    {
      i := 0;
      while i < NUM
        invariant 0 <= i <= NUM && free == old(free) && l == old(l)
        invariant forall j :: 0 <= j < i ==> l.own[j] != Free
      {
        assert DescOk(V(), l, i);
        if free[i] {
          AllocOk(V(), l, i);
          OneLessFree(l.own, i, Held);
          free := free[i := false];
          l := l.(own := l.own[i := Held]);
          return;
        }
        i := i + 1;
      }
      NoneFree(l.own);
      i := -1;
    }

    method FreeDesc(i: nat)
      requires Valid() && i < NUM && l.own[i] == Held
      modifies `free, `desc, `l
      ensures Valid()
      ensures free == old(free)[i := true] && desc == old(desc)[i := ZERO] && l == old(l).(own := old(l).own[i := Free])
    {
      // Neither panic can happen: i is in range and not free.
      assert DescOk(V(), l, i) && !free[i];
      FreeOk(V(), l, i);
      desc := desc[i := ZERO];
      free := free[i := true];
      l := l.(own := l.own[i := Free]);
    }

    /** All three or none: it fails, and changes nothing, exactly when fewer than three are free. */
    method Alloc3Desc() returns (ok: bool, d0: nat, d1: nat, d2: nat)
      requires Valid()
      modifies `free, `desc, `l
      ensures Valid()
      ensures ok <==> CountFree(old(l).own) >= 3
      ensures !ok ==> V() == old(V()) && l == old(l)
      ensures ok ==> d0 < NUM && d1 < NUM && d2 < NUM && d0 != d1 && d0 != d2 && d1 != d2
      ensures ok ==> old(l).own[d0] == old(l).own[d1] == old(l).own[d2] == Free && desc == old(desc)
      ensures ok ==> l == old(l).(own := old(l).own[d0 := Held][d1 := Held][d2 := Held])
    {
      d0, d1, d2 := 0, 0, 0;
      ghost var l0, v0 := l, V();
      var i := AllocDesc();
      if i < 0 {
        return false, 0, 0, 0;
      }
      assert DescOk(v0, l0, i);
      var j := AllocDesc();
      if j < 0 {
        FreeDesc(i);
        assert l.own == l0.own && free == v0.free && desc == v0.desc;
        return false, 0, 0, 0;
      }
      assert DescOk(v0, l0, j);
      var k := AllocDesc();
      if k < 0 {
        GiveBack(i, j, v0, l0);
        return false, 0, 0, 0;
      }
      return true, i, j, k;
    }

    /** The failure path of alloc3_desc, with two descriptors taken. */
    method GiveBack(i: nat, j: nat, ghost v0: Vq, ghost l0: Ledger)
      requires Valid() && Ok(v0, l0) && i < NUM && j < NUM && i != j && l0.own[i] == l0.own[j] == Free
      requires l == l0.(own := l0.own[i := Held][j := Held])
      requires V() == v0.(free := v0.free[i := false][j := false])
      modifies `free, `desc, `l
      ensures Valid() && V() == v0 && l == l0
    {
      assert DescOk(v0, l0, i) && DescOk(v0, l0, j);
      FreeDesc(i);
      FreeDesc(j);
      assert l.own == l0.own && free == v0.free && desc == v0.desc;
    }

    /** free_chain: exactly the three descriptors of a chain that is the driver's again. */
    method FreeChain(h: nat, ghost d1: nat, ghost d2: nat)
      requires Valid() && InHand(l, desc, h, d1, d2)
      modifies `free, `desc, `l
      ensures Valid() && l == old(l).(own := old(l).own[h := Free][d1 := Free][d2 := Free])
      ensures free == old(free)[h := true][d1 := true][d2 := true]
    {
      ghost var own0, free0, l0 := l.own, free, l;
      ghost var n := 0;
      var i := h;
      while true
        invariant Valid() && 0 <= n < 3 && i == (if n == 0 then h else if n == 1 then d1 else d2)
        invariant n <= 1 ==> desc[d1] == old(desc)[d1]
        invariant desc[d2] == old(desc)[d2] && (n == 0 ==> desc == old(desc))
        invariant free == if n == 0 then free0 else if n == 1 then free0[h := true] else free0[h := true][d1 := true]
        invariant l == l0.(own := if n == 0 then own0 else if n == 1 then own0[h := Free]
          else own0[h := Free][d1 := Free])
        decreases 3 - n
      {
        var more, next := HasNext(desc[i]), desc[i].next;
        FreeDesc(i);
        if !more {
          return;
        }
        i, n := next, n + 1;
      }
    }

    /** No descriptor is between owners: every one is free or in exactly one chain. */
    ghost predicate Settled()
      reads this
    {
      Valid() && forall i :: 0 <= i < NUM ==> l.own[i] != Held
    }

    /**
     virtio_disk_rw up to its wait for the device; false, with nothing changed, means sleep and try again.
     The caller has the buffer locked, so no other request uses it.
     */
    method Rw(r: Request) returns (ok: bool, h: nat)
      requires Settled() && forall g :: g in l.chains ==> l.chains[g].req.buf != r.buf
      modifies this
      ensures Settled()
      ensures ok <==> CountFree(old(l).own) >= 3
      ensures !ok ==> V() == old(V()) && l == old(l)
      ensures ok ==> h !in old(l).chains && h in l.chains && l.chains[h].req == r && l.chains[h].phase.Offered?
      ensures ok ==> l.chains == old(l).chains[h := l.chains[h]] && l.offered == old(l).offered + [h]
      ensures ok ==> l == old(l).(own := l.own, chains := l.chains, offered := l.offered)
      ensures ok ==> h < NUM && Found(V(), h) == Good(r) && busy == old(busy) + {r.buf}
    {
      var d1, d2;
      ghost var v0, l0 := V(), l;
      ok, h, d1, d2 := Alloc3Desc();
      if !ok {
        return;
      }
      assert h in l0.chains ==> ChainOk(v0, l0, h);
      Enqueue(h, d1, d2, r);
    }

    method Enqueue(h: nat, d1: nat, d2: nat, r: Request)
      requires CanOffer(V(), l, h, d1, d2, r)
      modifies `desc, `ops, `status, `busy, `infoBuf, `availRing, `availIdx, `l
      ensures Valid() && l == Chained(old(l), h, d1, d2, r)
      ensures Found(V(), h) == Good(r) && busy == old(busy) + {r.buf}
    {
      OfferKeepsOk(V(), l, h, d1, d2, r);
      Format(h, d1, d2, r);
      availRing := availRing[availIdx % NUM := h];
      availIdx := (availIdx + 1) % U16;
      l := Chained(l, h, d1, d2, r);
      FoundIsRequest(V(), l, h);
    }

    /** Fill in the three descriptors, the header and the bookkeeping. */
    method Format(h: nat, d1: nat, d2: nat, r: Request)
      requires |desc| == |ops| == |status| == |infoBuf| == NUM
      requires h < NUM && d1 < NUM && d2 < NUM && h != d1 && h != d2 && d1 != d2
      modifies `desc, `ops, `status, `busy, `infoBuf
      ensures V() == Written(old(V()), h, d1, d2, r)
    {
      ops := ops[h := Header(if r.write then 1 else 0, r.sector)];
      Describe(h, d1, d2, r);
      status := status[h := 0xff];
      busy := busy + {r.buf};
      infoBuf := infoBuf[h := Some(r.buf)];
    }

    /** The three descriptors: header, data and status, in a chain. */
    method Describe(h: nat, d1: nat, d2: nat, r: Request)
      requires |desc| == NUM && h < NUM && d1 < NUM && d2 < NUM && h != d1 && h != d2 && d1 != d2
      modifies `desc
      ensures desc == old(desc)[h := Desc(Op(h), 16, NEXT, d1)]
        [d1 := Desc(Data(r.buf), BSIZE, if r.write then NEXT else WRITE + NEXT, d2)]
        [d2 := Desc(Status(h), 1, WRITE, 0)]
    {
      desc := desc[h := Desc(Op(h), 16, NEXT, d1)];
      desc := desc[d1 := Desc(Data(r.buf), BSIZE, if r.write then 0 else WRITE, d2)];
      desc := desc[d1 := desc[d1].(flags := desc[d1].flags + NEXT)];
      desc := desc[d2 := Desc(Status(h), 1, WRITE, 0)];
    }

    /** The rest of virtio_disk_rw, once b->disk is clear: exactly the chain's three descriptors are freed. */
    method Finish(h: nat)
      requires Settled() && h in l.chains && l.chains[h].req.buf !in busy
      modifies this
      ensures Settled() && l.chains == old(l).chains - {h} && busy == old(busy)
      ensures h < NUM && old(l).chains[h].d1 < NUM && old(l).chains[h].d2 < NUM
      ensures var c := old(l).chains[h];
        l == old(l).(own := old(l).own[h := Free][c.d1 := Free][c.d2 := Free], chains := old(l).chains - {h})
    {
      ghost var l0, c := l, l.chains[h];
      ClearInfo(h);
      UnchainedBack(l0, h);
      FreeChain(h, c.d1, c.d2);
    }

    /** disk.info[h].b = 0: the chain is no request any more, and its descriptors are the driver's to free. */
    method ClearInfo(h: nat)
      requires Valid() && h in l.chains && l.chains[h].req.buf !in busy
      modifies `infoBuf, `l
      ensures Valid() && busy == old(busy)
      ensures var c := old(l).chains[h]; InHand(l, desc, h, c.d1, c.d2) && l == Unchained(old(l), h)
    {
      assert ChainOk(V(), l, h);
      UnchainKeepsOk(V(), l, h);
      ghost var next := Unchained(l, h);
      infoBuf := infoBuf[h := None];
      l := next;
    }

    /** One turn of virtio_disk_intr's loop: the next completed chain, whose status is 0. */
    method SeeOne()
      requires Valid() && l.seen < |l.completed|
      modifies `busy, `seenIdx, `l
      ensures Valid() && old(l).completed[old(l).seen] in old(l).chains && l == SeenNext(old(l))
      ensures busy == old(busy) - {old(l).chains[old(l).completed[old(l).seen]].req.buf}
    {
      NextSeen(V(), l);
      var id := usedRing[seenIdx % NUM];
      // The panic on a bad status cannot happen.
      assert status[id] == 0;
      MarkSeen(infoBuf[id].value);
    }

    method MarkSeen(b: nat)
      requires Valid() && l.seen < |l.completed| && l.completed[l.seen] in l.chains
      requires b == l.chains[l.completed[l.seen]].req.buf
      modifies `busy, `seenIdx, `l
      ensures Valid() && l == SeenNext(old(l)) && busy == old(busy) - {b}
    {
      SeeKeepsOk(V(), l);
      busy := busy - {b};
      seenIdx := (seenIdx + 1) % U16;
      l := SeenNext(l);
    }

    /** virtio_disk_intr: every completion so far is processed, each once and in order. */
    method Interrupt()
      requires Settled()
      modifies `busy, `seenIdx, `l
      ensures Settled() && l.seen == |l.completed| && busy <= old(busy)
      ensures l == old(l).(chains := AllSeen(old(l), |old(l).completed|), seen := |old(l).completed|)
    {
      ghost var v0, l0 := V(), l;
      AllSeenNone(v0, l0);
      UsedBounded(v0, l0);
      SameIndex(l.seen, |l.completed|);
      while seenIdx != usedIdx
        invariant Settled() && busy <= v0.busy && l0.seen <= l.seen <= |l0.completed|
        invariant l == l0.(chains := AllSeen(l0, l.seen), seen := l.seen)
        invariant seenIdx == usedIdx <==> l.seen == |l0.completed|
        decreases |l0.completed| - l.seen
      {
        SeeStep(v0, l0);
      }
    }

    /** One turn of the loop, as a step towards having seen all that was completed in l0. */
    method SeeStep(ghost v0: Vq, ghost l0: Ledger)
      requires Settled() && Ok(v0, l0) && l0.seen <= l.seen < |l0.completed|
      requires l == l0.(chains := AllSeen(l0, l.seen), seen := l.seen)
      modifies `busy, `seenIdx, `l
      ensures Settled() && busy <= old(busy) && l.seen == old(l).seen + 1
      ensures l == l0.(chains := AllSeen(l0, l.seen), seen := l.seen)
      ensures seenIdx == usedIdx <==> l.seen == |l0.completed|
    {
      AllSeenNext(v0, l0, l.seen);
      SeeOne();
      UsedBounded(V(), l);
      SameIndex(l.seen, |l.completed|);
    }

    /** The device reads the next offer, if there is one it has not taken. */
    method DeviceTakes() returns (took: bool, h: nat, found: Reading)
      requires Settled()
      modifies `takenIdx, `inflight, `l
      ensures Settled() && (took <==> old(l).taken < |old(l).offered|)
      ensures !took ==> V() == old(V()) && l == old(l)
      ensures took ==> h == old(l).offered[old(l).taken] && h in old(l).chains && found == Good(old(l).chains[h].req)
      ensures took ==> l == TakenNext(old(l))
    {
      OffersBounded(V(), l);
      SameIndex(l.taken, |l.offered|);
      if takenIdx == availIdx {
        return false, 0, Bad;
      }
      h, found := TakeOne();
      took := true;
    }

    method TakeOne() returns (h: nat, found: Reading)
      requires Valid() && l.taken < |l.offered|
      modifies `takenIdx, `inflight, `l
      ensures Valid() && h == old(l).offered[old(l).taken] && h in old(l).chains && l == TakenNext(old(l))
      ensures found == Good(old(l).chains[h].req)
    {
      NextTaken(V(), l);
      h := availRing[takenIdx % NUM];
      found := ReadChain(h);
      MarkTaken(h);
    }

    method MarkTaken(h: nat)
      requires Valid() && l.taken < |l.offered| && h == l.offered[l.taken]
      modifies `takenIdx, `inflight, `l
      ensures Valid() && h in old(l).chains && l == TakenNext(old(l))
    {
      TakeKeepsOk(V(), l);
      takenIdx := (takenIdx + 1) % U16;
      inflight := inflight + {h};
      l := TakenNext(l);
    }

    /** The device follows a chain. */
    method ReadChain(h: nat) returns (found: Reading)
      requires Valid()
      ensures found == Found(V(), h)
    {
      if h >= NUM || !HasNext(desc[h]) || desc[h].next >= NUM {
        return Bad;
      }
      var d0, d1 := desc[h], desc[desc[h].next];
      if !HasNext(d1) || d1.next >= NUM {
        return Bad;
      }
      return FoundIn(ops, d0, d1, desc[d1.next], h);
    }

    /** The device completes a chain that it has taken and not completed before. */
    method DeviceCompletes(h: nat)
      requires Settled() && h in inflight && h < NUM
      modifies `status, `usedRing, `usedIdx, `inflight, `l
      ensures Settled() && h in old(l).chains && old(l).chains[h].phase.Taken? && l == Completed(old(l), h)
    {
      InflightTaken(V(), l, h);
      MarkUsed(h);
    }

    /** The status byte, the entry in the used ring, and its index. */
    method MarkUsed(h: nat)
      requires Valid() && h in l.chains && l.chains[h].phase.Taken? && h < NUM
      modifies `status, `usedRing, `usedIdx, `inflight, `l
      ensures Valid() && l == Completed(old(l), h)
    {
      ghost var next := Completed(l, h);
      ghost var v := Completion(V(), h);
      CompleteKeepsOk(V(), l, h);
      status, inflight, l := status[h := 0], inflight - {h}, next;
      usedRing, usedIdx := usedRing[usedIdx % NUM := h], (usedIdx + 1) % U16;
      assert V() == v;
    }

    /** The test and body of virtio_disk_intr's loop; false ends it, and then every completion has been seen. */
    method SeeNext() returns (more: bool)
      requires Settled()
      modifies `busy, `seenIdx, `l
      ensures Settled() && (more <==> old(l).seen < |old(l).completed|)
      ensures more ==> old(l).completed[old(l).seen] in old(l).chains && l == SeenNext(old(l))
      ensures more ==> busy == old(busy) - {old(l).chains[old(l).completed[old(l).seen]].req.buf}
      ensures !more ==> l == old(l) && V() == old(V()) && forall h :: h in l.chains ==> !l.chains[h].phase.Used?
    {
      UsedBounded(V(), l);
      SameIndex(l.seen, |l.completed|);
      more := seenIdx != usedIdx;
      if more {
        SeeOne();
      } else {
        forall h | h in l.chains ensures !l.chains[h].phase.Used? {
          assert ChainOk(V(), l, h);
        }
      }
    }

    /** A step, taken where it is possible. */
    method Do(step: Step)
      requires Settled()
      modifies this
      ensures Settled() && Later(old(l), l)
    {
      match step
      case Rw(r) =>
        if forall i :: 0 <= i < NUM ==> infoBuf[i] != Some(r.buf) {
          forall g | g in l.chains ensures l.chains[g].req.buf != r.buf {
            assert ChainOk(V(), l, g);
          }
          var _, _ := Rw(r);
        }
      case Finish(h) =>
        if h < NUM && infoBuf[h].Some? && infoBuf[h].value !in busy {
          assert DescOk(V(), l, h) && ChainOk(V(), l, h);
          Finish(h);
        }
      case See => var _ := SeeNext();
      case DeviceTakes => var _, _, _ := DeviceTakes();
      case DeviceCompletes(h) =>
        if h < NUM && h in inflight {
          DeviceCompletes(h);
        }
    }

    /** Any sequence of driver and device steps. */
    method Run(steps: seq<Step>)
      requires Settled()
      modifies this
      ensures Settled() && Later(old(l), l)
    {
      for n := 0 to |steps|
        invariant Settled() && Later(old(l), l)
      {
        Do(steps[n]);
      }
    }
  }

  /** The chains once the first n completions have been seen. */
  ghost function AllSeen(l: Ledger, n: nat): map<nat, Chain> {
    map h | h in l.chains ::
      if l.chains[h].phase.Used? && l.chains[h].done < n then l.chains[h].(phase := Seen) else l.chains[h]
  }

  lemma AllSeenNone(v: Vq, l: Ledger)
    requires Ok(v, l)
    ensures l == l.(chains := AllSeen(l, l.seen), seen := l.seen)
  {
    forall h | h in l.chains ensures AllSeen(l, l.seen)[h] == l.chains[h] {
      if l.chains[h].phase.Used? {
        UsedPlace(v, l, h);
      }
    }
    assert AllSeen(l, l.seen) == l.chains;
  }

  lemma AllSeenStep(l: Ledger, n: nat)
    requires n < |l.completed| && l.completed[n] in l.chains
    requires l.chains[l.completed[n]].phase.Used? && l.chains[l.completed[n]].done == n
    requires forall h :: h in l.chains && l.chains[h].phase.Used? ==>
      l.chains[h].done < |l.completed| && l.completed[l.chains[h].done] == h
    ensures var l1 := l.(chains := AllSeen(l, n), seen := n);
      l1.completed[n] in l1.chains && SeenNext(l1) == l.(chains := AllSeen(l, n + 1), seen := n + 1)
  {
    assert SeenNext(l.(chains := AllSeen(l, n), seen := n)).chains == AllSeen(l, n + 1);
  }

  lemma AllSeenNext(v: Vq, l: Ledger, n: nat)
    requires Ok(v, l) && l.seen <= n < |l.completed|
    ensures var l1 := l.(chains := AllSeen(l, n), seen := n);
      l1.completed[n] in l1.chains && SeenNext(l1) == l.(chains := AllSeen(l, n + 1), seen := n + 1)
  {
    assert UsedOk(v, l, n);
    forall h | h in l.chains && l.chains[h].phase.Used?
      ensures l.chains[h].done < |l.completed| && l.completed[l.chains[h].done] == h
    {
      UsedPlace(v, l, h);
    }
    AllSeenStep(l, n);
  }

  /** The descriptors that are not free are exactly disjoint chains of three. */
  lemma ExactChains(v: Vq, l: Ledger, i: nat)
    requires Ok(v, l) && (forall j :: 0 <= j < NUM ==> l.own[j] != Held) && i < NUM
    ensures !v.free[i] <==> exists h :: h in l.chains && i in {h, l.chains[h].d1, l.chains[h].d2}
    ensures forall h, g :: h in l.chains && g in l.chains && h != g && i in {h, l.chains[h].d1, l.chains[h].d2} ==>
      i !in {g, l.chains[g].d1, l.chains[g].d2}
    ensures forall h :: h in l.chains ==> h != l.chains[h].d1 && h != l.chains[h].d2 && l.chains[h].d1 != l.chains[h].d2
  {
    assert DescOk(v, l, i);
    forall h | h in l.chains
      ensures h != l.chains[h].d1 && h != l.chains[h].d2 && l.chains[h].d1 != l.chains[h].d2
      ensures i in {h, l.chains[h].d1, l.chains[h].d2} ==> l.own[i].Part? && l.own[i].head == h
    {
      assert ChainOk(v, l, h);
    }
    if !v.free[i] {
      var h := l.own[i].head;
      assert i in {h, l.chains[h].d1, l.chains[h].d2};
    }
  }
}
