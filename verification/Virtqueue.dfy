/**
 The split virtqueue of the disk driver (kernel/virtio_disk.c, kernel/virtio.h; section 2.6 of
 VIRTIO 1.1): who owns each descriptor, what the rings say, and what the device finds when it
 follows a chain.
 */
module Virtqueue {
  import opened Remainders

  const U16: nat := 0x1_0000

  /** A queue size that 16-bit ring indices can wrap around with; the driver's is 8. */
  type QueueSize = n: nat | 0 < n < U16 && U16 % n == 0 witness 8

  const NUM: QueueSize
  const NEXT: nat := 1
  const WRITE: nat := 2
  const BSIZE: nat := 1024

  /** What a descriptor points at: a command header, a buffer's data, or a status byte. */
  datatype Addr = Null | Op(i: nat) | Data(buf: nat) | Status(i: nat)

  datatype Desc = Desc(addr: Addr, len: nat, flags: nat, next: nat)

  const ZERO := Desc(Null, 0, 0, 0)

  /** struct virtio_blk_req without the reserved word: type 1 writes the disk. */
  datatype Header = Header(typ: nat, sector: nat)

  datatype Option = None | Some(value: nat)

  /** What virtio_disk_rw was asked to do. */
  datatype Request = Request(write: bool, sector: nat, buf: nat)

  /** A chain is offered in the avail ring, taken by the device, put in the used ring, seen by the driver. */
  datatype Phase = Offered | Taken | Used | Seen

  /** The chain with head d0: its other descriptors, its request, and its place in the two rings. */
  datatype Chain = Chain(d1: nat, d2: nat, req: Request, phase: Phase, at: nat, done: nat)

  /** Free, allocated but not yet in a chain, or position k of the chain with the given head. */
  datatype Owner = Free | Held | Part(head: nat, k: nat)

  /** The memory that driver and device share, and the driver's own. */
  datatype Vq = Vq(
    free: seq<bool>,
    desc: seq<Desc>,
    ops: seq<Header>,
    infoBuf: seq<Option>,
    status: seq<nat>,
    availIdx: nat,
    availRing: seq<nat>,
    usedIdx: nat,
    usedRing: seq<nat>,
    seenIdx: nat,
    takenIdx: nat,
    inflight: set<nat>,
    busy: set<nat>)

  /** What the history says: the heads offered and completed so far, how many were taken and seen. */
  datatype Ledger = Ledger(
    own: seq<Owner>,
    chains: map<nat, Chain>,
    offered: seq<nat>,
    completed: seq<nat>,
    taken: nat,
    seen: nat)

  // ----- What the device reads -----

  predicate HasNext(d: Desc) { d.flags % 2 == 1 }

  datatype Reading = Bad | Good(req: Request)

  /** The request a device finds at a head: header, one data descriptor, one status descriptor for that head. */
  function Found(v: Vq, h: nat): Reading
    requires |v.desc| == NUM && |v.ops| == NUM
  {
    if h >= NUM || !HasNext(v.desc[h]) || v.desc[h].next >= NUM then Bad
    else
      var d0, d1 := v.desc[h], v.desc[v.desc[h].next];
      if !HasNext(d1) || d1.next >= NUM then Bad
      else FoundIn(v.ops, d0, d1, v.desc[d1.next], h)
  }

  function FoundIn(ops: seq<Header>, d0: Desc, d1: Desc, d2: Desc, h: nat): Reading
    requires |ops| == NUM
  {
    if HasNext(d2) || d2.addr != Status(h) || !d1.addr.Data? || !d0.addr.Op? || d0.addr.i >= NUM then Bad
    else
      var op := ops[d0.addr.i];
      // The device may write the data exactly when the disk is read.
      if (op.typ == 1) == (d1.flags / 2 % 2 == 1) then Bad
      else Good(Request(op.typ == 1, op.sector, d1.addr.buf))
  }

  // ----- The invariant -----

  ghost predicate Shaped(v: Vq, l: Ledger) {
    && |v.free| == |v.desc| == |v.ops| == |v.infoBuf| == |v.status| == |v.availRing| == |v.usedRing| == |l.own| == NUM
    && l.taken <= |l.offered| && l.seen <= |l.completed|
    && v.availIdx == |l.offered| % U16 && v.takenIdx == l.taken % U16
    && v.usedIdx == |l.completed| % U16 && v.seenIdx == l.seen % U16
  }

  function Member(c: Chain, h: nat, k: nat): nat { if k == 0 then h else if k == 1 then c.d1 else c.d2 }

  /** Descriptor i: free and zero, held, or just where its chain says it is. */
  ghost predicate DescOk(v: Vq, l: Ledger, i: nat)
    requires Shaped(v, l) && i < NUM
  {
    && (v.infoBuf[i].Some? || i in v.inflight ==> i in l.chains)
    && match l.own[i]
    case Free => v.free[i] && v.desc[i] == ZERO
    case Held => !v.free[i]
    case Part(h, k) => !v.free[i] && h in l.chains && k < 3 && Member(l.chains[h], h, k) == i
  }

  ghost predicate ChainOk(v: Vq, l: Ledger, h: nat)
    requires Shaped(v, l) && h in l.chains
  {
    var c := l.chains[h];
    && h < NUM && c.d1 < NUM && c.d2 < NUM
    && l.own[h] == Part(h, 0) && l.own[c.d1] == Part(h, 1) && l.own[c.d2] == Part(h, 2)
    && v.desc[h] == Desc(Op(h), 16, NEXT, c.d1)
    && v.desc[c.d1] == Desc(Data(c.req.buf), BSIZE, if c.req.write then NEXT else WRITE + NEXT, c.d2)
    && v.desc[c.d2] == Desc(Status(h), 1, WRITE, 0)
    && v.ops[h] == Header(if c.req.write then 1 else 0, c.req.sector)
    && v.infoBuf[h] == Some(c.req.buf)
    && v.status[h] == (if c.phase.Offered? || c.phase.Taken? then 0xff else 0)
    && (c.req.buf in v.busy <==> !c.phase.Seen?) && (h in v.inflight <==> c.phase.Taken?)
    && c.at < |l.offered| && l.offered[c.at] == h && (c.phase.Offered? <==> c.at >= l.taken)
    && (c.phase.Used? || c.phase.Seen? ==> c.done < |l.completed| && l.completed[c.done] == h)
    && (c.phase.Used? ==> c.done >= l.seen)
  }

  /** Entry k of the avail ring, not yet taken, still names the chain that was offered k-th. */
  ghost predicate OfferOk(v: Vq, l: Ledger, k: nat)
    requires Shaped(v, l) && l.taken <= k < |l.offered|
  {
    v.availRing[k % NUM] == l.offered[k] && l.offered[k] in l.chains && l.chains[l.offered[k]].at == k
  }

  /** Entry k of the used ring, not yet seen, still names the chain that was completed k-th. */
  ghost predicate UsedOk(v: Vq, l: Ledger, k: nat)
    requires Shaped(v, l) && l.seen <= k < |l.completed|
  {
    && v.usedRing[k % NUM] == l.completed[k] && l.completed[k] in l.chains
    && l.chains[l.completed[k]].done == k && l.chains[l.completed[k]].phase.Used?
  }

  ghost predicate Ok(v: Vq, l: Ledger) {
    && Shaped(v, l)
    && (forall i :: 0 <= i < NUM ==> DescOk(v, l, i))
    && (forall h :: h in l.chains ==> ChainOk(v, l, h))
    && (forall h, h' :: h in l.chains && h' in l.chains && l.chains[h].req.buf == l.chains[h'].req.buf ==> h == h')
    && (forall k :: l.taken <= k < |l.offered| ==> OfferOk(v, l, k))
    && (forall k :: l.seen <= k < |l.completed| ==> UsedOk(v, l, k))
  }

  // ----- Ring arithmetic across the 16-bit wrap -----

  lemma RingSlot(n: nat)
    ensures n % U16 % NUM == n % NUM
  {
    var a, q, k := n / U16, U16 / NUM, n % U16;
    Parts(n, U16);
    Parts(U16, NUM);
    Parts(k, NUM);
    assert U16 * a == NUM * (q * a);
    assert n == NUM * (q * a + k / NUM) + k % NUM;
    Remainder(NUM, q * a + k / NUM, k % NUM);
  }

  lemma NextIndex(n: nat)
    ensures (n % U16 + 1) % U16 == (n + 1) % U16
  {
  }

  lemma SameIndex(m: nat, n: nat)
    requires m <= n <= m + NUM
    ensures m % U16 == n % U16 <==> m == n
  {
  }

  lemma SlotsDistinct(m: nat, n: nat)
    requires m < n < m + NUM
    ensures m % NUM != n % NUM
  {
    if m % NUM == n % NUM {
      SameRemainder(m, n, NUM);
    }
  }

  /** A sequence of distinct numbers below n has at most n of them. */
  lemma {:induction false} Pigeonhole(s: seq<nat>, n: nat)
    requires forall i :: 0 <= i < |s| ==> s[i] < n
    requires forall i, j :: 0 <= i < j < |s| ==> s[i] != s[j]
    ensures |s| <= n
  {
    if s == [] {
      return;
    }
    assert s[0] < n;
    if n - 1 in s {
      var k :| 0 <= k < |s| && s[k] == n - 1;
      Pigeonhole(s[..k] + s[k + 1..], n - 1);
    } else {
      Pigeonhole(s, n - 1);
    }
  }

  /** The offers not yet taken, with one more chain not among them, fit in the ring. */
  lemma OffersFit(v: Vq, l: Ledger, d: nat)
    requires Ok(v, l) && d < NUM && (forall k :: l.taken <= k < |l.offered| ==> l.offered[k] != d)
    ensures |l.offered| - l.taken < NUM
  {
    var s := l.offered[l.taken..] + [d];
    forall i | 0 <= i < |s| - 1 ensures s[i] == l.offered[l.taken + i] && OfferOk(v, l, l.taken + i) && s[i] < NUM {
      assert OfferOk(v, l, l.taken + i) && ChainOk(v, l, l.offered[l.taken + i]);
    }
    Pigeonhole(s, NUM);
  }

  /** The indices never run further apart than the ring is long. */
  lemma OffersBounded(v: Vq, l: Ledger)
    requires Ok(v, l)
    ensures |l.offered| - l.taken <= NUM
  {
    var s := l.offered[l.taken..];
    forall i | 0 <= i < |s| ensures s[i] == l.offered[l.taken + i] && OfferOk(v, l, l.taken + i) && s[i] < NUM {
      assert OfferOk(v, l, l.taken + i) && ChainOk(v, l, l.offered[l.taken + i]);
    }
    Pigeonhole(s, NUM);
  }

  lemma UsedBounded(v: Vq, l: Ledger)
    requires Ok(v, l)
    ensures |l.completed| - l.seen <= NUM
  {
    var s := l.completed[l.seen..];
    forall i | 0 <= i < |s| ensures s[i] == l.completed[l.seen + i] && UsedOk(v, l, l.seen + i) && s[i] < NUM {
      assert UsedOk(v, l, l.seen + i) && ChainOk(v, l, l.completed[l.seen + i]);
    }
    Pigeonhole(s, NUM);
  }

  lemma InflightTaken(v: Vq, l: Ledger, h: nat)
    requires Ok(v, l) && h < NUM && h in v.inflight
    ensures h in l.chains && l.chains[h].phase.Taken?
  {
    assert DescOk(v, l, h) && ChainOk(v, l, h);
  }

  /** A completed chain is found at its place among the completions. */
  lemma UsedPlace(v: Vq, l: Ledger, h: nat)
    requires Ok(v, l) && h in l.chains && l.chains[h].phase.Used?
    ensures l.seen <= l.chains[h].done < |l.completed| && l.completed[l.chains[h].done] == h
  {
    assert ChainOk(v, l, h);
  }

  lemma UsedFit(v: Vq, l: Ledger, d: nat)
    requires Ok(v, l) && d < NUM && (forall k :: l.seen <= k < |l.completed| ==> l.completed[k] != d)
    ensures |l.completed| - l.seen < NUM
  {
    var s := l.completed[l.seen..] + [d];
    forall i | 0 <= i < |s| - 1 ensures s[i] == l.completed[l.seen + i] && UsedOk(v, l, l.seen + i) && s[i] < NUM {
      assert UsedOk(v, l, l.seen + i) && ChainOk(v, l, l.completed[l.seen + i]);
    }
    Pigeonhole(s, NUM);
  }

  /** Following a chain, the device finds the request the driver was given. */
  lemma FoundIsRequest(v: Vq, l: Ledger, h: nat)
    requires Ok(v, l) && h in l.chains
    ensures Found(v, h) == Good(l.chains[h].req)
  {
    assert ChainOk(v, l, h);
  }

  // ----- Steps -----

  lemma AllocOk(v: Vq, l: Ledger, i: nat)
    requires Ok(v, l) && i < NUM && l.own[i] == Free
    ensures Ok(v.(free := v.free[i := false]), l.(own := l.own[i := Held]))
  {
    var v', l' := v.(free := v.free[i := false]), l.(own := l.own[i := Held]);
    forall j | 0 <= j < NUM ensures DescOk(v', l', j) {
      assert DescOk(v, l, j);
    }
    forall h | h in l.chains ensures ChainOk(v', l', h) {
      assert ChainOk(v, l, h);
    }
    forall k | l.taken <= k < |l.offered| ensures OfferOk(v', l', k) {
      assert OfferOk(v, l, k);
    }
    forall k | l.seen <= k < |l.completed| ensures UsedOk(v', l', k) {
      assert UsedOk(v, l, k);
    }
  }

  lemma FreeOk(v: Vq, l: Ledger, i: nat)
    requires Ok(v, l) && i < NUM && l.own[i] == Held
    ensures Ok(v.(free := v.free[i := true], desc := v.desc[i := ZERO]), l.(own := l.own[i := Free]))
  {
    var v', l' := v.(free := v.free[i := true], desc := v.desc[i := ZERO]), l.(own := l.own[i := Free]);
    forall j | 0 <= j < NUM ensures DescOk(v', l', j) {
      assert DescOk(v, l, j);
    }
    forall h | h in l.chains ensures ChainOk(v', l', h) {
      assert ChainOk(v, l, h);
    }
    forall k | l.taken <= k < |l.offered| ensures OfferOk(v', l', k) {
      assert OfferOk(v, l, k);
    }
    forall k | l.seen <= k < |l.completed| ensures UsedOk(v', l', k) {
      assert UsedOk(v, l, k);
    }
  }

  /** The chain that virtio_disk_rw writes into the three descriptors. */
  ghost function Written(v: Vq, h: nat, d1: nat, d2: nat, r: Request): Vq
    requires |v.desc| == |v.ops| == |v.infoBuf| == |v.status| == NUM && h < NUM && d1 < NUM && d2 < NUM
  {
    v.(desc := v.desc[h := Desc(Op(h), 16, NEXT, d1)]
                     [d1 := Desc(Data(r.buf), BSIZE, if r.write then NEXT else WRITE + NEXT, d2)]
                     [d2 := Desc(Status(h), 1, WRITE, 0)],
       ops := v.ops[h := Header(if r.write then 1 else 0, r.sector)],
       infoBuf := v.infoBuf[h := Some(r.buf)],
       status := v.status[h := 0xff],
       busy := v.busy + {r.buf})
  }

  ghost function Offer(v: Vq, h: nat): Vq
    requires |v.availRing| == NUM
  {
    v.(availRing := v.availRing[v.availIdx % NUM := h], availIdx := (v.availIdx + 1) % U16)
  }

  ghost function Chained(l: Ledger, h: nat, d1: nat, d2: nat, r: Request): Ledger
    requires |l.own| == NUM && h < NUM && d1 < NUM && d2 < NUM
  {
    l.(own := l.own[h := Part(h, 0)][d1 := Part(h, 1)][d2 := Part(h, 2)],
       chains := l.chains[h := Chain(d1, d2, r, Offered, |l.offered|, 0)],
       offered := l.offered + [h])
  }

  /** Three descriptors in the driver's hands and a buffer that no chain uses. */
  ghost predicate CanOffer(v: Vq, l: Ledger, h: nat, d1: nat, d2: nat, r: Request) {
    && Ok(v, l) && h < NUM && d1 < NUM && d2 < NUM && h != d1 && h != d2 && d1 != d2
    && l.own[h] == l.own[d1] == l.own[d2] == Held
    && forall g :: g in l.chains ==> l.chains[g].req.buf != r.buf
  }

  lemma OfferShaped(v: Vq, l: Ledger, h: nat, d1: nat, d2: nat, r: Request)
    requires CanOffer(v, l, h, d1, d2, r)
    ensures Shaped(Offer(Written(v, h, d1, d2, r), h), Chained(l, h, d1, d2, r))
    ensures v.availIdx % NUM == |l.offered| % NUM
  {
    RingSlot(|l.offered|);
    NextIndex(|l.offered|);
  }

  lemma OfferDesc(v: Vq, l: Ledger, h: nat, d1: nat, d2: nat, r: Request, j: nat)
    requires CanOffer(v, l, h, d1, d2, r) && j < NUM
    requires Shaped(Offer(Written(v, h, d1, d2, r), h), Chained(l, h, d1, d2, r))
    ensures DescOk(Offer(Written(v, h, d1, d2, r), h), Chained(l, h, d1, d2, r), j)
  {
    assert DescOk(v, l, j) && DescOk(v, l, h) && DescOk(v, l, d1) && DescOk(v, l, d2);
    assert h in l.chains ==> ChainOk(v, l, h);
  }

  lemma OfferChain(v: Vq, l: Ledger, h: nat, d1: nat, d2: nat, r: Request, g: nat)
    requires CanOffer(v, l, h, d1, d2, r) && g in Chained(l, h, d1, d2, r).chains
    requires Shaped(Offer(Written(v, h, d1, d2, r), h), Chained(l, h, d1, d2, r))
    ensures ChainOk(Offer(Written(v, h, d1, d2, r), h), Chained(l, h, d1, d2, r), g)
  {
    assert DescOk(v, l, h);
    assert h in l.chains ==> ChainOk(v, l, h);
    if g != h {
      assert ChainOk(v, l, g);
    }
  }

  /** The slot of the new offer is none that holds an offer not yet taken. */
  lemma OfferRing(v: Vq, l: Ledger, h: nat, d1: nat, d2: nat, r: Request, k: nat)
    requires CanOffer(v, l, h, d1, d2, r) && l.taken <= k <= |l.offered| && |l.offered| - l.taken < NUM
    requires Shaped(Offer(Written(v, h, d1, d2, r), h), Chained(l, h, d1, d2, r))
    requires v.availIdx % NUM == |l.offered| % NUM
    ensures OfferOk(Offer(Written(v, h, d1, d2, r), h), Chained(l, h, d1, d2, r), k)
  {
    if k < |l.offered| {
      assert OfferOk(v, l, k) && ChainOk(v, l, l.offered[k]);
      SlotsDistinct(k, |l.offered|);
    }
  }

  lemma OfferUsed(v: Vq, l: Ledger, h: nat, d1: nat, d2: nat, r: Request, k: nat)
    requires CanOffer(v, l, h, d1, d2, r) && l.seen <= k < |l.completed|
    requires Shaped(Offer(Written(v, h, d1, d2, r), h), Chained(l, h, d1, d2, r))
    ensures UsedOk(Offer(Written(v, h, d1, d2, r), h), Chained(l, h, d1, d2, r), k)
  {
    assert UsedOk(v, l, k) && ChainOk(v, l, l.completed[k]);
  }

  /** A held descriptor is no offer, so there is room for one more. */
  lemma HeldFits(v: Vq, l: Ledger, h: nat)
    requires Ok(v, l) && h < NUM && l.own[h] == Held
    ensures |l.offered| - l.taken < NUM
  {
    forall k | l.taken <= k < |l.offered| ensures l.offered[k] != h {
      assert OfferOk(v, l, k) && ChainOk(v, l, l.offered[k]);
    }
    OffersFit(v, l, h);
  }

  /** Three held descriptors become an offered chain, in a ring slot that nobody still needs. */
  lemma OfferKeepsOk(v: Vq, l: Ledger, h: nat, d1: nat, d2: nat, r: Request)
    requires CanOffer(v, l, h, d1, d2, r)
    ensures Ok(Offer(Written(v, h, d1, d2, r), h), Chained(l, h, d1, d2, r))
  {
    var v', l' := Offer(Written(v, h, d1, d2, r), h), Chained(l, h, d1, d2, r);
    OfferShaped(v, l, h, d1, d2, r);
    HeldFits(v, l, h);
    forall j | 0 <= j < NUM ensures DescOk(v', l', j) {
      OfferDesc(v, l, h, d1, d2, r, j);
    }
    forall g | g in l'.chains ensures ChainOk(v', l', g) {
      OfferChain(v, l, h, d1, d2, r, g);
    }
    forall k | l'.taken <= k < |l'.offered| ensures OfferOk(v', l', k) {
      OfferRing(v, l, h, d1, d2, r, k);
    }
    forall k | l'.seen <= k < |l'.completed| ensures UsedOk(v', l', k) {
      OfferUsed(v, l, h, d1, d2, r, k);
    }
  }

  ghost function SetPhase(l: Ledger, h: nat, p: Phase): Ledger
    requires h in l.chains
  {
    l.(chains := l.chains[h := l.chains[h].(phase := p)])
  }

  ghost function Take(v: Vq, h: nat): Vq { v.(takenIdx := (v.takenIdx + 1) % U16, inflight := v.inflight + {h}) }

  ghost function TakenNext(l: Ledger): Ledger
    requires l.taken < |l.offered| && l.offered[l.taken] in l.chains
  {
    SetPhase(l, l.offered[l.taken], Taken).(taken := l.taken + 1)
  }

  lemma TakeShaped(v: Vq, l: Ledger)
    requires Shaped(v, l) && l.taken < |l.offered| && l.offered[l.taken] in l.chains
    ensures Shaped(Take(v, l.offered[l.taken]), TakenNext(l))
  {
    NextIndex(l.taken);
  }

  lemma TakeChain(v: Vq, l: Ledger, g: nat)
    requires Ok(v, l) && l.taken < |l.offered| && l.offered[l.taken] in l.chains && g in l.chains
    requires Shaped(Take(v, l.offered[l.taken]), TakenNext(l))
    ensures ChainOk(Take(v, l.offered[l.taken]), TakenNext(l), g)
  {
    assert OfferOk(v, l, l.taken) && ChainOk(v, l, g);
  }

  lemma TakeRings(v: Vq, l: Ledger)
    requires Ok(v, l) && l.taken < |l.offered| && l.offered[l.taken] in l.chains
    requires Shaped(Take(v, l.offered[l.taken]), TakenNext(l))
    ensures var v', l' := Take(v, l.offered[l.taken]), TakenNext(l);
      && (forall k :: l'.taken <= k < |l'.offered| ==> OfferOk(v', l', k))
      && (forall k :: l'.seen <= k < |l'.completed| ==> UsedOk(v', l', k))
  {
    var v', l' := Take(v, l.offered[l.taken]), TakenNext(l);
    assert OfferOk(v, l, l.taken) && ChainOk(v, l, l.offered[l.taken]);
    forall k | l'.taken <= k < |l'.offered| ensures OfferOk(v', l', k) {
      assert OfferOk(v, l, k);
    }
    forall k | l'.seen <= k < |l'.completed| ensures UsedOk(v', l', k) {
      assert UsedOk(v, l, k);
    }
  }

  /** The device takes the next offer. */
  lemma TakeKeepsOk(v: Vq, l: Ledger)
    requires Ok(v, l) && l.taken < |l.offered|
    ensures l.offered[l.taken] in l.chains && Ok(Take(v, l.offered[l.taken]), TakenNext(l))
  {
    assert OfferOk(v, l, l.taken);
    var v', l' := Take(v, l.offered[l.taken]), TakenNext(l);
    TakeShaped(v, l);
    forall j | 0 <= j < NUM ensures DescOk(v', l', j) {
      assert DescOk(v, l, j);
    }
    forall g | g in l'.chains ensures ChainOk(v', l', g) {
      TakeChain(v, l, g);
    }
    TakeRings(v, l);
  }

  /** What the device reads at its place in the avail ring: the next offer, and that chain's own request. */
  lemma NextTaken(v: Vq, l: Ledger)
    requires Ok(v, l) && l.taken < |l.offered|
    ensures var h := l.offered[l.taken];
      v.availRing[v.takenIdx % NUM] == h < NUM && h in l.chains && l.chains[h].phase.Offered? &&
      Found(v, h) == Good(l.chains[h].req)
  {
    assert OfferOk(v, l, l.taken) && ChainOk(v, l, l.offered[l.taken]);
    RingSlot(l.taken);
    FoundIsRequest(v, l, l.offered[l.taken]);
  }

  ghost function Completion(v: Vq, h: nat): Vq
    requires |v.usedRing| == |v.status| == NUM && h < NUM
  {
    v.(status := v.status[h := 0], usedRing := v.usedRing[v.usedIdx % NUM := h], usedIdx := (v.usedIdx + 1) % U16,
       inflight := v.inflight - {h})
  }

  ghost function Completed(l: Ledger, h: nat): Ledger
    requires h in l.chains
  {
    l.(chains := l.chains[h := l.chains[h].(phase := Used, done := |l.completed|)], completed := l.completed + [h])
  }

  lemma CompleteShaped(v: Vq, l: Ledger, h: nat)
    requires Shaped(v, l) && h in l.chains && h < NUM
    ensures Shaped(Completion(v, h), Completed(l, h)) && v.usedIdx % NUM == |l.completed| % NUM
  {
    RingSlot(|l.completed|);
    NextIndex(|l.completed|);
  }

  /** The slot of the new entry is none that holds a completion not yet seen. */
  lemma CompleteRing(v: Vq, l: Ledger, h: nat, k: nat)
    requires Ok(v, l) && h in l.chains && l.chains[h].phase.Taken? && h < NUM
    requires l.seen <= k <= |l.completed| && |l.completed| - l.seen < NUM
    requires Shaped(Completion(v, h), Completed(l, h)) && v.usedIdx % NUM == |l.completed| % NUM
    ensures UsedOk(Completion(v, h), Completed(l, h), k)
  {
    if k < |l.completed| {
      assert UsedOk(v, l, k);
      SlotsDistinct(k, |l.completed|);
    }
  }

  lemma CompleteChain(v: Vq, l: Ledger, h: nat, g: nat)
    requires Ok(v, l) && h in l.chains && l.chains[h].phase.Taken? && h < NUM && g in l.chains
    requires Shaped(Completion(v, h), Completed(l, h))
    ensures ChainOk(Completion(v, h), Completed(l, h), g)
  {
    assert ChainOk(v, l, g) && ChainOk(v, l, h);
  }

  /** The device completes a chain it has taken, in a used slot that the driver has seen. */
  lemma CompleteKeepsOk(v: Vq, l: Ledger, h: nat)
    requires Ok(v, l) && h in l.chains && l.chains[h].phase.Taken?
    ensures h < NUM && Ok(Completion(v, h), Completed(l, h))
  {
    assert ChainOk(v, l, h);
    var v', l' := Completion(v, h), Completed(l, h);
    var n := |l.completed|;
    forall k | l.seen <= k < n ensures l.completed[k] != h {
      assert UsedOk(v, l, k);
    }
    UsedFit(v, l, h);
    CompleteShaped(v, l, h);
    forall j | 0 <= j < NUM ensures DescOk(v', l', j) {
      assert DescOk(v, l, j);
    }
    forall g | g in l'.chains ensures ChainOk(v', l', g) {
      CompleteChain(v, l, h, g);
    }
    forall k | l'.taken <= k < |l'.offered| ensures OfferOk(v', l', k) {
      assert OfferOk(v, l, k);
    }
    forall k | l'.seen <= k < |l'.completed| ensures UsedOk(v', l', k) {
      CompleteRing(v, l, h, k);
    }
  }

  ghost function See(v: Vq, buf: nat): Vq {
    v.(busy := v.busy - {buf}, seenIdx := (v.seenIdx + 1) % U16)
  }

  ghost function SeenNext(l: Ledger): Ledger
    requires l.seen < |l.completed| && l.completed[l.seen] in l.chains
  {
    SetPhase(l, l.completed[l.seen], Seen).(seen := l.seen + 1)
  }

  lemma SeeShaped(v: Vq, l: Ledger)
    requires Shaped(v, l) && l.seen < |l.completed| && l.completed[l.seen] in l.chains
    ensures Shaped(See(v, l.chains[l.completed[l.seen]].req.buf), SeenNext(l))
  {
    NextIndex(l.seen);
  }

  lemma SeeChain(v: Vq, l: Ledger, g: nat)
    requires Ok(v, l) && l.seen < |l.completed| && l.completed[l.seen] in l.chains && g in l.chains
    requires Shaped(See(v, l.chains[l.completed[l.seen]].req.buf), SeenNext(l))
    ensures ChainOk(See(v, l.chains[l.completed[l.seen]].req.buf), SeenNext(l), g)
  {
    assert UsedOk(v, l, l.seen) && ChainOk(v, l, g) && ChainOk(v, l, l.completed[l.seen]);
  }

  lemma SeeRings(v: Vq, l: Ledger)
    requires Ok(v, l) && l.seen < |l.completed| && l.completed[l.seen] in l.chains
    requires Shaped(See(v, l.chains[l.completed[l.seen]].req.buf), SeenNext(l))
    ensures var v', l' := See(v, l.chains[l.completed[l.seen]].req.buf), SeenNext(l);
      && (forall k :: l'.taken <= k < |l'.offered| ==> OfferOk(v', l', k))
      && (forall k :: l'.seen <= k < |l'.completed| ==> UsedOk(v', l', k))
  {
    var v', l' := See(v, l.chains[l.completed[l.seen]].req.buf), SeenNext(l);
    assert UsedOk(v, l, l.seen);
    forall k | l'.taken <= k < |l'.offered| ensures OfferOk(v', l', k) {
      assert OfferOk(v, l, k);
    }
    forall k | l'.seen <= k < |l'.completed| ensures UsedOk(v', l', k) {
      assert UsedOk(v, l, k);
    }
  }

  /** The used entry that the driver looks at next: a completed chain, with status 0 and its buffer on record. */
  lemma NextSeen(v: Vq, l: Ledger)
    requires Ok(v, l) && l.seen < |l.completed|
    ensures var h := l.completed[l.seen];
      && v.usedRing[v.seenIdx % NUM] == h < NUM && h in l.chains && l.chains[h].phase.Used?
      && v.status[h] == 0 && v.infoBuf[h] == Some(l.chains[h].req.buf)
  {
    assert UsedOk(v, l, l.seen) && ChainOk(v, l, l.completed[l.seen]);
    RingSlot(l.seen);
  }

  lemma SeeKeepsOk(v: Vq, l: Ledger)
    requires Ok(v, l) && l.seen < |l.completed|
    ensures var h := l.completed[l.seen]; h in l.chains && Ok(See(v, l.chains[h].req.buf), SeenNext(l))
  {
    var h := l.completed[l.seen];
    assert UsedOk(v, l, l.seen);
    var v', l' := See(v, l.chains[h].req.buf), SeenNext(l);
    SeeShaped(v, l);
    forall j | 0 <= j < NUM ensures DescOk(v', l', j) {
      assert DescOk(v, l, j);
    }
    forall g | g in l'.chains ensures ChainOk(v', l', g) {
      SeeChain(v, l, g);
    }
    SeeRings(v, l);
  }

  ghost function Unchained(l: Ledger, h: nat): Ledger
    requires |l.own| == NUM && h in l.chains && h < NUM && l.chains[h].d1 < NUM && l.chains[h].d2 < NUM
  {
    l.(own := l.own[h := Held][l.chains[h].d1 := Held][l.chains[h].d2 := Held], chains := l.chains - {h})
  }

  ghost function Forget(v: Vq, h: nat): Vq
    requires |v.infoBuf| == NUM && h < NUM
  {
    v.(infoBuf := v.infoBuf[h := None])
  }

  lemma UnchainChain(v: Vq, l: Ledger, h: nat, g: nat)
    requires Ok(v, l) && h in l.chains && g in l.chains && g != h
    requires h < NUM && l.chains[h].d1 < NUM && l.chains[h].d2 < NUM && Shaped(Forget(v, h), Unchained(l, h))
    ensures ChainOk(Forget(v, h), Unchained(l, h), g)
  {
    assert ChainOk(v, l, g) && ChainOk(v, l, h);
  }

  lemma UnchainDesc(v: Vq, l: Ledger, h: nat, j: nat)
    requires Ok(v, l) && h in l.chains && l.chains[h].phase.Seen? && j < NUM
    requires h < NUM && l.chains[h].d1 < NUM && l.chains[h].d2 < NUM && Shaped(Forget(v, h), Unchained(l, h))
    ensures DescOk(Forget(v, h), Unchained(l, h), j)
  {
    assert ChainOk(v, l, h) && DescOk(v, l, j);
  }

  /** A chain that has been seen is the driver's again. */
  lemma UnchainKeepsOk(v: Vq, l: Ledger, h: nat)
    requires Ok(v, l) && h in l.chains && l.chains[h].phase.Seen?
    ensures h < NUM && l.chains[h].d1 < NUM && l.chains[h].d2 < NUM
    ensures Ok(Forget(v, h), Unchained(l, h))
  {
    assert ChainOk(v, l, h);
    var v', l' := Forget(v, h), Unchained(l, h);
    assert Shaped(v', l');
    forall j | 0 <= j < NUM ensures DescOk(v', l', j) {
      UnchainDesc(v, l, h, j);
    }
    forall g | g in l'.chains ensures ChainOk(v', l', g) {
      UnchainChain(v, l, h, g);
    }
    forall k | l'.taken <= k < |l'.offered| ensures OfferOk(v', l', k) {
      assert OfferOk(v, l, k) && ChainOk(v, l, l.offered[k]);
    }
    forall k | l'.seen <= k < |l'.completed| ensures UsedOk(v', l', k) {
      assert UsedOk(v, l, k);
    }
  }
}
