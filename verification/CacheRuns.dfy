/**
 Every interleaving of threads on the buffer cache (kernel/bio.c), one atomic step at a time: a bget
 takes a reference under bcache.lock and then waits for the buffer's sleep lock; brelse gives up
 the sleep lock and then, separately, the reference.  The cache behaves as one plain map from
 block to contents, whatever is recycled in between.
 */
module CacheRuns {
  import opened BufferCache

  datatype Key = Key(dev: nat, blockno: nat)

  datatype Stage = Waiting | Holding | Leaving

  /** One call of bget, until the reference it took is given up. */
  datatype Use = Use(buf: nat, stage: Stage)

  datatype State = State(
    bufs: seq<Buf>,
    uses: map<nat, Use>,
    pins: seq<nat>,
    disk: map<Key, Block>,
    /** Buffers changed since they were last read from or written to disk. */
    dirty: set<nat>,
    /** The contents each block should have: what was last stored into it. */
    newest: map<Key, Block>)

  datatype Event =
    | Get(h: nat, key: Key, buf: nat)
    | Lock(h: nat)
    | Fill(h: nat)
    | Modify(h: nat, key: Key, data: Block)
    | Flush(h: nat)
    | Pin(h: nat)
    | Unpin(buf: nat)
    | Unlock(h: nat)
    | Leave(h: nat)

  function KeyOf(b: Buf): Key { Key(b.dev, b.blockno) }

  ghost predicate Locked(s: State, b: nat) {
    exists h :: h in s.uses && s.uses[h] == Use(b, Holding)
  }

  predicate Has(s: State, h: nat, stage: Stage) {
    h in s.uses && s.uses[h].stage == stage && s.uses[h].buf < |s.bufs| == |s.pins|
  }

  /**
   Clients keep to the rules of the log: contents are used and changed by the lock holder after bread, a
   changed buffer is written or pinned before it is unlocked, and written before its last unpin.
   */
  ghost predicate Enabled(s: State, e: Event) {
    match e
    case Get(h, key, b) => h !in s.uses && key.dev != 0 && key in s.disk && CanGrab(s.bufs, key.dev, key.blockno, b)
    case Lock(h) => Has(s, h, Waiting) && !Locked(s, s.uses[h].buf)
    case Fill(h) => Has(s, h, Holding) && var b := s.bufs[s.uses[h].buf]; !b.valid && KeyOf(b) in s.disk
    case Modify(h, key, _) => Has(s, h, Holding) && var b := s.bufs[s.uses[h].buf]; b.valid && KeyOf(b) == key
    case Flush(h) => Has(s, h, Holding) && s.bufs[s.uses[h].buf].valid
    case Pin(h) => Has(s, h, Holding) && s.bufs[s.uses[h].buf].valid
    case Unpin(b) => b < |s.bufs| == |s.pins| && s.pins[b] > 0 && (b in s.dirty ==> s.pins[b] > 1 || Locked(s, b))
    case Unlock(h) => Has(s, h, Holding) && var b := s.uses[h].buf; b in s.dirty ==> s.pins[b] > 0
    case Leave(h) => Has(s, h, Leaving)
  }

  function Unref(bufs: seq<Buf>, i: nat): seq<Buf>
    requires i < |bufs|
  {
    if bufs[i].refcnt == 0 then bufs else DropRef(bufs, i)
  }

  function SetData(bufs: seq<Buf>, i: nat, d: Block): seq<Buf>
    requires i < |bufs|
  {
    bufs[i := bufs[i].(valid := true, data := d)]
  }

  function SetPin(pins: seq<nat>, i: nat, n: nat): seq<nat>
    requires i < |pins|
  {
    pins[i := n]
  }

  function SetStage(uses: map<nat, Use>, h: nat, stage: Stage): map<nat, Use>
    requires h in uses
  {
    uses[h := uses[h].(stage := stage)]
  }

  ghost function Step(s: State, e: Event): State
    requires Enabled(s, e)
  {
    match e
    case Get(h, key, b) =>
      s.(bufs := Grab(s.bufs, key.dev, key.blockno, b), uses := s.uses[h := Use(b, Waiting)])
    case Lock(h) => s.(uses := SetStage(s.uses, h, Holding))
    case Fill(h) => var b := s.uses[h].buf; s.(bufs := SetData(s.bufs, b, s.disk[KeyOf(s.bufs[b])]))
    case Modify(h, key, d) => var b := s.uses[h].buf;
      s.(bufs := SetData(s.bufs, b, d), dirty := s.dirty + {b}, newest := s.newest[key := d])
    case Flush(h) => var b := s.uses[h].buf;
      s.(disk := s.disk[KeyOf(s.bufs[b]) := s.bufs[b].data], dirty := s.dirty - {b})
    case Pin(h) => var b := s.uses[h].buf;
      s.(bufs := AddRef(s.bufs, b), pins := SetPin(s.pins, b, s.pins[b] + 1))
    case Unpin(b) => s.(bufs := Unref(s.bufs, b), pins := SetPin(s.pins, b, s.pins[b] - 1))
    case Unlock(h) => s.(uses := SetStage(s.uses, h, Leaving))
    case Leave(h) => s.(bufs := Unref(s.bufs, s.uses[h].buf), uses := s.uses - {h})
  }

  ghost predicate Runs(s: State, es: seq<Event>)
    decreases |es|
  {
    es == [] || (Enabled(s, es[0]) && Runs(Step(s, es[0]), es[1..]))
  }

  ghost function Final(s: State, es: seq<Event>): State
    requires Runs(s, es)
    decreases |es|
  {
    if es == [] then s else Final(Step(s, es[0]), es[1..])
  }

  /** Right after binit. */
  ghost predicate Init(s: State) {
    && (forall b :: 0 <= b < |s.bufs| ==> s.bufs[b].dev == 0 && s.bufs[b].refcnt == 0)
    && s.uses == map[] && |s.pins| == |s.bufs| && (forall b :: 0 <= b < |s.pins| ==> s.pins[b] == 0)
    && s.dirty == {} && s.newest == s.disk
  }

  // ----- The invariant -----

  ghost function UsersOf(uses: map<nat, Use>, b: nat): set<nat> {
    set h | h in uses && uses[h].buf == b
  }

  /** refcnt is exactly the holders, the waiters, those about to drop theirs, and the pins. */
  ghost predicate Counted(s: State, b: nat)
    requires b < |s.bufs| == |s.pins|
  {
    s.bufs[b].refcnt == |UsersOf(s.uses, b)| + s.pins[b]
  }

  ghost predicate RefInv(s: State) {
    && |s.pins| == |s.bufs|
    && (forall b :: 0 <= b < |s.bufs| ==> Counted(s, b))
    && (forall h :: h in s.uses ==> s.uses[h].buf < |s.bufs|)
    && (forall h, h' :: h in s.uses && h' in s.uses && s.uses[h].stage == Holding && s.uses[h'] == s.uses[h] ==>
       h == h')
  }

  /** A buffer in use, pinned or dirty holds a block of the disk. */
  ghost predicate Real(s: State, b: nat) { b < |s.bufs| && s.bufs[b].dev != 0 && KeyOf(s.bufs[b]) in s.disk }

  ghost predicate UseInv(s: State) {
    && |s.pins| == |s.bufs| && OneEach(s.bufs) && s.newest.Keys == s.disk.Keys
    && (forall h :: h in s.uses ==> Real(s, s.uses[h].buf))
    && (forall b :: b in s.dirty ==> Real(s, b) && s.bufs[b].valid && (s.pins[b] > 0 || Locked(s, b)))
  }

  /** A valid buffer has the newest contents, and so has the disk unless the buffer is dirty. */
  ghost predicate Current(s: State, b: nat)
    requires b < |s.bufs|
  {
    s.bufs[b].valid && Real(s, b) && KeyOf(s.bufs[b]) in s.newest ==> s.bufs[b].data == s.newest[KeyOf(s.bufs[b])]
  }

  ghost predicate OnDisk(s: State, k: Key)
    requires k in s.disk && k in s.newest
  {
    s.disk[k] == s.newest[k] || exists b :: b in s.dirty && b < |s.bufs| && KeyOf(s.bufs[b]) == k
  }

  ghost predicate DataInv(s: State) {
    && (forall b :: 0 <= b < |s.bufs| ==> Current(s, b))
    && (forall k :: k in s.disk ==> k in s.newest && OnDisk(s, k))
  }

  ghost predicate Inv(s: State) { RefInv(s) && UseInv(s) && DataInv(s) }

  lemma InitInv(s: State)
    requires Init(s)
    ensures Inv(s)
  {
    forall b | 0 <= b < |s.bufs| ensures Counted(s, b) {
      assert UsersOf(s.uses, b) == {};
    }
  }

  lemma UsersAdd(uses: map<nat, Use>, h: nat, u: Use, b: nat)
    requires h !in uses
    ensures |UsersOf(uses[h := u], b)| == |UsersOf(uses, b)| + if u.buf == b then 1 else 0
  {
    assert UsersOf(uses[h := u], b) == UsersOf(uses, b) + if u.buf == b then {h} else {};
  }

  lemma UsersDrop(uses: map<nat, Use>, h: nat, b: nat)
    requires h in uses
    ensures |UsersOf(uses - {h}, b)| == |UsersOf(uses, b)| - if uses[h].buf == b then 1 else 0
  {
    assert UsersOf(uses - {h}, b) == UsersOf(uses, b) - if uses[h].buf == b then {h} else {};
  }

  lemma UsersStage(uses: map<nat, Use>, h: nat, stage: Stage, b: nat)
    requires h in uses
    ensures UsersOf(SetStage(uses, h, stage), b) == UsersOf(uses, b)
  {
  }

  /** A reference that is given up is one that is counted: refcnt never drops below zero. */
  lemma NoUnderflow(s: State, e: Event)
    requires Inv(s) && Enabled(s, e)
    ensures e.Leave? ==> s.bufs[s.uses[e.h].buf].refcnt > 0
    ensures e.Unpin? ==> s.bufs[e.buf].refcnt > 0
  {
    if e.Leave? {
      var b := s.uses[e.h].buf;
      assert Counted(s, b) && e.h in UsersOf(s.uses, b);
    } else if e.Unpin? {
      assert Counted(s, e.buf);
    }
  }

  lemma StepRefs(s: State, e: Event)
    requires Inv(s) && Enabled(s, e)
    ensures RefInv(Step(s, e))
  {
    var s' := Step(s, e);
    NoUnderflow(s, e);
    forall b | 0 <= b < |s'.bufs| ensures Counted(s', b) {
      assert Counted(s, b);
      match e
      case Get(h, key, i) => UsersAdd(s.uses, h, Use(i, Waiting), b);
      case Lock(h) => UsersStage(s.uses, h, Holding, b);
      case Unlock(h) => UsersStage(s.uses, h, Leaving, b);
      case Leave(h) => UsersDrop(s.uses, h, b);
      case _ =>
    }
  }

  /** A buffer that is recycled was used, pinned and changed by no one. */
  lemma Unused(s: State, b: nat)
    requires Inv(s) && b < |s.bufs| && s.bufs[b].refcnt == 0
    ensures b !in s.dirty && forall h :: h in s.uses ==> s.uses[h].buf != b
  {
    assert Counted(s, b) && UsersOf(s.uses, b) == {};
    forall h | h in s.uses ensures s.uses[h].buf != b {
      assert h !in UsersOf(s.uses, b);
    }
  }

  /** A buffer that is in use or pinned stays with its block, and stays valid. */
  lemma InUseStays(s: State, e: Event, b: nat)
    requires Inv(s) && Enabled(s, e) && b < |s.bufs| && s.bufs[b].refcnt > 0
    ensures b < |Step(s, e).bufs| && KeyOf(Step(s, e).bufs[b]) == KeyOf(s.bufs[b])
    ensures s.bufs[b].valid ==> Step(s, e).bufs[b].valid
  {
  }

  lemma InUse(s: State, b: nat)
    requires Inv(s) && b < |s.bufs|
    ensures (s.pins[b] > 0 || exists h :: h in s.uses && s.uses[h].buf == b) ==> s.bufs[b].refcnt > 0
  {
    assert Counted(s, b);
    if h :| h in s.uses && s.uses[h].buf == b {
      assert h in UsersOf(s.uses, b);
    }
  }

  /** Locks other than h's stay as they are. */
  lemma LockKept(s: State, e: Event, b: nat)
    requires Inv(s) && Enabled(s, e) && Locked(s, b)
    ensures Locked(Step(s, e), b) || (e.Unlock? && s.uses[e.h].buf == b)
  {
    var h :| h in s.uses && s.uses[h] == Use(b, Holding);
    var s' := Step(s, e);
    if !(e.Unlock? && e.h == h) {
      assert h in s'.uses && s'.uses[h] == Use(b, Holding);
    }
  }

  lemma StepReal(s: State, e: Event, b: nat)
    requires Inv(s) && Enabled(s, e) && Real(s, b)
    ensures Real(Step(s, e), b)
  {
  }

  lemma StepDirty(s: State, e: Event, b: nat)
    requires Inv(s) && Enabled(s, e) && b in Step(s, e).dirty
    ensures var s' := Step(s, e); Real(s', b) && s'.bufs[b].valid && (s'.pins[b] > 0 || Locked(s', b))
  {
    if b in s.dirty {
      StepReal(s, e, b);
      if Locked(s, b) {
        LockKept(s, e, b);
      }
      if e.Get? && !Holds(s.bufs[e.buf], e.key.dev, e.key.blockno) {
        Unused(s, e.buf);
      }
    } else {
      assert s.uses[e.h] == Use(b, Holding);
      StepReal(s, e, b);
      LockKept(s, e, b);
    }
  }

  lemma StepOneEach(s: State, e: Event)
    requires Inv(s) && Enabled(s, e)
    ensures OneEach(Step(s, e).bufs)
  {
    var bufs := Step(s, e).bufs;
    if e.Get? {
      assert forall i :: 0 <= i < |bufs| && i != e.buf ==> bufs[i] == s.bufs[i];
    } else {
      assert forall i :: 0 <= i < |bufs| ==> KeyOf(bufs[i]) == KeyOf(s.bufs[i]);
    }
  }

  lemma StepUses(s: State, e: Event)
    requires Inv(s) && Enabled(s, e)
    ensures UseInv(Step(s, e))
  {
    var s' := Step(s, e);
    StepOneEach(s, e);
    forall h | h in s'.uses ensures Real(s', s'.uses[h].buf) {
      if h in s.uses {
        StepReal(s, e, s.uses[h].buf);
      }
    }
    forall b | b in s'.dirty ensures Real(s', b) && s'.bufs[b].valid && (s'.pins[b] > 0 || Locked(s', b)) {
      StepDirty(s, e, b);
    }
    assert e.Flush? || e.Modify? ==> Real(s, s.uses[e.h].buf);
  }

  lemma StepCurrent(s: State, e: Event, b: nat)
    requires Inv(s) && Enabled(s, e) && b < |s.bufs|
    ensures Current(Step(s, e), b)
  {
    assert Current(s, b);
    if e.Fill? {
      FillCurrent(s, e.h);
    } else if e.Modify? {
      var i := s.uses[e.h].buf;
      assert Real(s, i);
      assert b != i ==> !Holds(s.bufs[b], s.bufs[i].dev, s.bufs[i].blockno);
    }
  }

  lemma StepOnDisk(s: State, e: Event, k: Key)
    requires Inv(s) && Enabled(s, e) && k in s.disk
    ensures k in Step(s, e).newest && k in Step(s, e).disk && OnDisk(Step(s, e), k)
  {
    var s' := Step(s, e);
    assert OnDisk(s, k);
    if e.Modify? || e.Flush? {
      var i := s.uses[e.h].buf;
      assert Real(s, i) && Current(s, i);
      assert e.Modify? ==> i in s'.dirty;
    } else if e.Get? && !Holds(s.bufs[e.buf], e.key.dev, e.key.blockno) {
      Unused(s, e.buf);
    }
    if s.disk[k] != s.newest[k] {
      var b :| b in s.dirty && b < |s.bufs| && KeyOf(s.bufs[b]) == k;
      assert KeyOf(s'.bufs[b]) == k;
    }
  }

  lemma StepData(s: State, e: Event)
    requires Inv(s) && Enabled(s, e)
    ensures DataInv(Step(s, e))
  {
    var s' := Step(s, e);
    forall b | 0 <= b < |s'.bufs| ensures Current(s', b) {
      StepCurrent(s, e, b);
    }
    forall k | k in s'.disk ensures k in s'.newest && OnDisk(s', k) {
      assert e.Flush? ==> Real(s, s.uses[e.h].buf);
      StepOnDisk(s, e, k);
    }
  }

  /** A block read in has its newest contents on disk: its one buffer is not valid, so not dirty. */
  lemma FillCurrent(s: State, h: nat)
    requires Inv(s) && Enabled(s, Fill(h))
    ensures var k := KeyOf(s.bufs[s.uses[h].buf]); k in s.newest && s.disk[k] == s.newest[k]
  {
    var b := s.uses[h].buf;
    var k := KeyOf(s.bufs[b]);
    assert OnDisk(s, k) && Real(s, b);
    forall b' | b' in s.dirty ensures KeyOf(s.bufs[b']) != k {
      assert b' != b ==> !Holds(s.bufs[b'], s.bufs[b].dev, s.bufs[b].blockno);
    }
  }

  lemma StepKeepsInv(s: State, e: Event)
    requires Inv(s) && Enabled(s, e)
    ensures Inv(Step(s, e))
  {
    StepRefs(s, e);
    StepUses(s, e);
    StepData(s, e);
  }

  lemma {:induction false} RunKeepsInv(s: State, es: seq<Event>)
    requires Inv(s) && Runs(s, es)
    ensures Inv(Final(s, es))
    decreases |es|
  {
    if es != [] {
      StepKeepsInv(s, es[0]);
      RunKeepsInv(Step(s, es[0]), es[1..]);
    }
  }

  // ----- The cache as a plain block map -----

  /** What a plain map, written by the Modify events alone, would hold for k. */
  ghost function LastStored(start: map<Key, Block>, es: seq<Event>, k: Key): Block
    requires k in start
    decreases |es|
  {
    if es == [] then start[k]
    else
      var e := es[|es| - 1];
      if e.Modify? && e.key == k then e.data else LastStored(start, es[..|es| - 1], k)
  }

  lemma {:induction false} LastStoredNext(start: map<Key, Block>, e: Event, es: seq<Event>, k: Key)
    requires k in start
    ensures LastStored(start, [e] + es, k)
         == LastStored(if e.Modify? then start[e.key := e.data] else start, es, k)
    decreases |es|
  {
    if es == [] {
      assert ([e] + es)[..0] == [];
    } else {
      assert ([e] + es)[..|es|] == [e] + es[..|es| - 1];
      LastStoredNext(start, e, es[..|es| - 1], k);
    }
  }

  lemma {:induction false} NewestIsLastStored(s: State, es: seq<Event>, k: Key)
    requires Runs(s, es) && k in s.newest
    ensures k in Final(s, es).newest && Final(s, es).newest[k] == LastStored(s.newest, es, k)
    decreases |es|
  {
    if es != [] {
      NewestIsLastStored(Step(s, es[0]), es[1..], k);
      LastStoredNext(s.newest, es[0], es[1..], k);
      assert es == [es[0]] + es[1..];
    }
  }

  /**
   Over every run from a fresh cache: no block is in two buffers, each refcnt is the number of holders, waiters and
   pins, a buffer is locked by at most one thread, and whoever holds a block after bread reads exactly what was last
   stored into that block, from whichever buffer and however often it was recycled in between.
   */
  lemma CacheIsBlockMap(s: State, es: seq<Event>, h: nat)
    requires Init(s) && Runs(s, es)
    ensures var t := Final(s, es);
      && OneEach(t.bufs) && |t.pins| == |t.bufs| && (forall b :: 0 <= b < |t.bufs| ==> Counted(t, b))
      && (Has(t, h, Holding) && t.bufs[t.uses[h].buf].valid ==>
            var b := t.bufs[t.uses[h].buf];
            KeyOf(b) in s.disk && b.data == LastStored(s.disk, es, KeyOf(b)))
      && (forall h' :: Has(t, h, Holding) && Has(t, h', Holding) && t.uses[h'].buf == t.uses[h].buf ==> h' == h)
  {
    InitInv(s);
    RunKeepsInv(s, es);
    KeysKept(s, es);
    var t := Final(s, es);
    if Has(t, h, Holding) && t.bufs[t.uses[h].buf].valid {
      var b := t.uses[h].buf;
      assert Real(t, b) && Current(t, b);
      NewestIsLastStored(s, es, KeyOf(t.bufs[b]));
    }
  }

  lemma {:induction false} KeysKept(s: State, es: seq<Event>)
    requires Inv(s) && Runs(s, es)
    ensures Final(s, es).disk.Keys == s.disk.Keys
    decreases |es|
  {
    if es != [] {
      StepKeepsInv(s, es[0]);
      KeysKept(Step(s, es[0]), es[1..]);
    }
  }

  /** Once no buffer is dirty, the disk itself holds what was last stored into every block. */
  lemma CleanDisk(s: State, es: seq<Event>, k: Key)
    requires Init(s) && Runs(s, es) && k in s.disk && Final(s, es).dirty == {}
    ensures k in Final(s, es).disk && Final(s, es).disk[k] == LastStored(s.disk, es, k)
  {
    InitInv(s);
    RunKeepsInv(s, es);
    KeysKept(s, es);
    NewestIsLastStored(s, es, k);
    assert k in Final(s, es).disk.Keys;
    assert OnDisk(Final(s, es), k);
  }

  // ----- The buffer cache takes the steps of the machine -----

  /** bget: a Get, if any is possible, and the panic otherwise. */
  method RunBget(c: Cache, ghost s: State, ghost h: nat, dev: nat, blockno: nat) returns (b: nat, ghost s': State)
    requires c.Valid() && Inv(s) && s.bufs == c.bufs && h !in s.uses && dev != 0 && Key(dev, blockno) in s.disk
    modifies c`bufs
    ensures c.Valid() && Inv(s') && s'.bufs == c.bufs
    ensures b == c.n <==> forall x :: !Enabled(s, Get(h, Key(dev, blockno), x))
    ensures b == c.n ==> s' == s
    ensures b != c.n ==> Enabled(s, Get(h, Key(dev, blockno), b)) && s' == Step(s, Get(h, Key(dev, blockno), b))
  {
    b := c.Bget(dev, blockno);
    s' := s;
    ghost var key := Key(dev, blockno);
    if b != c.n {
      assert Enabled(s, Get(h, key, b));
      StepKeepsInv(s, Get(h, key, b));
      s' := Step(s, Get(h, key, b));
    }
  }

  /** The second half of brelse: a Leave, which finds the reference that it gives up. */
  method RunUnref(c: Cache, ghost s: State, ghost h: nat, b: nat) returns (ghost s': State)
    requires c.Valid() && Inv(s) && s.bufs == c.bufs && Has(s, h, Leaving) && b == s.uses[h].buf
    modifies c
    ensures c.Valid() && Inv(s') && s'.bufs == c.bufs && s' == Step(s, Leave(h))
  {
    InUse(s, b);
    StepKeepsInv(s, Leave(h));
    c.Unref(b);
    s' := Step(s, Leave(h));
  }

  method RunBpin(c: Cache, ghost s: State, ghost h: nat, b: nat) returns (ghost s': State)
    requires c.Valid() && Inv(s) && s.bufs == c.bufs && Enabled(s, Pin(h)) && b == s.uses[h].buf
    modifies c`bufs
    ensures c.Valid() && Inv(s') && s'.bufs == c.bufs && s' == Step(s, Pin(h))
  {
    StepKeepsInv(s, Pin(h));
    c.Bpin(b);
    s' := Step(s, Pin(h));
  }

  method RunBunpin(c: Cache, ghost s: State, b: nat) returns (ghost s': State)
    requires c.Valid() && Inv(s) && s.bufs == c.bufs && Enabled(s, Unpin(b))
    modifies c`bufs
    ensures c.Valid() && Inv(s') && s'.bufs == c.bufs && s' == Step(s, Unpin(b))
  {
    StepKeepsInv(s, Unpin(b));
    InUse(s, b);
    c.Bunpin(b);
    s' := Step(s, Unpin(b));
  }
}
