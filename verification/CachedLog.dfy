/**
 The log on top of the buffer cache (kernel/log.c over kernel/bio.c), in every interleaving of clients, which
 read at any time and change blocks inside operations, with the one thread that commits.  The steps of
 log_write, write_log, write_head and install_trans are the steps of the cache that they take, in their order.

 Clients follow the use of log_write that log.c documents: whoever changes a buffer passes it to log_write before
 releasing it, inside an operation.  That changed buffers stay in the cache until they are written, and that the
 commit copies the newest contents, is proved.
 */
module CachedLog {
  import opened RedoLog
  import opened LogManager
  import opened BufferCache
  import Cache = CacheRuns

  const DEV: nat := 1

  function K(x: nat): Cache.Key { Cache.Key(DEV, x) }

  // ----- The committing thread -----

  /** The buffer it writes, and the one it copies from. */
  const TARGET: nat := 0
  const SOURCE: nat := 1

  /** write_log and install_trans at entry t, the two calls of write_head, and the return to end_op. */
  datatype Phase = Copying(t: nat) | Committing | Installing(t: nat) | Clearing | Finished

  /** The next step: bread of a first and a second buffer, the copy, bwrite, bunpin, and the two calls of brelse. */
  datatype Pos =
    | GetA | LockA | FillA | GetB | LockB | FillB | Copy | Flush | Unpin | UnlockS | LeaveS | UnlockT | LeaveT

  datatype Committer = Idle | At(phase: Phase, pos: Pos)

  predicate TwoBuffers(ph: Phase) { ph.Copying? || ph.Installing? }

  /** write_log gets the block it writes first, install_trans the block it copies. */
  function First(ph: Phase): nat { if ph.Installing? then SOURCE else TARGET }

  function Second(ph: Phase): nat { if ph.Installing? then TARGET else SOURCE }

  function NextPos(ph: Phase, pos: Pos): Pos {
    match pos
    case GetA => LockA
    case LockA => FillA
    case FillA => if TwoBuffers(ph) then GetB else Copy
    case GetB => LockB
    case LockB => FillB
    case FillB => Copy
    case Copy => Flush
    case Flush => if ph.Installing? then Unpin else if ph.Copying? then UnlockS else UnlockT
    case Unpin => UnlockS
    case UnlockS => LeaveS
    case LeaveS => UnlockT
    case UnlockT => LeaveT
    case LeaveT => LeaveT
  }

  function NextPhase(ph: Phase, n: nat): Phase {
    match ph
    case Copying(t) => if t + 1 < n then Copying(t + 1) else Committing
    case Committing => Installing(0)
    case Installing(t) => if t + 1 < n then Installing(t + 1) else Clearing
    case Clearing => Finished
    case Finished => Finished
  }

  // ----- States and steps -----

  datatype State = State(
    cache: Cache.State,
    lh: seq<nat>,
    /** The operations between begin_op and end_op. */
    ops: set<nat>,
    /** Calls of bread whose buffer was changed and not yet passed to log_write, and by which operation. */
    pending: map<nat, nat>,
    com: Committer,
    /** At the start of the commit under way: its entries, the disk, and the newest contents. */
    group: seq<nat>,
    disk0: Disk,
    view0: Disk)

  datatype Event =
    | Begin(o: nat)
    | End(o: nat)
    | Get(h: nat, x: nat, buf: nat)
    | Lock(h: nat)
    | Fill(h: nat)
    | Modify(h: nat, o: nat, data: Block)
    | LogWrite(h: nat, o: nat)
    | Unlock(h: nat)
    | Leave(h: nat)
    | Commit(buf: nat)

  datatype Option<T> = None | Some(value: T)

  function BufOf(s: Cache.State, h: nat): nat { if h in s.uses then s.uses[h].buf else 0 }

  function TheBuf(s: Cache.State, h: nat): Buf {
    if BufOf(s, h) < |s.bufs| then s.bufs[BufOf(s, h)] else Buf(0, 0, false, 0, [])
  }

  /** The block that a buffer of the committing thread is for. */
  function BlockFor(c: Config, ph: Phase, group: seq<nat>, h: nat): nat {
    match ph
    case Copying(t) => if h == TARGET || t >= |group| then c.start + 1 + t else group[t]
    case Installing(t) => if h == SOURCE || t >= |group| then c.start + 1 + t else group[t]
    case _ => c.start
  }

  /** What the committing thread stores into its target. */
  function StoreData(s: State, ph: Phase): Block {
    if TwoBuffers(ph) then TheBuf(s.cache, SOURCE).data
    else
      var old_ := TheBuf(s.cache, TARGET).data;
      if |s.lh| < |old_| then StoreHead(old_, s.lh) else old_
  }

  /** The step of the cache that the committing thread takes; bread of a valid buffer reads nothing. */
  function CommitEvent(c: Config, s: State, ph: Phase, pos: Pos, buf: nat): Option<Cache.Event> {
    var a, b := First(ph), Second(ph);
    match pos
    case GetA => Some(Cache.Get(a, K(BlockFor(c, ph, s.group, a)), buf))
    case LockA => Some(Cache.Lock(a))
    case FillA => if TheBuf(s.cache, a).valid then None else Some(Cache.Fill(a))
    case GetB => Some(Cache.Get(b, K(BlockFor(c, ph, s.group, b)), buf))
    case LockB => Some(Cache.Lock(b))
    case FillB => if TheBuf(s.cache, b).valid then None else Some(Cache.Fill(b))
    case Copy => Some(Cache.Modify(TARGET, K(BlockFor(c, ph, s.group, TARGET)), StoreData(s, ph)))
    case Flush => Some(Cache.Flush(TARGET))
    case Unpin => Some(Cache.Unpin(BufOf(s.cache, TARGET)))
    case UnlockS => Some(Cache.Unlock(SOURCE))
    case LeaveS => Some(Cache.Leave(SOURCE))
    case UnlockT => Some(Cache.Unlock(TARGET))
    case LeaveT => Some(Cache.Leave(TARGET))
  }

  function CacheEvent(c: Config, s: State, e: Event): Option<Cache.Event> {
    match e
    case Begin(_) => None
    case End(_) => None
    case Get(h, x, buf) => Some(Cache.Get(h, K(x), buf))
    case Lock(h) => Some(Cache.Lock(h))
    case Fill(h) => Some(Cache.Fill(h))
    case Modify(h, _, data) => Some(Cache.Modify(h, Cache.KeyOf(TheBuf(s.cache, h)), data))
    case LogWrite(h, _) => if TheBuf(s.cache, h).blockno in s.lh then None else Some(Cache.Pin(h))
    case Unlock(h) => Some(Cache.Unlock(h))
    case Leave(h) => Some(Cache.Leave(h))
    case Commit(buf) =>
      if s.com.Idle? || s.com.phase.Finished? then None else CommitEvent(c, s, s.com.phase, s.com.pos, buf)
  }

  /** The waiting that the code does: for a buffer to be available and for a sleep lock to be free. */
  ghost predicate Ready(s: Cache.State, ev: Cache.Event) {
    match ev
    case Get(_, key, b) => CanGrab(s.bufs, key.dev, key.blockno, b)
    case Lock(h) => !Cache.Locked(s, BufOf(s, h))
    case _ => true
  }

  predicate Holding(s: Cache.State, h: nat) { Cache.Has(s, h, Cache.Holding) }

  /** A client that has a valid home block locked. */
  predicate Reads(c: Config, s: State, h: nat) {
    && h > SOURCE && Holding(s.cache, h)
    && var b := TheBuf(s.cache, h); b.valid && b.dev == DEV && c.Home(b.blockno)
  }

  ghost predicate Enabled(c: Config, s: State, e: Event) {
    && (CacheEvent(c, s, e).Some? ==> Ready(s.cache, CacheEvent(c, s, e).value))
    && match e
       case Begin(o) => o !in s.ops && CanBegin(c, |s.lh|, |s.ops|, !s.com.Idle?)
       case End(o) => o in s.ops && forall h :: h in s.pending ==> s.pending[h] != o
       case Get(h, x, _) => h > SOURCE && h !in s.cache.uses && c.Home(x)
       case Lock(h) => h > SOURCE && Cache.Has(s.cache, h, Cache.Waiting)
       case Fill(h) => h > SOURCE && Holding(s.cache, h) && !TheBuf(s.cache, h).valid
       case Modify(h, o, data) => Reads(c, s, h) && o in s.ops && |data| == c.words
       case LogWrite(h, o) => Reads(c, s, h) && o in s.ops && |s.lh| < c.logBlocks
       case Unlock(h) => h > SOURCE && Holding(s.cache, h) && h !in s.pending
       case Leave(h) => h > SOURCE && Cache.Has(s.cache, h, Cache.Leaving)
       case Commit(_) => s.com.At?
  }

  /** Take a step of the cache, if its rules allow it: they always will. */
  ghost function Feed(s: Cache.State, ev: Option<Cache.Event>): Cache.State {
    if ev.Some? && Cache.Enabled(s, ev.value) then Cache.Step(s, ev.value) else s
  }

  /** A disk as the sequence of its blocks. */
  ghost function Blocks(c: Config, m: map<Cache.Key, Block>): Disk {
    seq(c.size, x requires 0 <= x < c.size => if K(x) in m then m[K(x)] else [])
  }

  /** end_op of the last operation starts a commit, which has nothing to do if nothing was logged. */
  ghost function Started(c: Config, s: State): State {
    s.(com := At(if s.lh == [] then Finished else Copying(0), GetA), group := s.lh,
       disk0 := Blocks(c, s.cache.disk), view0 := Blocks(c, s.cache.newest))
  }

  /** Where the thread is after its next step, when the commit is of n entries. */
  function ComNext(com: Committer, n: nat): Committer {
    if com.Idle? || com.phase.Finished? then Idle
    else if com.pos != LeaveT then At(com.phase, NextPos(com.phase, com.pos))
    else At(NextPhase(com.phase, n), GetA)
  }

  /** log.lh.n = 0, once the last block is installed. */
  function LhNext(com: Committer, lh: seq<nat>, n: nat): seq<nat> {
    if com.At? && com.pos == LeaveT && NextPhase(com.phase, n).Clearing? then [] else lh
  }

  ghost function Advanced(s: State): State {
    s.(com := ComNext(s.com, |s.group|), lh := LhNext(s.com, s.lh, |s.group|))
  }

  ghost function Step(c: Config, s: State, e: Event): State
    requires Enabled(c, s, e)
  {
    var s' := s.(cache := Feed(s.cache, CacheEvent(c, s, e)));
    match e
    case Begin(o) => s'.(ops := s.ops + {o})
    case End(o) => if s.ops - {o} == {} then Started(c, s'.(ops := {})) else s'.(ops := s.ops - {o})
    case Modify(h, o, _) => s'.(pending := s.pending[h := o])
    case LogWrite(h, _) => s'.(lh := Absorb(s.lh, TheBuf(s.cache, h).blockno), pending := s.pending - {h})
    case Commit(_) => Advanced(s')
    case _ => s'
  }

  ghost predicate Runs(c: Config, s: State, es: seq<Event>)
    decreases |es|
  {
    es == [] || (Enabled(c, s, es[0]) && Runs(c, Step(c, s, es[0]), es[1..]))
  }

  ghost function Final(c: Config, s: State, es: seq<Event>): State
    requires Runs(c, s, es)
    decreases |es|
  {
    if es == [] then s else Final(c, Step(c, s, es[0]), es[1..])
  }

  /** After recovery: an empty log, an empty cache and no operations. */
  ghost predicate Init(c: Config, s: State) {
    && Cache.Init(s.cache) && (forall x: nat :: x < c.size ==> K(x) in s.cache.disk)
    && WellFormed(c, Blocks(c, s.cache.disk)) && HeadEntries(c, Blocks(c, s.cache.disk)) == []
    && s.lh == [] && s.ops == {} && s.pending == map[] && s.com == Idle && s.group == []
  }

  // ----- The invariant -----

  /** How far the committing thread is with one of its buffers. */
  datatype Hand = Out | Waits | Locks | Has | Leaves

  function TargetHand(ph: Phase, pos: Pos): Hand {
    if ph.Finished? then Out
    else
      match pos
      case GetA => Out
      case LockA => if ph.Installing? then Out else Waits
      case FillA => if ph.Installing? then Out else Locks
      case GetB => if ph.Installing? then Out else Has
      case LockB => if ph.Installing? then Waits else Has
      case FillB => if ph.Installing? then Locks else Has
      case LeaveT => Leaves
      case _ => Has
  }

  function SourceHand(ph: Phase, pos: Pos): Hand {
    if !TwoBuffers(ph) then Out
    else
      match pos
      case GetA => Out
      case LockA => if ph.Installing? then Waits else Out
      case FillA => if ph.Installing? then Locks else Out
      case GetB => if ph.Installing? then Has else Out
      case LockB => if ph.Installing? then Has else Waits
      case FillB => if ph.Installing? then Has else Locks
      case LeaveS => Leaves
      case UnlockT => Out
      case LeaveT => Out
      case _ => Has
  }

  function HandOf(com: Committer, h: nat): Hand {
    if com.Idle? then Out else if h == TARGET then TargetHand(com.phase, com.pos) else SourceHand(com.phase, com.pos)
  }

  ghost predicate HandOk(cs: Cache.State, h: nat, hand: Hand, x: nat) {
    if hand.Out? then h !in cs.uses
    else
      && h in cs.uses && cs.uses[h].buf < |cs.bufs| && Cache.KeyOf(cs.bufs[cs.uses[h].buf]) == K(x)
      && cs.uses[h].stage == (if hand.Waits? then Cache.Waiting
        else if hand.Leaves? then Cache.Leaving else Cache.Holding)
      && (hand.Has? ==> cs.bufs[cs.uses[h].buf].valid)
  }

  function HandBlock(c: Config, com: Committer, group: seq<nat>, h: nat): nat {
    if com.Idle? then 0 else BlockFor(c, com.phase, group, h)
  }

  ghost predicate HandsOk(c: Config, s: State) {
    forall h :: 0 <= h <= SOURCE ==>
      HandOk(s.cache, h, HandOf(s.com, h), HandBlock(c, s.com, s.group, h))
  }

  /** The entries whose blocks may be newer in the cache than on disk. */
  function UnwrittenOf(com: Committer, lh: seq<nat>, group: seq<nat>): seq<nat> {
    if com.Idle? then lh
    else
      match com.phase
      case Copying(_) => group
      case Committing => group
      case Installing(t) =>
        var n := if AfterFlush(com.pos) then t + 1 else t;
        if n <= |group| then group[n..] else []
      case Clearing => []
      case Finished => []
  }

  /** The entries whose buffers are pinned. */
  function PinnedOf(com: Committer, lh: seq<nat>, group: seq<nat>): seq<nat> {
    if com.At? && com.phase.Installing? then
      var t := com.phase.t;
      var n := if AfterFlush(com.pos) && com.pos != Unpin then t + 1 else t;
      if n <= |group| then group[n..] else []
    else UnwrittenOf(com, lh, group)
  }

  function Unwritten(s: State): seq<nat> { UnwrittenOf(s.com, s.lh, s.group) }

  function Pinned(s: State): seq<nat> { PinnedOf(s.com, s.lh, s.group) }

  predicate AfterFlush(pos: Pos) {
    pos.Unpin? || pos.UnlockS? || pos.LeaveS? || pos.UnlockT? || pos.LeaveT?
  }

  predicate IsFor(cs: Cache.State, b: nat, list: seq<nat>)
    requires b < |cs.bufs|
  {
    cs.bufs[b].dev == DEV && cs.bufs[b].blockno in list
  }

  /** Exactly the buffers of the pinned entries are pinned, once each. */
  ghost predicate PinsOk(s: State) {
    && |s.cache.pins| == |s.cache.bufs|
    && (forall b :: 0 <= b < |s.cache.bufs| ==> PinOk(s.cache, b, Pinned(s)))
    && (forall x :: x in Pinned(s) ==> InCache(s.cache, x))
  }

  ghost predicate PinOk(cs: Cache.State, b: nat, pinned: seq<nat>)
    requires b < |cs.bufs| == |cs.pins|
  {
    cs.pins[b] == if IsFor(cs, b, pinned) then 1 else 0
  }

  ghost predicate InCache(cs: Cache.State, x: nat) {
    exists b :: 0 <= b < |cs.bufs| && Cache.KeyOf(cs.bufs[b]) == K(x)
  }

  /** Why a buffer may be dirty: it is logged, or its holder has yet to log it, or is the committing thread. */
  ghost predicate Covered(s: State, b: nat) {
    b < |s.cache.bufs| &&
    (IsFor(s.cache, b, Unwritten(s)) || Awaited(s, b)
     || (s.com.At? && s.com.pos.Flush? && HandOf(s.com, TARGET).Has? && BufOf(s.cache, TARGET) == b))
  }

  ghost predicate Awaited(s: State, b: nat) { exists h :: h in s.pending && BufOf(s.cache, h) == b }

  ghost predicate DirtyOk(s: State) { forall b :: b in s.cache.dirty ==> Covered(s, b) }

  ghost predicate ClientsOk(c: Config, s: State) {
    && (forall h :: h in s.pending ==> Reads(c, s, h) && s.pending[h] in s.ops)
    && (s.com.At? ==> s.ops == {})
  }

  ghost predicate LogOk(c: Config, s: State) {
    && c.Ok() && EntriesOk(c, s.lh) && EntriesOk(c, s.group)
    && (s.com.At? ==>
          match s.com.phase
          case Copying(t) => t < |s.group| && s.lh == s.group
          case Committing => s.group != [] && s.lh == s.group
          case Installing(t) => t < |s.group| && s.lh == s.group
          case Clearing => s.group != [] && s.lh == []
          case Finished => s.lh == [])
    && (s.com.At? ==> PosOk(s.com.phase, s.com.pos))
  }

  predicate PosOk(ph: Phase, pos: Pos) {
    && (ph.Finished? ==> pos.GetA?)
    && (pos.Unpin? ==> ph.Installing?)
    && (pos.GetB? || pos.LockB? || pos.FillB? || pos.UnlockS? || pos.LeaveS? ==> TwoBuffers(ph))
  }

  ghost predicate Rules(c: Config, s: State) {
    && Cache.Inv(s.cache) && (forall x: nat :: x < c.size ==> K(x) in s.cache.disk)
    && LogOk(c, s) && ClientsOk(c, s) && HandsOk(c, s) && PinsOk(s) && DirtyOk(s)
  }

  // ----- The rules of the cache are kept -----

  lemma HandAt(c: Config, s: State, h: nat)
    requires Rules(c, s) && s.com.At? && h <= SOURCE
    ensures HandOk(s.cache, h, HandOf(s.com, h), BlockFor(c, s.com.phase, s.group, h))
    ensures BlockFor(c, s.com.phase, s.group, h) < c.size
  {
  }

  /** While a commit runs, no client is about to log anything. */
  lemma NoneAwaited(c: Config, s: State)
    requires Rules(c, s) && s.com.At?
    ensures s.pending == map[]
  {
    assert forall h :: h !in s.pending;
  }

  /** A dirty buffer that someone unlocks is pinned. */
  lemma UnlockPinned(c: Config, s: State, h: nat)
    requires Rules(c, s) && Holding(s.cache, h) && h !in s.pending && BufOf(s.cache, h) in s.cache.dirty
    requires !(s.com.At? && s.com.pos.Flush? && HandOf(s.com, TARGET).Has?) || h > SOURCE
    ensures s.cache.pins[BufOf(s.cache, h)] > 0
  {
    var b := BufOf(s.cache, h);
    assert Covered(s, b);
    forall h' | h' in s.pending ensures BufOf(s.cache, h') != b {
      assert Reads(c, s, h');
    }
    if s.com.At? {
      HandAt(c, s, TARGET);
    }
    assert IsFor(s.cache, b, Unwritten(s));
    assert PinOk(s.cache, b, Pinned(s));
  }

  lemma ClientRules(c: Config, s: State, e: Event)
    requires Rules(c, s) && Enabled(c, s, e) && !e.Commit? && CacheEvent(c, s, e).Some?
    ensures Cache.Enabled(s.cache, CacheEvent(c, s, e).value)
  {
    if e.Unlock? && BufOf(s.cache, e.h) in s.cache.dirty {
      UnlockPinned(c, s, e.h);
    }
    if e.Fill? {
      assert Cache.Real(s.cache, s.cache.uses[e.h].buf);
    }
  }

  /** bunpin finds its buffer pinned and just written. */
  lemma UnpinRule(c: Config, s: State)
    requires Rules(c, s) && s.com.At? && s.com.pos.Unpin?
    ensures var b := BufOf(s.cache, TARGET); b < |s.cache.pins| && s.cache.pins[b] == 1 && b !in s.cache.dirty
  {
    HandAt(c, s, TARGET);
    NoneAwaited(c, s);
    var b, t := BufOf(s.cache, TARGET), s.com.phase.t;
    assert PinOk(s.cache, b, Pinned(s));
    assert s.group[t] in s.group[t..] && s.group[t] !in s.group[t + 1..];
    assert !Covered(s, b);
  }

  /** The thread unlocks only buffers that are clean or pinned. */
  lemma CommitUnlocks(c: Config, s: State, h: nat)
    requires Rules(c, s) && s.com.At? && !s.com.phase.Finished?
    requires (s.com.pos.UnlockS? && h == SOURCE) || (s.com.pos.UnlockT? && h == TARGET)
    ensures Cache.Enabled(s.cache, Cache.Unlock(h))
  {
    HandAt(c, s, h);
    NoneAwaited(c, s);
    if BufOf(s.cache, h) in s.cache.dirty {
      UnlockPinned(c, s, h);
    }
  }

  /** Getting, locking, reading, storing, writing and leaving need only what the thread has in its hands. */
  lemma HandRules(c: Config, s: State, buf: nat)
    requires s.com.At? && PosOk(s.com.phase, s.com.pos) && |s.cache.bufs| == |s.cache.pins|
    requires !s.com.pos.UnlockS? && !s.com.pos.UnlockT? && !s.com.pos.Unpin? && !s.com.phase.Finished?
    requires HandsOk(c, s) && forall h :: 0 <= h <= SOURCE ==> K(HandBlock(c, s.com, s.group, h)) in s.cache.disk
    requires var oe := CommitEvent(c, s, s.com.phase, s.com.pos, buf); oe.Some? ==> Ready(s.cache, oe.value)
    ensures var oe := CommitEvent(c, s, s.com.phase, s.com.pos, buf); oe.Some? ==> Cache.Enabled(s.cache, oe.value)
  {
    var a, b := First(s.com.phase), Second(s.com.phase);
    assert HandOk(s.cache, a, HandOf(s.com, a), HandBlock(c, s.com, s.group, a));
    assert HandOk(s.cache, b, HandOf(s.com, b), HandBlock(c, s.com, s.group, b));
  }

  lemma CommitRules(c: Config, s: State, e: Event)
    requires Rules(c, s) && Enabled(c, s, e) && e.Commit? && CacheEvent(c, s, e).Some?
    ensures Cache.Enabled(s.cache, CacheEvent(c, s, e).value)
  {
    if s.com.pos.UnlockS? {
      CommitUnlocks(c, s, SOURCE);
    } else if s.com.pos.UnlockT? {
      CommitUnlocks(c, s, TARGET);
    } else if s.com.pos.Unpin? {
      UnpinRule(c, s);
    } else {
      HandAt(c, s, TARGET);
      HandAt(c, s, SOURCE);
      HandRules(c, s, e.buf);
    }
  }

  lemma RulesKept(c: Config, s: State, e: Event)
    requires Rules(c, s) && Enabled(c, s, e) && CacheEvent(c, s, e).Some?
    ensures Cache.Enabled(s.cache, CacheEvent(c, s, e).value)
  {
    if e.Commit? {
      CommitRules(c, s, e);
    } else {
      ClientRules(c, s, e);
    }
  }

  // ----- What a step of the cache leaves alone -----

  /** A dirty buffer is in use. */
  lemma DirtyInUse(cs: Cache.State, b: nat)
    requires Cache.Inv(cs) && b in cs.dirty
    ensures b < |cs.bufs| && cs.bufs[b].refcnt > 0
  {
    Cache.InUse(cs, b);
    assert Cache.Locked(cs, b) ==> exists h :: h in cs.uses && cs.uses[h].buf == b;
  }

  lemma UseStays(cs: Cache.State, ev: Cache.Event, h: nat)
    requires Cache.Inv(cs) && Cache.Enabled(cs, ev) && h in cs.uses && (ev.Unpin? || ev.h != h)
    ensures var cs' := Cache.Step(cs, ev); var b := cs.uses[h].buf;
      && h in cs'.uses && cs'.uses[h] == cs.uses[h] && b < |cs.bufs| == |cs'.bufs|
      && Cache.KeyOf(cs'.bufs[b]) == Cache.KeyOf(cs.bufs[b]) && (cs.bufs[b].valid ==> cs'.bufs[b].valid)
  {
    var b := cs.uses[h].buf;
    Cache.InUse(cs, b);
    Cache.InUseStays(cs, ev, b);
  }

  /** A buffer whose block changes was unused, and no buffer had its new block. */
  lemma Recycled(cs: Cache.State, ev: Cache.Event, b: nat)
    requires Cache.Inv(cs) && Cache.Enabled(cs, ev) && b < |cs.bufs|
    requires Cache.KeyOf(Cache.Step(cs, ev).bufs[b]) != Cache.KeyOf(cs.bufs[b])
    ensures ev.Get? && cs.pins[b] == 0 && cs.bufs[b].refcnt == 0
    ensures forall j :: 0 <= j < |cs.bufs| ==> Cache.KeyOf(cs.bufs[j]) != Cache.KeyOf(Cache.Step(cs, ev).bufs[b])
  {
    if cs.bufs[b].refcnt > 0 {
      Cache.InUseStays(cs, ev, b);
    }
    Cache.InUse(cs, b);
  }

  /** A block that is pinned in the cache stays there. */
  lemma StaysInCache(cs: Cache.State, ev: Cache.Event, x: nat, pinned: seq<nat>)
    requires Cache.Inv(cs) && Cache.Enabled(cs, ev) && x in pinned && InCache(cs, x)
    requires |cs.pins| == |cs.bufs| && forall b :: 0 <= b < |cs.bufs| ==> PinOk(cs, b, pinned)
    ensures InCache(Cache.Step(cs, ev), x)
  {
    var b :| 0 <= b < |cs.bufs| && Cache.KeyOf(cs.bufs[b]) == K(x);
    assert PinOk(cs, b, pinned);
    Cache.InUse(cs, b);
    Cache.InUseStays(cs, ev, b);
  }

  /** Steps that pin and unpin nothing. */
  lemma PinsStay(cs: Cache.State, ev: Cache.Event, b: nat, pinned: seq<nat>)
    requires Cache.Inv(cs) && Cache.Enabled(cs, ev) && !ev.Pin? && !ev.Unpin? && b < |cs.bufs|
    requires |cs.pins| == |cs.bufs| && (forall j :: 0 <= j < |cs.bufs| ==> PinOk(cs, j, pinned))
    requires forall x :: x in pinned ==> InCache(cs, x)
    ensures var cs' := Cache.Step(cs, ev); |cs'.pins| == |cs'.bufs| == |cs.bufs| && PinOk(cs', b, pinned)
  {
    var cs' := Cache.Step(cs, ev);
    assert PinOk(cs, b, pinned);
    if Cache.KeyOf(cs'.bufs[b]) != Cache.KeyOf(cs.bufs[b]) {
      Recycled(cs, ev, b);
      assert cs'.bufs[b].dev == DEV ==> !InCache(cs, cs'.bufs[b].blockno);
    }
  }

  lemma KeysStay(c: Config, cs: Cache.State, ev: Cache.Event)
    requires Cache.Inv(cs) && Cache.Enabled(cs, ev) && forall x: nat :: x < c.size ==> K(x) in cs.disk
    ensures forall x: nat :: x < c.size ==> K(x) in Cache.Step(cs, ev).disk
  {
  }

  // ----- Clients -----

  lemma ClientHands(c: Config, s: State, e: Event)
    requires Rules(c, s) && Enabled(c, s, e) && !e.Commit? && !e.Begin? && !e.End?
    ensures HandsOk(c, Step(c, s, e))
  {
    var s', oe := Step(c, s, e), CacheEvent(c, s, e);
    if oe.Some? {
      RulesKept(c, s, e);
      forall h | 0 <= h <= SOURCE
        ensures HandOk(s'.cache, h, HandOf(s'.com, h), HandBlock(c, s'.com, s'.group, h))
      {
        if h in s.cache.uses {
          UseStays(s.cache, oe.value, h);
        }
      }
    }
  }

  /** A client that has a changed buffer keeps it while others act. */
  lemma ClientKeeps(c: Config, s: State, e: Event, h: nat)
    requires Rules(c, s) && Enabled(c, s, e) && !e.Commit? && !e.Begin? && !e.End?
    requires h in s.pending && h != e.h
    ensures Reads(c, Step(c, s, e), h)
  {
    var oe := CacheEvent(c, s, e);
    assert Reads(c, s, h) && Step(c, s, e).cache == Feed(s.cache, oe);
    if oe.Some? {
      RulesKept(c, s, e);
      UseStays(s.cache, oe.value, h);
    }
  }

  lemma ClientClients(c: Config, s: State, e: Event)
    requires Rules(c, s) && Enabled(c, s, e) && !e.Commit? && !e.Begin? && !e.End?
    ensures ClientsOk(c, Step(c, s, e))
  {
    var s' := Step(c, s, e);
    if CacheEvent(c, s, e).Some? {
      RulesKept(c, s, e);
    }
    forall h | h in s'.pending ensures Reads(c, s', h) && s'.pending[h] in s'.ops {
      if h != e.h {
        ClientKeeps(c, s, e, h);
      }
    }
  }

  lemma ClientPins(c: Config, s: State, e: Event)
    requires Rules(c, s) && Enabled(c, s, e) && !e.Commit? && !e.Begin? && !e.End? && !e.LogWrite?
    ensures PinsOk(Step(c, s, e))
  {
    var s', ev := Step(c, s, e), CacheEvent(c, s, e).value;
    RulesKept(c, s, e);
    assert Pinned(s') == Pinned(s);
    forall b | 0 <= b < |s'.cache.bufs| ensures PinOk(s'.cache, b, Pinned(s')) {
      PinsStay(s.cache, ev, b, Pinned(s));
    }
    forall x | x in Pinned(s') ensures InCache(s'.cache, x) {
      StaysInCache(s.cache, ev, x, Pinned(s));
    }
  }

  /** log_write pins the buffer it adds to the log, and only that one. */
  lemma LogWritePins(c: Config, s: State, e: Event)
    requires Rules(c, s) && Enabled(c, s, e) && e.LogWrite?
    ensures PinsOk(Step(c, s, e))
  {
    var s', b0 := Step(c, s, e), BufOf(s.cache, e.h);
    var x0 := s.cache.bufs[b0].blockno;
    assert s.com.Idle? && Pinned(s) == s.lh && Pinned(s') == s'.lh;
    if x0 !in s.lh {
      RulesKept(c, s, e);
      forall b | 0 <= b < |s'.cache.bufs| ensures PinOk(s'.cache, b, s'.lh) {
        assert PinOk(s.cache, b, s.lh);
        assert b != b0 ==> !Holds(s.cache.bufs[b], s.cache.bufs[b0].dev, s.cache.bufs[b0].blockno);
      }
      forall x | x in s'.lh ensures InCache(s'.cache, x) {
        if x == x0 {
          assert Cache.KeyOf(s'.cache.bufs[b0]) == K(x0);
        } else {
          StaysInCache(s.cache, Cache.Pin(e.h), x, s.lh);
        }
      }
    }
  }

  lemma ClientDirty(c: Config, s: State, e: Event)
    requires Rules(c, s) && Enabled(c, s, e) && !e.Commit? && !e.Begin? && !e.End?
    ensures DirtyOk(Step(c, s, e))
  {
    var s', oe := Step(c, s, e), CacheEvent(c, s, e);
    if oe.Some? {
      RulesKept(c, s, e);
    }
    forall b | b in s'.cache.dirty ensures Covered(s', b) {
      if b !in s.cache.dirty {
        assert e.Modify? && e.h in s'.pending && BufOf(s'.cache, e.h) == b;
      } else {
        ClientCovered(c, s, e, b);
      }
    }
  }

  lemma ClientCovered(c: Config, s: State, e: Event, b: nat)
    requires Rules(c, s) && Enabled(c, s, e) && !e.Commit? && !e.Begin? && !e.End? && b in s.cache.dirty
    ensures Covered(Step(c, s, e), b)
  {
    var s', oe := Step(c, s, e), CacheEvent(c, s, e);
    assert Covered(s, b);
    if oe.Some? {
      RulesKept(c, s, e);
      DirtyInUse(s.cache, b);
      Cache.InUseStays(s.cache, oe.value, b);
    }
    if s.com.At? {
      HandAt(c, s, TARGET);
      if oe.Some? && TARGET in s.cache.uses {
        UseStays(s.cache, oe.value, TARGET);
      }
    }
    if Awaited(s, b) {
      var h :| h in s.pending && BufOf(s.cache, h) == b;
      AwaitedStays(c, s, e, b, h);
    }
  }

  lemma AwaitedStays(c: Config, s: State, e: Event, b: nat, h: nat)
    requires Rules(c, s) && Enabled(c, s, e) && !e.Commit? && !e.Begin? && !e.End? && b in s.cache.dirty
    requires h in s.pending && BufOf(s.cache, h) == b
    ensures Covered(Step(c, s, e), b)
  {
    var s', oe := Step(c, s, e), CacheEvent(c, s, e);
    assert Reads(c, s, h) && s.com.Idle?;
    if oe.Some? {
      RulesKept(c, s, e);
      if h != e.h {
        UseStays(s.cache, oe.value, h);
      }
    }
    if e.LogWrite? && h == e.h {
      assert IsFor(s'.cache, b, s'.lh);
    } else {
      assert h in s'.pending && BufOf(s'.cache, h) == b;
    }
  }

  // ----- The committing thread -----

  /** The thread moves on, and the cache takes its step. */
  lemma CommitStep(c: Config, s: State, e: Event)
    requires Rules(c, s) && Enabled(c, s, e) && e.Commit?
    ensures Step(c, s, e) == Advanced(s).(cache := Feed(s.cache, CacheEvent(c, s, e)))
    ensures CacheEvent(c, s, e).Some? ==>
      Cache.Enabled(s.cache, CacheEvent(c, s, e).value)
      && Feed(s.cache, CacheEvent(c, s, e)) == Cache.Step(s.cache, CacheEvent(c, s, e).value)
    ensures CacheEvent(c, s, e).None? ==> Feed(s.cache, CacheEvent(c, s, e)) == s.cache
  {
    if CacheEvent(c, s, e).Some? {
      RulesKept(c, s, e);
    }
  }

  /** Whose turn it is. */
  function Actor(ph: Phase, pos: Pos): nat {
    match pos
    case GetA => First(ph)
    case LockA => First(ph)
    case FillA => First(ph)
    case GetB => Second(ph)
    case LockB => Second(ph)
    case FillB => Second(ph)
    case UnlockS => SOURCE
    case LeaveS => SOURCE
    case _ => TARGET
  }

  /** What the acting buffer goes through at each step; the other stays as it is. */
  predicate HandMoves(pos: Pos, hand: Hand, hand': Hand) {
    match pos
    case GetA => hand.Out? && hand'.Waits?
    case GetB => hand.Out? && hand'.Waits?
    case LockA => hand.Waits? && hand'.Locks?
    case LockB => hand.Waits? && hand'.Locks?
    case FillA => hand.Locks? && hand'.Has?
    case FillB => hand.Locks? && hand'.Has?
    case UnlockS => hand.Has? && hand'.Leaves?
    case UnlockT => hand.Has? && hand'.Leaves?
    case LeaveS => hand.Leaves? && hand'.Out?
    case LeaveT => hand.Leaves? && hand'.Out?
    case _ => hand.Has? && hand'.Has?
  }

  lemma HandsNext(c: Config, s: State, h: nat)
    requires LogOk(c, s) && s.com.At? && !s.com.phase.Finished? && h <= SOURCE
    ensures var hand, hand' := HandOf(s.com, h), HandOf(Advanced(s).com, h);
      if h == Actor(s.com.phase, s.com.pos) then HandMoves(s.com.pos, hand, hand') else hand' == hand
    ensures s.com.pos.LeaveT? ==> HandOf(Advanced(s).com, h).Out?
  {
  }

  lemma HandActs(cs: Cache.State, oe: Option<Cache.Event>, pos: Pos, h: nat, hand: Hand, hand': Hand, x: nat)
    requires Cache.Inv(cs) && HandOk(cs, h, hand, x) && HandMoves(pos, hand, hand')
    requires oe.Some? ==> Cache.Enabled(cs, oe.value)
    requires match pos
      case GetA => oe.Some? && oe.value.Get? && oe.value.h == h && oe.value.key == K(x)
      case GetB => oe.Some? && oe.value.Get? && oe.value.h == h && oe.value.key == K(x)
      case LockA => oe == Some(Cache.Lock(h))
      case LockB => oe == Some(Cache.Lock(h))
      case FillA => oe == if TheBuf(cs, h).valid then None else Some(Cache.Fill(h))
      case FillB => oe == if TheBuf(cs, h).valid then None else Some(Cache.Fill(h))
      case Copy => oe.Some? && oe.value.Modify? && oe.value.h == h
      case Flush => oe == Some(Cache.Flush(h))
      case Unpin => oe.Some? && oe.value.Unpin?
      case UnlockS => oe == Some(Cache.Unlock(h))
      case UnlockT => oe == Some(Cache.Unlock(h))
      case LeaveS => oe == Some(Cache.Leave(h))
      case LeaveT => oe == Some(Cache.Leave(h))
    ensures HandOk(Feed(cs, oe), h, hand', x)
  {
    if oe.Some? && h in cs.uses {
      Cache.InUse(cs, cs.uses[h].buf);
      Cache.InUseStays(cs, oe.value, cs.uses[h].buf);
    }
  }

  lemma CommitHand(c: Config, s: State, e: Event, h: nat)
    requires Rules(c, s) && Enabled(c, s, e) && e.Commit? && !s.com.phase.Finished? && h <= SOURCE
    ensures var com' := Advanced(s).com;
      HandOk(Feed(s.cache, CacheEvent(c, s, e)), h, HandOf(com', h), BlockFor(c, com'.phase, s.group, h))
  {
    var oe, com' := CacheEvent(c, s, e), Advanced(s).com;
    var x := BlockFor(c, s.com.phase, s.group, h);
    CommitStep(c, s, e);
    HandAt(c, s, h);
    HandsNext(c, s, h);
    if h == Actor(s.com.phase, s.com.pos) {
      HandActs(s.cache, oe, s.com.pos, h, HandOf(s.com, h), HandOf(com', h), x);
    } else if oe.Some? && h in s.cache.uses {
      UseStays(s.cache, oe.value, h);
    }
  }

  lemma CommitHands(c: Config, s: State, e: Event)
    requires Rules(c, s) && Enabled(c, s, e) && e.Commit?
    ensures HandsOk(c, Step(c, s, e))
  {
    var s' := Step(c, s, e);
    CommitStep(c, s, e);
    forall h | 0 <= h <= SOURCE
      ensures HandOk(s'.cache, h, HandOf(s'.com, h), HandBlock(c, s'.com, s'.group, h))
    {
      if s.com.phase.Finished? {
        HandAt(c, s, h);
      } else {
        CommitHand(c, s, e, h);
      }
    }
  }

  /** Steps that pin and unpin nothing, for all buffers at once. */
  lemma AllPinsStay(cs: Cache.State, oe: Option<Cache.Event>, pinned: seq<nat>)
    requires Cache.Inv(cs) && (oe.Some? ==> Cache.Enabled(cs, oe.value) && !oe.value.Pin? && !oe.value.Unpin?)
    requires |cs.pins| == |cs.bufs| && (forall j :: 0 <= j < |cs.bufs| ==> PinOk(cs, j, pinned))
    requires forall x :: x in pinned ==> InCache(cs, x)
    ensures var cs' := Feed(cs, oe);
      && |cs'.pins| == |cs'.bufs| && (forall j :: 0 <= j < |cs'.bufs| ==> PinOk(cs', j, pinned))
      && (forall x :: x in pinned ==> InCache(cs', x))
  {
    var cs' := Feed(cs, oe);
    if oe.Some? {
      forall b | 0 <= b < |cs.bufs| ensures |cs'.pins| == |cs'.bufs| == |cs.bufs| && PinOk(cs', b, pinned) {
        PinsStay(cs, oe.value, b, pinned);
      }
      forall x | x in pinned ensures InCache(cs', x) {
        StaysInCache(cs, oe.value, x, pinned);
      }
      assert |cs'.pins| == |cs.pins| && |cs'.bufs| == |cs.bufs|;
    }
  }

  lemma CommitPins(c: Config, s: State, e: Event)
    requires Rules(c, s) && Enabled(c, s, e) && e.Commit? && !s.com.pos.Unpin?
    ensures PinsOk(Step(c, s, e))
  {
    CommitStep(c, s, e);
    PinnedNext(c, s);
    NotPinning(c, s, e);
    var oe := CacheEvent(c, s, e);
    PinsCarry(s, Advanced(s).(cache := Feed(s.cache, oe)), oe);
  }

  lemma NotPinning(c: Config, s: State, e: Event)
    requires e.Commit? && s.com.At? && !s.com.pos.Unpin?
    ensures CacheEvent(c, s, e).Some? ==> !CacheEvent(c, s, e).value.Pin? && !CacheEvent(c, s, e).value.Unpin?
  {
  }

  lemma PinsCarry(s: State, s': State, oe: Option<Cache.Event>)
    requires Cache.Inv(s.cache) && (oe.Some? ==> Cache.Enabled(s.cache, oe.value) && !oe.value.Pin? && !oe.value.Unpin?)
    requires PinsOk(s) && s'.cache == Feed(s.cache, oe) && Pinned(s') == Pinned(s)
    ensures PinsOk(s')
  {
    AllPinsStay(s.cache, oe, Pinned(s));
  }

  /** Moving on changes neither list, except at the bwrite and the bunpin of an installed block. */
  lemma PinnedNext(c: Config, s: State)
    requires LogOk(c, s) && s.com.At?
    ensures var com', lh' := ComNext(s.com, |s.group|), LhNext(s.com, s.lh, |s.group|);
      && (!s.com.pos.Unpin? ==> PinnedOf(com', lh', s.group) == PinnedOf(s.com, s.lh, s.group))
      && (s.com.pos.Unpin? ==>
            && PinnedOf(s.com, s.lh, s.group) == s.group[s.com.phase.t..]
            && PinnedOf(com', lh', s.group) == s.group[s.com.phase.t + 1..])
  {
    assert s.group[0..] == s.group && s.group[|s.group|..] == [];
  }

  lemma UnwrittenNext(c: Config, s: State)
    requires LogOk(c, s) && s.com.At?
    ensures var com', lh' := ComNext(s.com, |s.group|), LhNext(s.com, s.lh, |s.group|);
      if s.com.pos.Flush? && s.com.phase.Installing? then
        && UnwrittenOf(s.com, s.lh, s.group) == s.group[s.com.phase.t..]
        && UnwrittenOf(com', lh', s.group) == s.group[s.com.phase.t + 1..]
      else UnwrittenOf(com', lh', s.group) == UnwrittenOf(s.com, s.lh, s.group)
  {
    assert s.group[0..] == s.group && s.group[|s.group|..] == [];
  }

  /** Entries differ, so the first of the rest is not among those after it. */
  lemma EntryOnce(c: Config, group: seq<nat>, t: nat, x: nat)
    requires EntriesOk(c, group) && t < |group|
    ensures x in group[t..] <==> x == group[t] || x in group[t + 1..]
    ensures group[t] !in group[t + 1..]
  {
    assert group[t..] == [group[t]] + group[t + 1..];
  }

  /** The buffer that is unpinned leaves the list, and no other buffer is for its block. */
  lemma UnpinOk(c: Config, s: State, b: nat)
    requires Rules(c, s) && s.com.At? && s.com.pos.Unpin? && b < |s.cache.bufs|
    ensures var b0, t := BufOf(s.cache, TARGET), s.com.phase.t;
      && Cache.Enabled(s.cache, Cache.Unpin(b0)) && t + 1 <= |s.group|
      && PinOk(Cache.Step(s.cache, Cache.Unpin(b0)), b, s.group[t + 1..])
  {
    var cs, b0, t := s.cache, BufOf(s.cache, TARGET), s.com.phase.t;
    UnpinRule(c, s);
    HandAt(c, s, TARGET);
    assert Pinned(s) == s.group[t..];
    assert PinOk(cs, b, s.group[t..]);
    EntryOnce(c, s.group, t, cs.bufs[b].blockno);
    assert b != b0 ==> !Holds(cs.bufs[b], cs.bufs[b0].dev, cs.bufs[b0].blockno);
  }

  lemma UnpinPins(c: Config, s: State, e: Event)
    requires Rules(c, s) && Enabled(c, s, e) && e.Commit? && s.com.pos.Unpin?
    ensures PinsOk(Step(c, s, e))
  {
    var cs, b0, t := s.cache, BufOf(s.cache, TARGET), s.com.phase.t;
    CommitStep(c, s, e);
    PinnedNext(c, s);
    UnpinOk(c, s, b0);
    var cs', pinned := Cache.Step(cs, Cache.Unpin(b0)), s.group[t + 1..];
    assert Pinned(s) == s.group[t..];
    forall b | 0 <= b < |cs'.bufs| ensures PinOk(cs', b, pinned) {
      UnpinOk(c, s, b);
    }
    forall x | x in pinned ensures InCache(cs', x) {
      EntryOnce(c, s.group, t, x);
      StaysInCache(cs, Cache.Unpin(b0), x, s.group[t..]);
    }
  }

  /** A dirty buffer stays with its block. */
  lemma DirtyStays(cs: Cache.State, oe: Option<Cache.Event>, b: nat)
    requires Cache.Inv(cs) && b in cs.dirty && (oe.Some? ==> Cache.Enabled(cs, oe.value))
    ensures b < |cs.bufs| && b < |Feed(cs, oe).bufs| && Cache.KeyOf(Feed(cs, oe).bufs[b]) == Cache.KeyOf(cs.bufs[b])
  {
    DirtyInUse(cs, b);
    if oe.Some? {
      Cache.InUseStays(cs, oe.value, b);
    }
  }

  /** What is dirty after the step is not what the step has written. */
  lemma NotFlushed(c: Config, s: State, e: Event, b: nat)
    requires Rules(c, s) && Enabled(c, s, e) && e.Commit? && b in Feed(s.cache, CacheEvent(c, s, e)).dirty
    ensures s.com.pos.Flush? && !s.com.phase.Finished? ==> BufOf(s.cache, TARGET) != b
  {
    CommitStep(c, s, e);
    HandAt(c, s, TARGET);
  }

  lemma CommitCovered(c: Config, s: State, e: Event, b: nat)
    requires Rules(c, s) && Enabled(c, s, e) && e.Commit? && b in s.cache.dirty
    requires b in Feed(s.cache, CacheEvent(c, s, e)).dirty
    ensures var s' := Advanced(s).(cache := Feed(s.cache, CacheEvent(c, s, e))); Covered(s', b)
  {
    CommitStep(c, s, e);
    NotFlushed(c, s, e, b);
    StillUnwritten(c, s, b);
    DirtyStays(s.cache, CacheEvent(c, s, e), b);
    CoverCarry(s, Advanced(s).(cache := Feed(s.cache, CacheEvent(c, s, e))), b);
  }

  /** During a commit, a dirty buffer that is not being written is of an entry still to be written. */
  lemma StillUnwritten(c: Config, s: State, b: nat)
    requires Rules(c, s) && s.com.At? && b in s.cache.dirty
    requires s.com.pos.Flush? && !s.com.phase.Finished? ==> BufOf(s.cache, TARGET) != b
    ensures b < |s.cache.bufs|
    ensures IsFor(s.cache, b, UnwrittenOf(ComNext(s.com, |s.group|), LhNext(s.com, s.lh, |s.group|), s.group))
  {
    assert Covered(s, b);
    NoneAwaited(c, s);
    UnwrittenNext(c, s);
    if s.com.pos.Flush? && s.com.phase.Installing? {
      HandAt(c, s, TARGET);
      EntryOnce(c, s.group, s.com.phase.t, s.cache.bufs[b].blockno);
      FlushedOnly(s.cache, BufOf(s.cache, TARGET), b);
    }
  }

  lemma CoverCarry(s: State, s': State, b: nat)
    requires b < |s.cache.bufs| && b < |s'.cache.bufs| && IsFor(s.cache, b, Unwritten(s'))
    requires Cache.KeyOf(s'.cache.bufs[b]) == Cache.KeyOf(s.cache.bufs[b])
    ensures Covered(s', b)
  {
  }

  /** Another buffer has another block. */
  lemma FlushedOnly(cs: Cache.State, b0: nat, b: nat)
    requires Cache.Inv(cs) && b < |cs.bufs| && b0 < |cs.bufs| && cs.bufs[b0].dev != 0 && b != b0
    ensures Cache.KeyOf(cs.bufs[b]) != Cache.KeyOf(cs.bufs[b0])
  {
    assert !Holds(cs.bufs[b], cs.bufs[b0].dev, cs.bufs[b0].blockno);
  }

  lemma CommitDirty(c: Config, s: State, e: Event)
    requires Rules(c, s) && Enabled(c, s, e) && e.Commit?
    ensures DirtyOk(Step(c, s, e))
  {
    var s' := Step(c, s, e);
    CommitStep(c, s, e);
    assert s'.cache == Feed(s.cache, CacheEvent(c, s, e));
    forall b | b in s'.cache.dirty ensures Covered(s', b) {
      if b in s.cache.dirty {
        CommitCovered(c, s, e, b);
      } else {
        CopyCovered(c, s, e, b);
      }
    }
  }

  /** Only the copy makes a buffer dirty: the one that is written next. */
  lemma CopyCovered(c: Config, s: State, e: Event, b: nat)
    requires Rules(c, s) && Enabled(c, s, e) && e.Commit? && b !in s.cache.dirty
    requires b in Feed(s.cache, CacheEvent(c, s, e)).dirty
    ensures var s' := Advanced(s).(cache := Feed(s.cache, CacheEvent(c, s, e))); Covered(s', b)
  {
    CommitStep(c, s, e);
    CopyOnly(s.cache, CacheEvent(c, s, e), b);
    CopyEvent(c, s, e);
  }

  lemma CopyEvent(c: Config, s: State, e: Event)
    requires e.Commit? && CacheEvent(c, s, e).Some? && CacheEvent(c, s, e).value.Modify?
    ensures s.com.At? && s.com.pos.Copy? && !s.com.phase.Finished? && CacheEvent(c, s, e).value.h == TARGET
    ensures ComNext(s.com, |s.group|) == At(s.com.phase, Flush)
  {
  }

  lemma CopyOnly(cs: Cache.State, oe: Option<Cache.Event>, b: nat)
    requires oe.Some? ==> Cache.Enabled(cs, oe.value)
    requires b !in cs.dirty && b in Feed(cs, oe).dirty
    ensures oe.Some? && oe.value.Modify? && b == BufOf(cs, oe.value.h) == BufOf(Feed(cs, oe), oe.value.h)
    ensures b < |Feed(cs, oe).bufs|
  {
  }

  // ----- Every step -----

  lemma BeginEndHands(c: Config, s: State, e: Event)
    requires Rules(c, s) && Enabled(c, s, e) && (e.Begin? || e.End?)
    ensures HandsOk(c, Step(c, s, e)) && s.com.Idle?
  {
    var s' := Step(c, s, e);
    assert s.com.Idle?;
    forall h | 0 <= h <= SOURCE
      ensures HandOk(s'.cache, h, HandOf(s'.com, h), HandBlock(c, s'.com, s'.group, h))
    {
      assert HandOk(s.cache, h, HandOf(s.com, h), HandBlock(c, s.com, s.group, h));
    }
  }

  lemma BeginEndRules(c: Config, s: State, e: Event)
    requires Rules(c, s) && Enabled(c, s, e) && (e.Begin? || e.End?)
    ensures Rules(c, Step(c, s, e))
  {
    var s' := Step(c, s, e);
    BeginEndHands(c, s, e);
    assert s'.cache == s.cache && Pinned(s') == Pinned(s) && Unwritten(s') == Unwritten(s);
    forall h | h in s'.pending ensures Reads(c, s', h) && s'.pending[h] in s'.ops {
      assert Reads(c, s, h);
      assert e.End? ==> s.pending[h] in s.ops - {e.o};
    }
    forall b | b in s'.cache.dirty ensures Covered(s', b) {
      assert Covered(s, b);
      if Awaited(s, b) {
        var h :| h in s.pending && BufOf(s.cache, h) == b;
        assert h in s'.pending && BufOf(s'.cache, h) == b;
      }
    }
  }

  lemma CacheKept(c: Config, s: State, e: Event)
    requires Rules(c, s) && Enabled(c, s, e)
    ensures var cs' := Step(c, s, e).cache; Cache.Inv(cs') && forall x: nat :: x < c.size ==> K(x) in cs'.disk
  {
    var oe := CacheEvent(c, s, e);
    assert Step(c, s, e).cache == Feed(s.cache, oe);
    if oe.Some? {
      RulesKept(c, s, e);
      Cache.StepKeepsInv(s.cache, oe.value);
      KeysStay(c, s.cache, oe.value);
    }
  }

  lemma CommitLog(c: Config, s: State, e: Event)
    requires Rules(c, s) && Enabled(c, s, e) && e.Commit?
    ensures LogOk(c, Step(c, s, e)) && ClientsOk(c, Step(c, s, e))
  {
    NoneAwaited(c, s);
  }

  lemma ClientLog(c: Config, s: State, e: Event)
    requires Rules(c, s) && Enabled(c, s, e) && !e.Commit? && !e.Begin? && !e.End?
    ensures LogOk(c, Step(c, s, e))
  {
  }

  lemma StepKeepsRules(c: Config, s: State, e: Event)
    requires Rules(c, s) && Enabled(c, s, e)
    ensures Rules(c, Step(c, s, e))
  {
    CacheKept(c, s, e);
    if e.Begin? || e.End? {
      BeginEndRules(c, s, e);
    } else if e.Commit? {
      CommitLog(c, s, e);
      CommitHands(c, s, e);
      CommitDirty(c, s, e);
      CommitStep(c, s, e);
      if s.com.pos.Unpin? {
        UnpinPins(c, s, e);
      } else {
        CommitPins(c, s, e);
      }
    } else {
      ClientLog(c, s, e);
      ClientHands(c, s, e);
      ClientClients(c, s, e);
      ClientDirty(c, s, e);
      if e.LogWrite? {
        LogWritePins(c, s, e);
      } else {
        ClientPins(c, s, e);
      }
    }
  }
}
