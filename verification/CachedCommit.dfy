/**
 What a commit through the buffer cache writes (kernel/log.c over kernel/bio.c): for every interleaving of clients with
 the committing thread, write_log copies the newest contents, the blocks reach the disk in the order that makes the
 commit atomic, and so a crash at any moment, with any number of crashes in recovery, loses or keeps whole groups.
 */
module CachedCommit {
  import opened RedoLog
  import opened LogManager
  import opened BufferCache
  import opened CachedLog
  import Cache = CacheRuns

  // ----- How far a commit of n entries is -----

  predicate AfterCopy(pos: Pos) { pos.Flush? || AfterFlush(pos) }

  /** Log blocks that hold their entry's contents, in the cache. */
  function Copied(com: Committer, n: nat): nat
    requires com.At?
  {
    match com.phase
    case Copying(t) => if AfterCopy(com.pos) then t + 1 else t
    case _ => n
  }

  /** Block writes that have reached the disk. */
  function Written(com: Committer, n: nat): nat
    requires com.At?
  {
    var one := if AfterFlush(com.pos) then 1 else 0;
    match com.phase
    case Copying(t) => t + one
    case Committing => n + one
    case Installing(t) => n + 1 + t + one
    case Clearing => 2 * n + 1 + one
    case Finished => if n == 0 then 0 else 2 * n + 2
  }

  /** The header block in the cache, which held h0 at the start. */
  function Header(com: Committer, h0: Block, group: seq<nat>): Block
    requires com.At? && |group| < |h0|
  {
    var full := StoreHead(h0, group);
    match com.phase
    case Copying(_) => h0
    case Committing => if AfterCopy(com.pos) then full else h0
    case Installing(_) => full
    case Clearing => if AfterCopy(com.pos) then StoreHead(full, []) else full
    case Finished => if group == [] then h0 else StoreHead(full, [])
  }

  // ----- The invariant -----

  /** Every block of the newest contents has the size of a block. */
  ghost predicate Sized(c: Config, cs: Cache.State) {
    forall x: nat :: x < c.size ==> K(x) in cs.newest && |cs.newest[K(x)]| == c.words
  }

  /** The newest contents while a commit runs: the home blocks as they were, and what the thread has stored. */
  ghost predicate NewestOk(c: Config, s: State)
    requires s.com.At? && Shaped(c, s.view0) && c.Ok() && EntriesOk(c, s.group) && Sized(c, s.cache)
  {
    && (forall x: nat :: c.Home(x) ==> s.cache.newest[K(x)] == s.view0[x])
    && (forall i: nat :: i < |s.group| && i < Copied(s.com, |s.group|) ==> SlotHolds(c, s, i))
    && s.cache.newest[K(c.start)] == Header(s.com, s.view0[c.start], s.group)
  }

  ghost predicate SlotHolds(c: Config, s: State, i: nat)
    requires i < |s.group| && Shaped(c, s.view0) && c.Ok() && EntriesOk(c, s.group) && Sized(c, s.cache)
  {
    s.cache.newest[K(c.start + 1 + i)] == s.view0[s.group[i]]
  }

  ghost predicate DiskOk(c: Config, s: State)
    requires s.com.At? && Shaped(c, s.view0) && c.Ok() && EntriesOk(c, s.group)
  {
    && Written(s.com, |s.group|) <= |CommitWrites(c, s.view0, s.group)|
    && Blocks(c, s.cache.disk) == Apply(s.disk0, CommitWrites(c, s.view0, s.group)[..Written(s.com, |s.group|)])
  }

  ghost predicate Data(c: Config, s: State) {
    && c.Ok() && Sized(c, s.cache)
    && if s.com.Idle? then
         WellFormed(c, Blocks(c, s.cache.disk)) && HeadEntries(c, Blocks(c, s.cache.disk)) == []
       else
         ReadyToCommit(c, s.disk0, s.view0, s.group) && NewestOk(c, s) && DiskOk(c, s)
  }

  ghost predicate Inv(c: Config, s: State) { Rules(c, s) && Data(c, s) }

  /** The thread is at work on a commit of n entries. */
  predicate Live(com: Committer, n: nat) {
    && com.At? && PosOk(com.phase, com.pos)
    && match com.phase
       case Copying(t) => t < n
       case Installing(t) => t < n
       case Finished => false
       case _ => n > 0
  }

  /** The block that the thread writes, and what it holds once the copy is made. */
  function Target(c: Config, s: State): nat
    requires s.com.At?
  {
    BlockFor(c, s.com.phase, s.group, TARGET)
  }

  ghost function TargetData(c: Config, s: State): Block
    requires Live(s.com, |s.group|) && Shaped(c, s.view0) && c.Ok() && EntriesOk(c, s.group)
  {
    match s.com.phase
    case Copying(t) => s.view0[s.group[t]]
    case Installing(t) => s.view0[s.group[t]]
    case Committing => StoreHead(s.view0[c.start], s.group)
    case Clearing => StoreHead(StoreHead(s.view0[c.start], s.group), [])
  }

  /** What holds of the phase while the thread has work to do. */
  lemma PhaseOk(c: Config, s: State)
    requires Inv(c, s) && s.com.At? && !s.com.phase.Finished?
    ensures Live(s.com, |s.group|) && |s.group| < |s.view0[c.start]|
  {
  }

  // ----- What the buffers hold -----

  /** A buffer that the committing thread has read holds the newest contents of its block. */
  lemma HandHasNewest(c: Config, s: State, h: nat)
    requires Inv(c, s) && s.com.At? && h <= SOURCE && HandOf(s.com, h).Has?
    ensures var x := BlockFor(c, s.com.phase, s.group, h);
      x < c.size && K(x) in s.cache.newest && TheBuf(s.cache, h).data == s.cache.newest[K(x)]
  {
    HandAt(c, s, h);
    var b := s.cache.uses[h].buf;
    assert Cache.Current(s.cache, b) && Cache.Real(s.cache, b);
  }

  /** What the blocks that the thread copies from hold, in the newest contents. */
  lemma SourceNewest(c: Config, s: State)
    requires Data(c, s) && Live(s.com, |s.group|) && s.com.pos.Copy?
    ensures TwoBuffers(s.com.phase) ==>
      var x := BlockFor(c, s.com.phase, s.group, SOURCE);
      x < c.size && s.cache.newest[K(x)] == TargetData(c, s)
    ensures s.com.phase.Committing? ==> s.cache.newest[K(c.start)] == s.view0[c.start]
    ensures s.com.phase.Clearing? ==> s.cache.newest[K(c.start)] == StoreHead(s.view0[c.start], s.group)
  {
    if s.com.phase.Installing? {
      assert SlotHolds(c, s, s.com.phase.t);
    }
  }

  /** What the thread stores at each copy. */
  lemma CopyData(c: Config, s: State)
    requires Inv(c, s) && s.com.At? && s.com.pos.Copy? && !s.com.phase.Finished?
    ensures Live(s.com, |s.group|) && StoreData(s, s.com.phase) == TargetData(c, s)
  {
    PhaseOk(c, s);
    SourceNewest(c, s);
    if TwoBuffers(s.com.phase) {
      HandHasNewest(c, s, SOURCE);
    } else {
      HandHasNewest(c, s, TARGET);
      HeaderEntries(c, s);
    }
  }

  /** write_head stores the entries of the group, and then none. */
  lemma HeaderEntries(c: Config, s: State)
    requires Rules(c, s) && s.com.At? && !s.com.phase.Finished? && !TwoBuffers(s.com.phase)
    ensures s.lh == if s.com.phase.Committing? then s.group else []
  {
  }

  // ----- The newest contents -----

  /** Steps that store nothing leave the newest contents alone. */
  lemma NewestStays(cs: Cache.State, oe: Option<Cache.Event>)
    requires oe.Some? ==> !oe.value.Modify?
    ensures Feed(cs, oe).newest == cs.newest
  {
  }

  lemma DiskStays(cs: Cache.State, oe: Option<Cache.Event>)
    requires oe.Some? ==> !oe.value.Flush?
    ensures Feed(cs, oe).disk == cs.disk
  {
  }

  /** Moving on without a copy changes nothing that NewestOk speaks of. */
  lemma SameStage(com: Committer, n: nat, h0: Block, group: seq<nat>)
    requires Live(com, n) && !com.pos.Copy? && n == |group| < |h0|
    ensures var com' := ComNext(com, n);
      com'.At? && Copied(com', n) == Copied(com, n) && Header(com', h0, group) == Header(com, h0, group)
  {
  }

  lemma SameWritten(com: Committer, n: nat)
    requires Live(com, n) && !com.pos.Flush?
    ensures ComNext(com, n).At? && Written(ComNext(com, n), n) == Written(com, n)
  {
  }

  /** At a copy: one more log block, or a new header, or what was there already. */
  lemma NextStage(com: Committer, n: nat, h0: Block, group: seq<nat>)
    requires com.At? && com.pos.Copy? && !com.phase.Finished? && n == |group| < |h0|
    ensures var com' := ComNext(com, n);
      && com' == At(com.phase, Flush)
      && (com.phase.Copying? ==> Copied(com', n) == com.phase.t + 1 && Copied(com, n) == com.phase.t)
      && (!com.phase.Copying? ==> Copied(com', n) == Copied(com, n) == n)
      && (com.phase.Committing? ==> Header(com', h0, group) == StoreHead(h0, group))
      && (com.phase.Clearing? ==> Header(com', h0, group) == StoreHead(StoreHead(h0, group), []))
      && (TwoBuffers(com.phase) ==> Header(com', h0, group) == Header(com, h0, group))
  {
  }

  lemma NextWritten(com: Committer, n: nat)
    requires com.At? && com.pos.Flush? && !com.phase.Finished?
    ensures var com' := ComNext(com, n);
      com'.At? && com'.phase == com.phase && Written(com', n) == Written(com, n) + 1
  {
  }

  // ----- Steps -----

  /** Sizes, for any step: a client stores a block's worth, and so does the thread. */
  lemma SizedStays(c: Config, cs: Cache.State, oe: Option<Cache.Event>)
    requires Sized(c, cs) && (oe.Some? && oe.value.Modify? ==> |oe.value.data| == c.words)
    ensures Sized(c, Feed(cs, oe))
  {
  }

  /** Clients outside a commit: the disk does not change. */
  lemma IdleClient(c: Config, s: State, e: Event)
    requires Inv(c, s) && Enabled(c, s, e) && s.com.Idle? && Step(c, s, e).com.Idle?
    ensures Data(c, Step(c, s, e))
  {
    var oe := CacheEvent(c, s, e);
    assert Step(c, s, e).cache == Feed(s.cache, oe);
    DiskStays(s.cache, oe);
    SizedStays(c, s.cache, oe);
  }

  /** Clients while a commit runs: they change nothing. */
  lemma BusyClient(c: Config, s: State, e: Event)
    requires Inv(c, s) && Enabled(c, s, e) && s.com.At? && !e.Commit?
    ensures Data(c, Step(c, s, e))
  {
    var oe, s' := CacheEvent(c, s, e), Step(c, s, e);
    assert s'.cache == Feed(s.cache, oe) && s'.com == s.com && s'.group == s.group;
    assert s'.disk0 == s.disk0 && s'.view0 == s.view0;
    DiskStays(s.cache, oe);
    NewestStays(s.cache, oe);
    SameData(c, s, s');
  }

  /** The data part depends on the newest contents, the disk, and where the thread is. */
  lemma SameData(c: Config, s: State, s': State)
    requires Data(c, s) && s.com.At? && s'.com.At? && s'.group == s.group
    requires s'.disk0 == s.disk0 && s'.view0 == s.view0
    requires s'.cache.newest == s.cache.newest && s'.cache.disk == s.cache.disk
    requires Copied(s'.com, |s.group|) == Copied(s.com, |s.group|)
    requires Written(s'.com, |s.group|) == Written(s.com, |s.group|)
    requires |s.group| < |s.view0[c.start]|
    requires Header(s'.com, s.view0[c.start], s.group) == Header(s.com, s.view0[c.start], s.group)
    ensures Data(c, s')
  {
    forall i: nat | i < |s'.group| && i < Copied(s'.com, |s'.group|) ensures SlotHolds(c, s', i) {
      assert SlotHolds(c, s, i);
    }
  }

  /** With no operation under way, a block that is not logged is the same on disk and in the cache. */
  lemma CleanBlock(c: Config, s: State, x: nat)
    requires Inv(c, s) && s.com.Idle? && s.pending == map[] && x < c.size && x !in s.lh
    ensures K(x) in s.cache.newest && s.cache.disk[K(x)] == s.cache.newest[K(x)]
  {
    assert Cache.OnDisk(s.cache, K(x));
    forall b | b in s.cache.dirty ensures b < |s.cache.bufs| && Cache.KeyOf(s.cache.bufs[b]) != K(x) {
      assert Covered(s, b);
    }
  }

  lemma NonePending(c: Config, s: State, e: Event)
    requires Rules(c, s) && Enabled(c, s, e) && e.End? && s.ops - {e.o} == {}
    ensures s.pending == map[]
  {
    assert s.pending.Values <= s.ops - {e.o};
  }

  /** At the start of a commit the newest contents and the disk differ in the logged blocks only. */
  lemma StartReady(c: Config, s: State)
    requires Inv(c, s) && s.com.Idle? && s.pending == map[]
    ensures ReadyToCommit(c, Blocks(c, s.cache.disk), Blocks(c, s.cache.newest), s.lh)
  {
    var d, v := Blocks(c, s.cache.disk), Blocks(c, s.cache.newest);
    forall x: nat | x < c.size && x !in s.lh ensures v[x] == d[x] {
      CleanBlock(c, s, x);
    }
    assert Shaped(c, v);
  }

  /** Nothing is copied or written yet. */
  lemma StartData(c: Config, s: State)
    requires c.Ok() && Sized(c, s.cache) && EntriesOk(c, s.lh)
    requires ReadyToCommit(c, Blocks(c, s.cache.disk), Blocks(c, s.cache.newest), s.lh)
    ensures Data(c, Started(c, s))
  {
    assert CommitWrites(c, Blocks(c, s.cache.newest), s.lh)[..0] == [];
  }

  lemma Starts(c: Config, s: State, e: Event)
    requires Inv(c, s) && Enabled(c, s, e) && s.com.Idle? && Step(c, s, e).com.At?
    ensures Data(c, Step(c, s, e))
  {
    assert e.End? && s.ops - {e.o} == {};
    NonePending(c, s, e);
    StartReady(c, s);
    StartData(c, s.(ops := {}));
  }

  lemma PlainStep(c: Config, s: State, e: Event)
    requires Inv(c, s) && Enabled(c, s, e) && e.Commit?
    requires !s.com.phase.Finished? && !s.com.pos.Copy? && !s.com.pos.Flush?
    ensures Data(c, Step(c, s, e))
  {
    CommitStep(c, s, e);
    PhaseOk(c, s);
    var oe, s' := CacheEvent(c, s, e), Step(c, s, e);
    PlainEvent(c, s, e);
    DiskStays(s.cache, oe);
    NewestStays(s.cache, oe);
    SameStage(s.com, |s.group|, s.view0[c.start], s.group);
    SameWritten(s.com, |s.group|);
    SameData(c, s, s');
  }

  lemma PlainEvent(c: Config, s: State, e: Event)
    requires e.Commit? && s.com.At? && !s.com.pos.Copy? && !s.com.pos.Flush?
    ensures CacheEvent(c, s, e).Some? ==> !CacheEvent(c, s, e).value.Modify? && !CacheEvent(c, s, e).value.Flush?
  {
  }

  /** The target is a log block, or the header, or a home block that gets what it holds. */
  lemma TargetPlace(c: Config, s: State)
    requires Data(c, s) && Live(s.com, |s.group|)
    ensures match s.com.phase
      case Copying(t) => Target(c, s) == c.start + 1 + t
      case Installing(t) => Target(c, s) == s.group[t] && c.Home(s.group[t])
      case _ => Target(c, s) == c.start
    ensures |TargetData(c, s)| == c.words
  {
  }

  lemma CopyHome(c: Config, s: State, cs': Cache.State)
    requires Data(c, s) && Live(s.com, |s.group|)
    requires cs'.newest == s.cache.newest[K(Target(c, s)) := TargetData(c, s)]
    ensures Sized(c, cs') && forall x: nat :: c.Home(x) ==> cs'.newest[K(x)] == s.view0[x]
  {
    TargetPlace(c, s);
  }

  lemma CopySlots(c: Config, s: State, s': State)
    requires Data(c, s) && Live(s.com, |s.group|) && s.com.pos.Copy? && Sized(c, s'.cache)
    requires s'.com == At(s.com.phase, Flush) && s'.group == s.group && s'.view0 == s.view0
    requires s'.cache.newest == s.cache.newest[K(Target(c, s)) := TargetData(c, s)]
    ensures forall i: nat :: i < |s'.group| && i < Copied(s'.com, |s'.group|) ==> SlotHolds(c, s', i)
  {
    TargetPlace(c, s);
    forall i: nat | i < |s'.group| && i < Copied(s'.com, |s'.group|) ensures SlotHolds(c, s', i) {
      assert i < Copied(s.com, |s.group|) ==> SlotHolds(c, s, i);
    }
  }

  /** The copy: the target's newest contents are what they should be, and nothing else changes. */
  lemma CopyNewest(c: Config, s: State, s': State)
    requires Data(c, s) && Live(s.com, |s.group|) && s.com.pos.Copy?
    requires s'.com == At(s.com.phase, Flush) && s'.group == s.group && s'.view0 == s.view0
    requires s'.cache.newest == s.cache.newest[K(Target(c, s)) := TargetData(c, s)]
    ensures Sized(c, s'.cache) && NewestOk(c, s')
  {
    TargetPlace(c, s);
    CopyHome(c, s, s'.cache);
    CopySlots(c, s, s');
    NextStage(s.com, |s.group|, s.view0[c.start], s.group);
  }

  /** What the copy does to the cache machine. */
  lemma CopyEffect(c: Config, s: State, e: Event)
    requires Inv(c, s) && Enabled(c, s, e) && e.Commit? && !s.com.phase.Finished? && s.com.pos.Copy?
    ensures Live(s.com, |s.group|)
    ensures var cs, cs' := s.cache, Step(c, s, e).cache;
      cs'.newest == cs.newest[K(Target(c, s)) := TargetData(c, s)] && cs'.disk == cs.disk
  {
    PhaseOk(c, s);
    CopyData(c, s);
    var oe := CacheEvent(c, s, e);
    assert oe == Some(Cache.Modify(TARGET, K(Target(c, s)), TargetData(c, s)));
    RulesKept(c, s, e);
    assert Step(c, s, e).cache == Cache.Step(s.cache, oe.value);
  }

  lemma CopyStep(c: Config, s: State, e: Event)
    requires Inv(c, s) && Enabled(c, s, e) && e.Commit? && !s.com.phase.Finished? && s.com.pos.Copy?
    ensures Data(c, Step(c, s, e))
  {
    CommitStep(c, s, e);
    CopyEffect(c, s, e);
    PhaseOk(c, s);
    NextStage(s.com, |s.group|, s.view0[c.start], s.group);
    SameWritten(s.com, |s.group|);
    CopyNewest(c, s, Step(c, s, e));
  }

  /** What the target holds when it is written. */
  lemma TargetNewest(c: Config, s: State)
    requires Data(c, s) && Live(s.com, |s.group|) && s.com.pos.Flush?
    ensures Target(c, s) < c.size && s.cache.newest[K(Target(c, s))] == TargetData(c, s)
  {
    TargetPlace(c, s);
    if s.com.phase.Copying? {
      assert SlotHolds(c, s, s.com.phase.t);
    }
  }

  lemma TargetBuf(c: Config, s: State)
    requires Inv(c, s) && s.com.At? && s.com.pos.Flush? && !s.com.phase.Finished?
    ensures Target(c, s) < c.size && K(Target(c, s)) in s.cache.newest
    ensures TheBuf(s.cache, TARGET).data == s.cache.newest[K(Target(c, s))]
  {
    HandHasNewest(c, s, TARGET);
  }

  lemma FlushData(c: Config, s: State)
    requires Inv(c, s) && s.com.At? && s.com.pos.Flush? && !s.com.phase.Finished?
    ensures Live(s.com, |s.group|) && TheBuf(s.cache, TARGET).data == TargetData(c, s)
  {
    PhaseOk(c, s);
    TargetNewest(c, s);
    TargetBuf(c, s);
  }

  lemma BlocksPut(c: Config, m: map<Cache.Key, Block>, x: nat, data: Block)
    requires x < c.size
    ensures Blocks(c, m[K(x) := data]) == Blocks(c, m)[x := data]
  {
  }

  /** It is the next write of the commit. */
  lemma NextWrite(c: Config, s: State)
    requires c.Ok() && Shaped(c, s.view0) && EntriesOk(c, s.group) && Live(s.com, |s.group|) && s.com.pos.Flush?
    ensures var ws, k := CommitWrites(c, s.view0, s.group), Written(s.com, |s.group|);
      k < |ws| && Target(c, s) < c.size && ws[k] == Write(Target(c, s), TargetData(c, s))
  {
    var logs, n := LogWrites(c, s.view0, s.group), |s.group|;
    assert s.group != [] && |logs| == n;
    if s.com.phase.Copying? {
      assert logs[s.com.phase.t] == Write(Target(c, s), TargetData(c, s));
    }
  }

  lemma FlushDisk(c: Config, s: State, s': State)
    requires Data(c, s) && Live(s.com, |s.group|) && s.com.pos.Flush?
    requires s'.com.At? && Written(s'.com, |s.group|) == Written(s.com, |s.group|) + 1
    requires s'.group == s.group && s'.view0 == s.view0 && s'.disk0 == s.disk0
    requires s'.cache.disk == s.cache.disk[K(Target(c, s)) := TargetData(c, s)]
    ensures DiskOk(c, s')
  {
    NextWrite(c, s);
    BlocksPut(c, s.cache.disk, Target(c, s), TargetData(c, s));
    ApplyNext(s.disk0, CommitWrites(c, s.view0, s.group), Written(s.com, |s.group|));
  }

  /** What a flush does to the cache machine. */
  lemma FlushEffect(c: Config, s: State, e: Event)
    requires Inv(c, s) && Enabled(c, s, e) && e.Commit? && !s.com.phase.Finished? && s.com.pos.Flush?
    ensures Live(s.com, |s.group|)
    ensures var cs, cs' := s.cache, Step(c, s, e).cache;
      cs'.newest == cs.newest && cs'.disk == cs.disk[K(Target(c, s)) := TargetData(c, s)]
  {
    FlushData(c, s);
    HandAt(c, s, TARGET);
    RulesKept(c, s, e);
    FlushPut(s.cache, TARGET);
    assert CacheEvent(c, s, e) == Some(Cache.Flush(TARGET));
  }

  lemma FlushPut(cs: Cache.State, h: nat)
    requires Cache.Enabled(cs, Cache.Flush(h))
    ensures var cs' := Cache.Step(cs, Cache.Flush(h));
      cs'.newest == cs.newest && cs'.disk == cs.disk[Cache.KeyOf(TheBuf(cs, h)) := TheBuf(cs, h).data]
  {
  }

  lemma FlushStep(c: Config, s: State, e: Event)
    requires Inv(c, s) && Enabled(c, s, e) && e.Commit? && !s.com.phase.Finished? && s.com.pos.Flush?
    ensures Data(c, Step(c, s, e))
  {
    CommitStep(c, s, e);
    PhaseOk(c, s);
    FlushEffect(c, s, e);
    NextWritten(s.com, |s.group|);
    FlushDisk(c, s, Step(c, s, e));
    SameStage(s.com, |s.group|, s.view0[c.start], s.group);
    SameNewest(c, s, Step(c, s, e));
  }

  lemma SameNewest(c: Config, s: State, s': State)
    requires Data(c, s) && s.com.At? && s'.com.At? && s'.group == s.group && s'.view0 == s.view0
    requires s'.cache.newest == s.cache.newest && Copied(s'.com, |s.group|) == Copied(s.com, |s.group|)
    requires |s.group| < |s.view0[c.start]|
    requires Header(s'.com, s.view0[c.start], s.group) == Header(s.com, s.view0[c.start], s.group)
    ensures Sized(c, s'.cache) && NewestOk(c, s')
  {
    forall i: nat | i < |s'.group| && i < Copied(s'.com, |s'.group|) ensures SlotHolds(c, s', i) {
      assert SlotHolds(c, s, i);
    }
  }

  lemma FinishStep(c: Config, s: State, e: Event)
    requires Inv(c, s) && Enabled(c, s, e) && e.Commit? && s.com.phase.Finished?
    ensures Data(c, Step(c, s, e))
  {
    CommitStep(c, s, e);
    var ws := CommitWrites(c, s.view0, s.group);
    assert ws[..|ws|] == ws;
    CommitCompletes(c, s.disk0, s.view0, s.group);
  }

  lemma StepKeepsData(c: Config, s: State, e: Event)
    requires Inv(c, s) && Enabled(c, s, e)
    ensures Data(c, Step(c, s, e))
  {
    if e.Commit? {
      if s.com.phase.Finished? {
        FinishStep(c, s, e);
      } else if s.com.pos.Copy? {
        CopyStep(c, s, e);
      } else if s.com.pos.Flush? {
        FlushStep(c, s, e);
      } else {
        PlainStep(c, s, e);
      }
    } else if s.com.At? {
      BusyClient(c, s, e);
    } else if Step(c, s, e).com.At? {
      Starts(c, s, e);
    } else {
      IdleClient(c, s, e);
    }
  }

  lemma StepKeepsInv(c: Config, s: State, e: Event)
    requires Inv(c, s) && Enabled(c, s, e)
    ensures Inv(c, Step(c, s, e))
  {
    StepKeepsRules(c, s, e);
    StepKeepsData(c, s, e);
  }

  lemma InitInv(c: Config, s: State)
    requires c.Ok() && Init(c, s)
    ensures Inv(c, s)
  {
    Cache.InitInv(s.cache);
    assert forall x: nat :: x < c.size ==> Blocks(c, s.cache.disk)[x] == s.cache.disk[K(x)];
  }

  lemma {:induction false} RunKeepsInv(c: Config, s: State, es: seq<Event>)
    requires Inv(c, s) && Runs(c, s, es)
    ensures Inv(c, Final(c, s, es))
    decreases |es|
  {
    if es != [] {
      StepKeepsInv(c, s, es[0]);
      RunKeepsInv(c, Step(c, s, es[0]), es[1..]);
    }
  }

  // ----- The theorems -----

  /** The steps of the cache in a run. */
  ghost function Trace(c: Config, s: State, es: seq<Event>): seq<Cache.Event>
    requires Runs(c, s, es)
    decreases |es|
  {
    if es == [] then []
    else
      var oe, rest := CacheEvent(c, s, es[0]), Trace(c, Step(c, s, es[0]), es[1..]);
      if oe.Some? then [oe.value] + rest else rest
  }

  /** The log keeps the rules of the cache: its runs are runs of the cache machine. */
  lemma {:induction false} LogKeepsRules(c: Config, s: State, es: seq<Event>)
    requires Rules(c, s) && Runs(c, s, es)
    ensures Cache.Runs(s.cache, Trace(c, s, es)) && Cache.Final(s.cache, Trace(c, s, es)) == Final(c, s, es).cache
    decreases |es|
  {
    if es != [] {
      var oe, s' := CacheEvent(c, s, es[0]), Step(c, s, es[0]);
      StepKeepsRules(c, s, es[0]);
      LogKeepsRules(c, s', es[1..]);
      assert s'.cache == Feed(s.cache, oe);
      if oe.Some? {
        RulesKept(c, s, es[0]);
        assert ([oe.value] + Trace(c, s', es[1..]))[1..] == Trace(c, s', es[1..]);
      }
    }
  }

  /**
   Cache and log together are one map of blocks: in every run, what write_log copies for an entry is what was last
   stored into that block, and whoever holds a block after bread reads what was last stored into it.
   */
  lemma CopiesNewest(c: Config, s: State, es: seq<Event>, h: nat)
    requires c.Ok() && Init(c, s) && Runs(c, s, es)
    ensures var t, tr := Final(c, s, es), Trace(c, s, es);
      && Cache.Runs(s.cache, tr)
      && (t.com.At? && t.com.phase.Copying? && t.com.pos.Copy? ==>
            && t.com.phase.t < |t.group| && K(t.group[t.com.phase.t]) in s.cache.disk
            && StoreData(t, t.com.phase) == Cache.LastStored(s.cache.disk, tr, K(t.group[t.com.phase.t])))
      && (Cache.Has(t.cache, h, Cache.Holding) && TheBuf(t.cache, h).valid ==>
            var k := Cache.KeyOf(TheBuf(t.cache, h));
            k in s.cache.disk && TheBuf(t.cache, h).data == Cache.LastStored(s.cache.disk, tr, k))
  {
    InitInv(c, s);
    RunKeepsInv(c, s, es);
    LogKeepsRules(c, s, es);
    var t, tr := Final(c, s, es), Trace(c, s, es);
    Cache.CacheIsBlockMap(s.cache, tr, h);
    if t.com.At? && t.com.phase.Copying? && t.com.pos.Copy? {
      var x := t.group[t.com.phase.t];
      CopyData(c, t);
      assert c.Home(x) && t.cache.newest[K(x)] == t.view0[x];
      assert K(x) in s.cache.disk && s.cache.newest == s.cache.disk;
      Cache.NewestIsLastStored(s.cache, tr, K(x));
    }
  }

  /** The last end_op starts a commit of all blocks that were logged, as they are in the cache. */
  lemma LastEndCommits(c: Config, s: State, es: seq<Event>, o: nat)
    requires c.Ok() && Init(c, s) && Runs(c, s, es)
    requires var t := Final(c, s, es); Enabled(c, t, End(o)) && t.ops == {o}
    ensures var t := Final(c, s, es); var u := Step(c, t, End(o));
      && u.ops == {} && u.com.At? && u.group == u.lh == t.lh && u.cache == t.cache && u.pending == map[]
      && (u.com.phase == if t.lh == [] then Finished else Copying(0)) && u.com.pos.GetA?
      && ReadyToCommit(c, u.disk0, u.view0, u.group)
      && u.disk0 == Blocks(c, t.cache.disk) && u.view0 == Blocks(c, t.cache.newest)
  {
    InitInv(c, s);
    RunKeepsInv(c, s, es);
    var t := Final(c, s, es);
    assert t.ops - {o} == {};
    NonePending(c, t, End(o));
    StepKeepsInv(c, t, End(o));
  }

  /** How many steps a commit of n entries has left, at most. */
  function Left(com: Committer, n: nat): nat {
    if com.Idle? then 0
    else
      var phases := match com.phase
        case Copying(t) => if t < n then 2 * n + 3 - t else n + 3
        case Committing => n + 2
        case Installing(t) => if t < n then n + 1 - t else 1
        case Clearing => 1
        case Finished => 0;
      16 * phases + 1 + if com.phase.Finished? then 0 else PosLeft(com.pos)
  }

  function PosLeft(pos: Pos): nat {
    match pos
    case GetA => 12
    case LockA => 11
    case FillA => 10
    case GetB => 9
    case LockB => 8
    case FillB => 7
    case Copy => 6
    case Flush => 5
    case Unpin => 4
    case UnlockS => 3
    case LeaveS => 2
    case UnlockT => 1
    case LeaveT => 0
  }

  /** Each step of the committing thread brings the commit nearer to its end. */
  lemma CommitGoesOn(com: Committer, n: nat)
    requires com.At? && n > 0 && PosOk(com.phase, com.pos)
    requires com.phase.Copying? || com.phase.Installing? ==> com.phase.t < n
    ensures Left(ComNext(com, n), n) < Left(com, n)
  {
  }

  /** The disk at the end of a commit. */
  lemma FinishedDisk(c: Config, t: State)
    requires Data(c, t) && t.com.At? && t.com.phase.Finished?
    ensures var d := Blocks(c, t.cache.disk);
      && WellFormed(c, d) && HeadEntries(c, d) == [] && |t.view0| == c.size
      && forall b :: c.Home(b) ==> d[b] == t.view0[b]
  {
    var ws := CommitWrites(c, t.view0, t.group);
    assert ws[..|ws|] == ws;
    CommitCompletes(c, t.disk0, t.view0, t.group);
  }

  lemma FinishIs(c: Config, t: State, buf: nat)
    requires Rules(c, t) && t.com.At? && t.com.phase.Finished? && Enabled(c, t, Commit(buf))
    ensures var u := Step(c, t, Commit(buf)); u.com.Idle? && u.lh == [] && u.cache == t.cache && Pinned(u) == []
  {
    CommitStep(c, t, Commit(buf));
  }

  lemma FinishInstalls(c: Config, t: State, buf: nat)
    requires Inv(c, t) && t.com.At? && t.com.phase.Finished? && Enabled(c, t, Commit(buf))
    ensures var u := Step(c, t, Commit(buf)); var d := Blocks(c, u.cache.disk);
      && u.com.Idle? && u.lh == [] && u.cache == t.cache && WellFormed(c, d) && HeadEntries(c, d) == []
      && |t.view0| == c.size && (forall b :: c.Home(b) ==> d[b] == t.view0[b]) && Pinned(u) == []
  {
    FinishIs(c, t, buf);
    FinishedDisk(c, t);
  }

  /**
   At the end of a commit every block of the group is on disk as it was in the cache at the start, the log is empty in
   memory and on disk, and no buffer is pinned.
   */
  lemma CommitInstalls(c: Config, s: State, es: seq<Event>, buf: nat)
    requires c.Ok() && Init(c, s) && Runs(c, s, es)
    requires var t := Final(c, s, es); t.com.At? && t.com.phase.Finished? && Enabled(c, t, Commit(buf))
    ensures var t := Final(c, s, es); var u := Step(c, t, Commit(buf)); var d := Blocks(c, u.cache.disk);
      && u.com.Idle? && u.lh == [] && u.cache == t.cache && WellFormed(c, d) && HeadEntries(c, d) == []
      && |t.view0| == c.size && (forall b :: c.Home(b) ==> d[b] == t.view0[b]) && Pinned(u) == []
  {
    InitInv(c, s);
    RunKeepsInv(c, s, es);
    FinishInstalls(c, Final(c, s, es), buf);
  }

  /**
   The machine may stop in any state of any run.  However often recovery is then interrupted, once it has run all home
   blocks are as they were before the commit under way, or all are as its operations left them in the cache; and if no
   commit is under way, they are as on disk.
   */
  lemma CrashAnywhere(c: Config, s: State, es: seq<Event>, ks: seq<nat>)
    requires c.Ok() && Init(c, s) && Runs(c, s, es)
    ensures var t := Final(c, s, es); var e := Blocks(c, t.cache.disk);
      && WellFormed(c, e) && WellFormed(c, Interrupted(c, e, ks))
      && var r := Recovered(c, Interrupted(c, e, ks));
      && (t.com.Idle? ==> forall b :: c.Home(b) ==> r[b] == e[b])
      && (t.com.At? ==> |t.disk0| == |t.view0| == c.size)
      && (t.com.At? && Written(t.com, |t.group|) <= |t.group| ==> forall b :: c.Home(b) ==> r[b] == t.disk0[b])
      && (t.com.At? && Written(t.com, |t.group|) > |t.group| ==> forall b :: c.Home(b) ==> r[b] == t.view0[b])
  {
    InitInv(c, s);
    RunKeepsInv(c, s, es);
    var t := Final(c, s, es);
    if t.com.Idle? {
      var e := Blocks(c, t.cache.disk);
      RecoveryIsIdempotent(c, e, ks);
      RecoveredIsLogical(c, Interrupted(c, e, ks));
    } else {
      CrashAtomicity(c, t.disk0, t.view0, t.group, Written(t.com, |t.group|), ks);
    }
  }
}
