/**
 The on-disk redo log of the file system (kernel/log.c).

 A disk is a sequence of blocks, a block a sequence of words, and one block write is the
 unit that a crash cannot split.  `CommitWrites` and `RecoverWrites` list the block writes
 that a commit and a recovery issue, in order; a crash keeps an arbitrary prefix of them.
 `LogManager` is the code of log.c, proved to issue exactly these writes.  The state machine
 in LogRuns.dfy interleaves file-system operations, commits, crashes and recoveries.
 */
module RedoLog {

  type Block = seq<int>
  type Disk = seq<Block>

  /** Sizes fixed by param.h, fs.h and the superblock; `words` is BSIZE / sizeof(int). */
  datatype Config = Config(size: nat, start: nat, logBlocks: nat, maxOp: nat, words: nat) {

    /** The log fits on the disk, its header fits in one block (checked by initlog). */
    ghost predicate Ok() {
      start + logBlocks < size && logBlocks + 1 < words && 0 < maxOp
    }

    /** A block outside the log region: the only kind that operations modify. */
    predicate Home(b: int) {
      0 <= b < size && !(start <= b <= start + logBlocks)
    }
  }

  // ----- Block writes -----

  datatype Write = Write(block: nat, data: Block)

  /** The disk after the given writes reached it, in order. */
  ghost function Apply(d: Disk, ws: seq<Write>): (r: Disk)
    ensures |r| == |d|
  {
    if ws == [] then d else
      var before := Apply(d, ws[..|ws| - 1]);
      var last := ws[|ws| - 1];
      if last.block < |d| then before[last.block := last.data] else before
  }

  lemma {:induction false} ApplyConcat(d: Disk, ws: seq<Write>, ws': seq<Write>)
    ensures Apply(d, ws + ws') == Apply(Apply(d, ws), ws')
  {
    if ws' == [] {
      assert ws + ws' == ws;
    } else {
      ApplyConcat(d, ws, ws'[..|ws'| - 1]);
      assert (ws + ws')[..|ws + ws'| - 1] == ws + ws'[..|ws'| - 1];
    }
  }

  /** One more of a list of writes reaches the disk. */
  lemma ApplyNext(d: Disk, ws: seq<Write>, k: nat)
    requires k < |ws| && ws[k].block < |d|
    ensures Apply(d, ws[..k + 1]) == Apply(d, ws[..k])[ws[k].block := ws[k].data]
  {
    assert ws[..k + 1][..k] == ws[..k];
  }

  ghost predicate DistinctTargets(ws: seq<Write>) {
    forall i, j :: 0 <= i < j < |ws| ==> ws[i].block != ws[j].block
  }

  /** Writes to distinct blocks commute: each block holds what was written to it, if anything. */
  lemma {:induction false} ApplyDistinct(d: Disk, ws: seq<Write>, x: nat)
    requires x < |d| && DistinctTargets(ws)
    ensures forall i :: 0 <= i < |ws| && ws[i].block == x ==> Apply(d, ws)[x] == ws[i].data
    ensures (forall i :: 0 <= i < |ws| ==> ws[i].block != x) ==> Apply(d, ws)[x] == d[x]
  {
    if ws != [] {
      ApplyDistinct(d, ws[..|ws| - 1], x);
    }
  }

  // ----- The header block -----

  ghost predicate Shaped(c: Config, d: Disk) {
    |d| == c.size && forall b :: 0 <= b < |d| ==> |d[b]| == c.words
  }

  /** `lh` is a legal list of header entries: room for it, home blocks only, none twice. */
  ghost predicate EntriesOk(c: Config, lh: seq<int>) {
    && |lh| <= c.logBlocks
    && (forall i :: 0 <= i < |lh| ==> c.Home(lh[i]))
    && (forall i, j :: 0 <= i < j < |lh| ==> lh[i] != lh[j])
  }

  /** The entries of the on-disk header: word 0 is the count, the block numbers follow. */
  ghost function HeadEntries(c: Config, d: Disk): seq<int>
    requires c.Ok() && Shaped(c, d) && 0 <= d[c.start][0] <= c.logBlocks
  {
    d[c.start][1..1 + d[c.start][0]]
  }

  ghost predicate WellFormed(c: Config, d: Disk) {
    && c.Ok() && Shaped(c, d)
    && 0 <= d[c.start][0] <= c.logBlocks
    && EntriesOk(c, HeadEntries(c, d))
  }

  /** The header block after the entries `lh` are stored into it: later words keep their values. */
  function StoreHead(old_: Block, lh: seq<int>): (r: Block)
    requires |lh| < |old_|
    ensures |r| == |old_| && r[0] == |lh| && r[1..1 + |lh|] == lh
  {
    [|lh|] + lh + old_[1 + |lh|..]
  }

  /** Position of `b` in `lh`, or |lh| if absent: the search of log_write. */
  function IndexOf(lh: seq<int>, b: int): (i: nat)
    ensures i <= |lh| && (i < |lh| ==> lh[i] == b)
    ensures forall j :: 0 <= j < i ==> lh[j] != b
    ensures i < |lh| <==> b in lh
  {
    if lh == [] then 0 else if lh[0] == b then 0 else 1 + IndexOf(lh[1..], b)
  }

  /** What home block `b` holds once the log on disk has been replayed. */
  ghost function Logical(c: Config, d: Disk, b: int): Block
    requires WellFormed(c, d) && c.Home(b)
  {
    var lh := HeadEntries(c, d);
    if b in lh then d[c.start + 1 + IndexOf(lh, b)] else d[b]
  }

  /** Equal on every home block once replayed. */
  ghost predicate SameLogical(c: Config, d: Disk, d': Disk)
    requires WellFormed(c, d) && WellFormed(c, d')
  {
    forall b :: c.Home(b) ==> Logical(c, d, b) == Logical(c, d', b)
  }

  // ----- The writes of a recovery and of a commit -----

  ghost function InstallWrites(c: Config, d: Disk, lh: seq<int>): (ws: seq<Write>)
    requires c.Ok() && Shaped(c, d) && EntriesOk(c, lh)
    ensures |ws| == |lh|
  {
    seq(|lh|, i requires 0 <= i < |lh| => Write(lh[i], d[c.start + 1 + i]))
  }

  /** recover_from_log: install every logged block, then clear the header. */
  ghost function RecoverWrites(c: Config, d: Disk): (ws: seq<Write>)
    requires WellFormed(c, d)
    ensures |ws| == |HeadEntries(c, d)| + 1
  {
    InstallWrites(c, d, HeadEntries(c, d)) + [Write(c.start, StoreHead(d[c.start], []))]
  }

  ghost function LogWrites(c: Config, view: Disk, lh: seq<int>): (ws: seq<Write>)
    requires c.Ok() && Shaped(c, view) && EntriesOk(c, lh)
    ensures |ws| == |lh|
  {
    seq(|lh|, i requires 0 <= i < |lh| => Write(c.start + 1 + i, view[lh[i]]))
  }

  /** commit: copy the cached blocks to the log, write the header, install, clear the header. */
  ghost function CommitWrites(c: Config, view: Disk, lh: seq<int>): (ws: seq<Write>)
    requires c.Ok() && Shaped(c, view) && EntriesOk(c, lh)
    ensures |ws| == if lh == [] then 0 else 2 * |lh| + 2
  {
    if lh == [] then [] else
      var head := StoreHead(view[c.start], lh);
      LogWrites(c, view, lh) + [Write(c.start, head)]
      + seq(|lh|, i requires 0 <= i < |lh| => Write(lh[i], view[lh[i]]))
      + [Write(c.start, StoreHead(head, []))]
  }

  // ----- Recovery may be cut short anywhere -----

  /** Any prefix of the install writes leaves header and log blocks alone. */
  lemma InstallPrefix(c: Config, d: Disk, lh: seq<int>, k: nat)
    requires c.Ok() && Shaped(c, d) && EntriesOk(c, lh) && k <= |lh|
    ensures var e := Apply(d, InstallWrites(c, d, lh)[..k]);
      && (forall x :: c.start <= x <= c.start + c.logBlocks ==> e[x] == d[x])
      && (forall i :: 0 <= i < k ==> e[lh[i]] == d[c.start + 1 + i])
      && (forall b :: c.Home(b) && b !in lh[..k] ==> e[b] == d[b])
      && Shaped(c, e)
  {
    var ws := InstallWrites(c, d, lh)[..k];
    var e := Apply(d, ws);
    forall x: nat | x < c.size
      ensures forall i :: 0 <= i < k && lh[i] == x ==> e[x] == d[c.start + 1 + i]
      ensures x !in lh[..k] ==> e[x] == d[x]
      ensures |e[x]| == c.words
    {
      ApplyDistinct(d, ws, x);
      if x in lh[..k] {
        var i :| 0 <= i < k && lh[i] == x;
        assert ws[i].block == x;
      } else {
        assert forall i :: 0 <= i < k ==> lh[..k][i] != x;
      }
    }
  }

  /** The disk after a recovery that runs to its end. */
  ghost function Recovered(c: Config, d: Disk): Disk
    requires WellFormed(c, d)
  {
    Apply(d, RecoverWrites(c, d))
  }

  lemma HeadKept(c: Config, d: Disk, e: Disk)
    requires WellFormed(c, d) && Shaped(c, e) && e[c.start] == d[c.start]
    ensures WellFormed(c, e) && HeadEntries(c, e) == HeadEntries(c, d)
  {
  }

  /** One more write, of the header block. */
  lemma ApplyHead(c: Config, d: Disk, ws: seq<Write>, old_: Block, lh: seq<int>)
    requires c.Ok() && Shaped(c, d) && Shaped(c, Apply(d, ws)) && |old_| == c.words && EntriesOk(c, lh)
    ensures var e := Apply(d, ws + [Write(c.start, StoreHead(old_, lh))]);
      && WellFormed(c, e) && HeadEntries(c, e) == lh
      && e == Apply(d, ws)[c.start := StoreHead(old_, lh)]
  {
    var w := Write(c.start, StoreHead(old_, lh));
    assert (ws + [w])[..|ws + [w]| - 1] == ws;
    var e := Apply(d, ws + [w]);
    assert e == Apply(d, ws)[c.start := w.data];
    assert HeadEntries(c, e) == lh;
  }

  /** Replay depends only on the header, the log blocks and the home blocks not logged. */
  lemma LogicalFrame(c: Config, d: Disk, e: Disk)
    requires WellFormed(c, d) && WellFormed(c, e)
    requires forall x :: c.start <= x <= c.start + c.logBlocks ==> e[x] == d[x]
    requires forall b :: c.Home(b) && b !in HeadEntries(c, d) ==> e[b] == d[b]
    ensures SameLogical(c, d, e)
  {
    forall b | c.Home(b) ensures Logical(c, d, b) == Logical(c, e, b) {
      assert HeadEntries(c, e) == HeadEntries(c, d);
    }
  }

  lemma RecoverCutShort(c: Config, d: Disk, k: nat)
    requires WellFormed(c, d) && k <= |HeadEntries(c, d)|
    ensures var e := Apply(d, InstallWrites(c, d, HeadEntries(c, d))[..k]);
      WellFormed(c, e) && SameLogical(c, d, e)
  {
    var lh := HeadEntries(c, d);
    InstallPrefix(c, d, lh, k);
    var e := Apply(d, InstallWrites(c, d, lh)[..k]);
    HeadKept(c, d, e);
    LogicalFrame(c, d, e);
  }

  lemma InstalledAll(c: Config, d: Disk, e: Disk)
    requires WellFormed(c, d) && Shaped(c, e)
    requires var lh := HeadEntries(c, d); forall i :: 0 <= i < |lh| ==> e[lh[i]] == d[c.start + 1 + i]
    requires forall b :: c.Home(b) && b !in HeadEntries(c, d) ==> e[b] == d[b]
    ensures forall b :: c.Home(b) ==> e[b] == Logical(c, d, b)
  {
  }

  /** A recovery that completes leaves in every home block what replaying the log promised. */
  lemma RecoveredIsLogical(c: Config, d: Disk)
    requires WellFormed(c, d)
    ensures WellFormed(c, Recovered(c, d)) && HeadEntries(c, Recovered(c, d)) == []
    ensures forall b :: c.Home(b) ==> Recovered(c, d)[b] == Logical(c, d, b)
  {
    var lh := HeadEntries(c, d);
    var install := InstallWrites(c, d, lh);
    assert install[..|lh|] == install && lh[..|lh|] == lh;
    InstallPrefix(c, d, lh, |lh|);
    ApplyHead(c, d, install, d[c.start], []);
    InstalledAll(c, d, Recovered(c, d));
  }

  /** However many writes of a recovery reach the disk, replaying it again gives the same blocks. */
  lemma RecoverPrefix(c: Config, d: Disk, k: nat)
    requires WellFormed(c, d) && k <= |RecoverWrites(c, d)|
    ensures WellFormed(c, Apply(d, RecoverWrites(c, d)[..k]))
    ensures SameLogical(c, d, Apply(d, RecoverWrites(c, d)[..k]))
  {
    var lh, ws := HeadEntries(c, d), RecoverWrites(c, d);
    if k <= |lh| {
      assert ws[..k] == InstallWrites(c, d, lh)[..k];
      RecoverCutShort(c, d, k);
    } else {
      assert ws[..k] == ws;
      RecoveredIsLogical(c, d);
    }
  }

  /** The disk after a series of recoveries, the i-th of them cut short after ks[i] writes. */
  ghost function Interrupted(c: Config, d: Disk, ks: seq<nat>): (e: Disk)
    requires WellFormed(c, d)
    decreases |ks|
  {
    if ks == [] then d else
      var k := if ks[0] <= |RecoverWrites(c, d)| then ks[0] else |RecoverWrites(c, d)|;
      RecoverPrefix(c, d, k);
      Interrupted(c, Apply(d, RecoverWrites(c, d)[..k]), ks[1..])
  }

  /** Crashing during recovery any number of times changes nothing in the end. */
  lemma {:induction false} RecoveryIsIdempotent(c: Config, d: Disk, ks: seq<nat>)
    requires WellFormed(c, d)
    ensures var e := Interrupted(c, d, ks);
      && WellFormed(c, e) && SameLogical(c, d, e)
      && WellFormed(c, Recovered(c, e))
      && (forall b :: c.Home(b) ==> Recovered(c, e)[b] == Recovered(c, d)[b])
    decreases |ks|
  {
    RecoveredIsLogical(c, d);
    if ks != [] {
      var k := if ks[0] <= |RecoverWrites(c, d)| then ks[0] else |RecoverWrites(c, d)|;
      RecoverPrefix(c, d, k);
      var d' := Apply(d, RecoverWrites(c, d)[..k]);
      RecoveredIsLogical(c, d');
      RecoveryIsIdempotent(c, d', ks[1..]);
      forall b | c.Home(b)
        ensures Recovered(c, Interrupted(c, d, ks))[b] == Recovered(c, d)[b]
        ensures Logical(c, d, b) == Logical(c, Interrupted(c, d, ks), b)
      {
        assert Logical(c, d, b) == Logical(c, d', b);
        assert Logical(c, d', b) == Logical(c, Interrupted(c, d, ks), b);
      }
    }
  }

  // ----- A commit may be cut short anywhere -----

  /** `view` is what the buffer cache returns for each block: the disk, overlaid by the logged blocks. */
  ghost predicate Overlay(c: Config, d: Disk, view: Disk, lh: seq<int>) {
    && Shaped(c, view)
    && forall b :: 0 <= b < c.size && b < |d| && b !in lh ==> view[b] == d[b]
  }

  ghost predicate ReadyToCommit(c: Config, d: Disk, view: Disk, lh: seq<int>) {
    && WellFormed(c, d) && HeadEntries(c, d) == []
    && EntriesOk(c, lh) && Overlay(c, d, view, lh)
  }

  /** Before the header write, only log blocks change. */
  lemma LogPrefix(c: Config, d: Disk, view: Disk, lh: seq<int>, k: nat)
    requires c.Ok() && Shaped(c, d) && Shaped(c, view) && EntriesOk(c, lh) && k <= |lh|
    ensures var e := Apply(d, LogWrites(c, view, lh)[..k]);
      && Shaped(c, e)
      && (forall i :: 0 <= i < k ==> e[c.start + 1 + i] == view[lh[i]])
      && (forall x :: 0 <= x < c.size && !(c.start + 1 <= x < c.start + 1 + k) ==> e[x] == d[x])
  {
    var ws := LogWrites(c, view, lh)[..k];
    forall x: nat | x < c.size
      ensures |Apply(d, ws)[x]| == c.words
      ensures !(c.start + 1 <= x < c.start + 1 + k) ==> Apply(d, ws)[x] == d[x]
      ensures c.start + 1 <= x < c.start + 1 + k ==> Apply(d, ws)[x] == view[lh[x - c.start - 1]]
    {
      ApplyDistinct(d, ws, x);
      if c.start + 1 <= x < c.start + 1 + k {
        assert ws[x - c.start - 1].block == x;
      }
    }
  }

  /** A disk whose log holds the group `lh` of cached blocks replays to the cache. */
  lemma LoggedGroup(c: Config, e: Disk, view: Disk, lh: seq<int>)
    requires WellFormed(c, e) && HeadEntries(c, e) == lh && Shaped(c, view)
    requires forall i :: 0 <= i < |lh| ==> e[c.start + 1 + i] == view[lh[i]]
    requires forall b :: c.Home(b) && b !in lh ==> e[b] == view[b]
    ensures forall b :: c.Home(b) ==> Logical(c, e, b) == view[b]
  {
  }

  /** The disk right after the header write of a commit holds the whole group in its log. */
  lemma HeaderCommits(c: Config, d: Disk, view: Disk, lh: seq<int>)
    requires ReadyToCommit(c, d, view, lh)
    ensures var head := StoreHead(view[c.start], lh);
            var e := Apply(d, LogWrites(c, view, lh) + [Write(c.start, head)]);
      && WellFormed(c, e) && HeadEntries(c, e) == lh && e[c.start] == head
      && (forall i :: 0 <= i < |lh| ==> e[c.start + 1 + i] == view[lh[i]])
      && (forall b :: c.Home(b) ==> Logical(c, e, b) == view[b])
  {
    var logs := LogWrites(c, view, lh);
    assert logs[..|lh|] == logs;
    LogPrefix(c, d, view, lh, |lh|);
    ApplyHead(c, d, logs, view[c.start], lh);
    LoggedGroup(c, Apply(d, logs + [Write(c.start, StoreHead(view[c.start], lh))]), view, lh);
  }

  /** Once the header is written, the rest of the commit is the recovery of that disk. */
  lemma CommitTailIsRecovery(c: Config, d: Disk, view: Disk, lh: seq<int>)
    requires ReadyToCommit(c, d, view, lh) && lh != []
    ensures var ws := CommitWrites(c, view, lh); var e := Apply(d, ws[..|lh| + 1]);
      && WellFormed(c, e)
      && ws[|lh| + 1..] == RecoverWrites(c, e)
      && (forall b :: c.Home(b) ==> Logical(c, e, b) == view[b])
  {
    var ws := CommitWrites(c, view, lh);
    assert ws[..|lh| + 1] == LogWrites(c, view, lh) + [Write(c.start, StoreHead(view[c.start], lh))];
    HeaderCommits(c, d, view, lh);
    CommitTailWrites(c, view, lh, Apply(d, ws[..|lh| + 1]));
  }

  lemma CommitTailWrites(c: Config, view: Disk, lh: seq<int>, e: Disk)
    requires Shaped(c, view) && WellFormed(c, e) && HeadEntries(c, e) == lh && lh != []
    requires e[c.start] == StoreHead(view[c.start], lh)
    requires forall i :: 0 <= i < |lh| ==> e[c.start + 1 + i] == view[lh[i]]
    ensures CommitWrites(c, view, lh)[|lh| + 1..] == RecoverWrites(c, e)
  {
    var tail := CommitWrites(c, view, lh)[|lh| + 1..];
    var rec := RecoverWrites(c, e);
    assert |tail| == |rec|;
    forall i | 0 <= i < |tail| ensures tail[i] == rec[i] {
      if i < |lh| {
        assert rec[i] == InstallWrites(c, e, lh)[i];
      }
    }
  }

  lemma CutBeforeHeader(c: Config, d: Disk, view: Disk, lh: seq<int>, k: nat)
    requires ReadyToCommit(c, d, view, lh) && k <= |lh|
    ensures var e := Apply(d, LogWrites(c, view, lh)[..k]);
      WellFormed(c, e) && forall b :: c.Home(b) ==> Logical(c, e, b) == d[b]
  {
    var e := Apply(d, LogWrites(c, view, lh)[..k]);
    LogPrefix(c, d, view, lh, k);
    HeadKept(c, d, e);
    LoggedGroup(c, e, d, []);
  }

  lemma CutAfterHeader(c: Config, d: Disk, view: Disk, lh: seq<int>, k: nat)
    requires ReadyToCommit(c, d, view, lh) && |lh| < k <= |CommitWrites(c, view, lh)|
    ensures var e := Apply(d, CommitWrites(c, view, lh)[..k]);
      WellFormed(c, e) && forall b :: c.Home(b) ==> Logical(c, e, b) == view[b]
  {
    var ws := CommitWrites(c, view, lh);
    CommitTailIsRecovery(c, d, view, lh);
    var first, rest, j := ws[..|lh| + 1], ws[|lh| + 1..], k - |lh| - 1;
    assert ws[..k] == first + rest[..j];
    ApplyConcat(d, first, rest[..j]);
    RecoverPrefix(c, Apply(d, first), j);
    assert SameLogical(c, Apply(d, first), Apply(d, ws[..k]));
  }

  /**
   Crash atomicity of one commit.  Whatever prefix of its writes reached the disk, replaying the
   log yields every home block as it was before the group, or every home block as the cache
   had it, and which of the two is decided by the header write alone.
   */
  lemma CommitIsAtomic(c: Config, d: Disk, view: Disk, lh: seq<int>, k: nat)
    requires ReadyToCommit(c, d, view, lh) && k <= |CommitWrites(c, view, lh)|
    ensures var e := Apply(d, CommitWrites(c, view, lh)[..k]);
      && WellFormed(c, e)
      && (k <= |lh| ==> forall b :: c.Home(b) ==> Logical(c, e, b) == d[b])
      && (k > |lh| ==> forall b :: c.Home(b) ==> Logical(c, e, b) == view[b])
  {
    if k <= |lh| {
      assert CommitWrites(c, view, lh)[..k] == LogWrites(c, view, lh)[..k];
      CutBeforeHeader(c, d, view, lh, k);
    } else {
      CutAfterHeader(c, d, view, lh, k);
    }
  }

  /** A commit that completes: the disk holds what the cache held, and the log is empty. */
  lemma CommitCompletes(c: Config, d: Disk, view: Disk, lh: seq<int>)
    requires ReadyToCommit(c, d, view, lh)
    ensures var e := Apply(d, CommitWrites(c, view, lh));
      && WellFormed(c, e) && HeadEntries(c, e) == []
      && forall b :: c.Home(b) ==> e[b] == view[b]
  {
    if lh != [] {
      var ws := CommitWrites(c, view, lh);
      CommitTailIsRecovery(c, d, view, lh);
      assert ws == ws[..|lh| + 1] + ws[|lh| + 1..];
      ApplyConcat(d, ws[..|lh| + 1], ws[|lh| + 1..]);
      RecoveredIsLogical(c, Apply(d, ws[..|lh| + 1]));
    }
  }

  /**
   All or nothing over every crash point: crash after any write of a commit, crash any number of
   times inside recovery, then recover.  All home blocks are as before the commit, or all are
   as the group of operations left them.
   */
  lemma CrashAtomicity(c: Config, d: Disk, view: Disk, lh: seq<int>, k: nat, ks: seq<nat>)
    requires ReadyToCommit(c, d, view, lh) && k <= |CommitWrites(c, view, lh)|
    ensures var e := Apply(d, CommitWrites(c, view, lh)[..k]);
      && WellFormed(c, e) && WellFormed(c, Interrupted(c, e, ks))
      && var r := Recovered(c, Interrupted(c, e, ks));
      && WellFormed(c, r) && HeadEntries(c, r) == []
      && (k <= |lh| ==> forall b :: c.Home(b) ==> r[b] == d[b])
      && (k > |lh| ==> forall b :: c.Home(b) ==> r[b] == view[b])
  {
    CommitIsAtomic(c, d, view, lh, k);
    var e := Apply(d, CommitWrites(c, view, lh)[..k]);
    RecoveryIsIdempotent(c, e, ks);
    RecoveredIsLogical(c, e);
    RecoveredIsLogical(c, Interrupted(c, e, ks));
  }
}
