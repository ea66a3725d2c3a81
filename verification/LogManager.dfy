/**
 The procedures of kernel/log.c over the in-memory log header, the disk and the buffer cache.

 Each procedure is proved to issue exactly the block writes that RedoLog names for it, in that
 order: `io` records the writes since boot.  A procedure that can stop the kernel returns an
 `Outcome` saying whether it did.
 */
module LogManager {
  import opened RedoLog

  datatype Outcome = Done | Panic(message: string)

  /** The header entries after log_write(b): an entry is added only for a block not yet logged. */
  function Absorb<T(==)>(lh: seq<T>, b: T): seq<T> {
    if b in lh then lh else lh + [b]
  }

  /** begin_op may proceed: no commit runs, and there is room for one more full-sized operation. */
  predicate CanBegin(c: Config, n: nat, outstanding: int, committing: bool) {
    !committing && n + (outstanding + 1) * c.maxOp <= c.logBlocks
  }

  /** Once the log blocks hold the cached blocks, the commit writes are the four pieces in turn. */
  lemma CommitPieces(io: seq<Write>, c: Config, view: Disk, v: Disk, lh: seq<int>)
    requires c.Ok() && Shaped(c, view) && Shaped(c, v) && EntriesOk(c, lh) && lh != []
    requires forall i :: 0 <= i < |lh| ==> v[c.start + 1 + i] == view[lh[i]]
    ensures var head := StoreHead(view[c.start], lh);
      io + CommitWrites(c, view, lh) == io + LogWrites(c, view, lh) + [Write(c.start, head)]
        + InstallWrites(c, v[c.start := head], lh) + [Write(c.start, StoreHead(head, []))]
  {
    var head := StoreHead(view[c.start], lh);
    var logs, install := LogWrites(c, view, lh), InstallWrites(c, v[c.start := head], lh);
    var clear := [Write(c.start, StoreHead(head, []))];
    assert CommitWrites(c, view, lh) == logs + [Write(c.start, head)] + install + clear;
    Regroup(io, logs, [Write(c.start, head)], install, clear);
  }

  lemma Regroup(io: seq<Write>, a: seq<Write>, b: seq<Write>, e: seq<Write>, f: seq<Write>)
    ensures io + a + b + e + f == io + (a + b + e + f)
  {
  }

  ghost predicate WriteStep(d: Disk, w: Write, d': Disk) {
    w.block < |d| && d' == d[w.block := w.data]
  }

  /** `disks` are the states a disk goes through as the writes `io` reach it: the crash points. */
  ghost predicate CrashPoints(disks: seq<Disk>, io: seq<Write>) {
    && |disks| == |io| + 1
    && forall i {:trigger io[i]} :: 0 <= i < |io| ==>
      WriteStep(disks[i], io[i], disks[i + 1])
  }

  lemma CrashPointsNext(disks: seq<Disk>, io: seq<Write>, w: Write)
    requires CrashPoints(disks, io) && w.block < |disks[|io|]|
    ensures CrashPoints(disks + [disks[|io|][w.block := w.data]], io + [w])
  {
    var disks', io' := disks + [disks[|io|][w.block := w.data]], io + [w];
    forall i | 0 <= i < |io'| ensures WriteStep(disks'[i], io'[i], disks'[i + 1]) {
      if i < |io| {
        assert WriteStep(disks[i], io[i], disks[i + 1]);
      }
    }
  }

  /** The k-th crash point is the disk with the first k writes applied. */
  lemma {:induction false} CrashPointIsApply(disks: seq<Disk>, io: seq<Write>, j: nat, k: nat)
    requires CrashPoints(disks, io) && j <= k <= |io|
    ensures disks[k] == Apply(disks[j], io[j..k])
  {
    if j < k {
      CrashPointIsApply(disks, io, j, k - 1);
      assert WriteStep(disks[k - 1], io[k - 1], disks[k]);
      assert io[j..k][..k - 1 - j] == io[j..k - 1];
    }
  }

  // ----- Crash points and recovery -----

  /** Once recovery has run to its end on disk `e`, whatever interrupted it, the home blocks are those of `home`. */
  ghost predicate RecoversTo(c: Config, e: Disk, home: Disk) {
    forall ks :: RecoversAfter(c, e, ks, home)
  }

  /** The same, when recovery is first cut short after ks[0] writes, then after ks[1], and so on. */
  ghost predicate RecoversAfter(c: Config, e: Disk, ks: seq<nat>, home: Disk) {
    && WellFormed(c, e) && WellFormed(c, Interrupted(c, e, ks)) && |home| == c.size
    && var r := Recovered(c, Interrupted(c, e, ks));
       WellFormed(c, r) && HeadEntries(c, r) == [] && forall b :: c.Home(b) ==> r[b] == home[b]
  }

  /** From `from` on: up to its n-th write the home blocks of `before` come back, and later those of `after`. */
  ghost predicate CrashSafe(c: Config, disks: seq<Disk>, from: nat, n: nat, before: Disk, after: Disk) {
    forall k :: from <= k < |disks| ==> RecoversTo(c, disks[k], if k - from <= n then before else after)
  }

  /** The crash points of a commit. */
  lemma CommitCrashSafe(c: Config, disks: seq<Disk>, io: seq<Write>, from: nat, view: Disk, lh: seq<int>)
    requires CrashPoints(disks, io) && from <= |io| && ReadyToCommit(c, disks[from], view, lh)
    requires io[from..] == CommitWrites(c, view, lh)
    ensures CrashSafe(c, disks, from, |lh|, disks[from], view)
  {
    var d, ws := disks[from], CommitWrites(c, view, lh);
    forall k | from <= k < |disks| ensures RecoversTo(c, disks[k], if k - from <= |lh| then d else view) {
      CrashPointIsApply(disks, io, from, k);
      assert io[from..k] == ws[..k - from];
      CommitCut(c, d, view, lh, k - from);
    }
  }

  lemma CommitCut(c: Config, d: Disk, view: Disk, lh: seq<int>, k: nat)
    requires ReadyToCommit(c, d, view, lh) && k <= |CommitWrites(c, view, lh)|
    ensures RecoversTo(c, Apply(d, CommitWrites(c, view, lh)[..k]), if k <= |lh| then d else view)
  {
    var e, home := Apply(d, CommitWrites(c, view, lh)[..k]), if k <= |lh| then d else view;
    forall ks: seq<nat> ensures RecoversAfter(c, e, ks, home) {
      CrashAtomicity(c, d, view, lh, k, ks);
    }
  }

  /** The crash points of a recovery. */
  lemma RecoveryCrashSafe(c: Config, disks: seq<Disk>, io: seq<Write>, from: nat)
    requires CrashPoints(disks, io) && from <= |io| && WellFormed(c, disks[from])
    requires io[from..] == RecoverWrites(c, disks[from])
    ensures CrashSafe(c, disks, from, 0, Recovered(c, disks[from]), Recovered(c, disks[from]))
  {
    var d, ws := disks[from], RecoverWrites(c, disks[from]);
    forall k | from <= k < |disks| ensures RecoversTo(c, disks[k], Recovered(c, d)) {
      CrashPointIsApply(disks, io, from, k);
      assert io[from..k] == ws[..k - from];
      RecoveryCut(c, d, k - from);
    }
  }

  lemma RecoveryCut(c: Config, d: Disk, k: nat)
    requires WellFormed(c, d) && k <= |RecoverWrites(c, d)|
    ensures RecoversTo(c, Apply(d, RecoverWrites(c, d)[..k]), Recovered(c, d))
  {
    RecoverPrefix(c, d, k);
    var e := Apply(d, RecoverWrites(c, d)[..k]);
    forall ks: seq<nat> ensures RecoversAfter(c, e, ks, Recovered(c, d)) {
      RecoveryIsIdempotent(c, e, ks);
      RecoveredIsLogical(c, Interrupted(c, e, ks));
      RecoveredIsLogical(c, d);
      SameRecovered(c, d, e);
    }
  }

  /** Disks that mean the same recover to the same home blocks. */
  lemma SameRecovered(c: Config, d: Disk, e: Disk)
    requires WellFormed(c, d) && WellFormed(c, e) && SameLogical(c, d, e)
    ensures forall b :: c.Home(b) ==> Recovered(c, d)[b] == Recovered(c, e)[b]
  {
    RecoveredIsLogical(c, d);
    RecoveredIsLogical(c, e);
    forall b | c.Home(b) ensures Recovered(c, d)[b] == Recovered(c, e)[b] {
      assert Logical(c, d, b) == Logical(c, e, b);
    }
  }

  /** After a recovery that ran to its end, the disk is the recovered one. */
  lemma Completed(disks: seq<Disk>, io: seq<Write>, from: nat)
    requires CrashPoints(disks, io) && from <= |io|
    ensures disks[|io|] == Apply(disks[from], io[from..])
  {
    CrashPointIsApply(disks, io, from, |io|);
    assert io[from..|io|] == io[from..];
  }

  /** log_write keeps a legal list of entries legal, and names exactly the blocks logged. */
  lemma AbsorbKeeps(c: Config, lh: seq<int>, b: int)
    requires EntriesOk(c, lh) && |lh| < c.logBlocks && c.Home(b)
    ensures EntriesOk(c, Absorb(lh, b))
    ensures (set x | x in Absorb(lh, b)) == (set x | x in lh) + {b}
  {
  }

  class Log {
    const c: Config
    var disk: Disk
    /** What bread returns for each block: its cached copy, or the disk's. */
    var view: Disk
    var n: nat
    var block: seq<int>
    var outstanding: int
    var committing: bool
    /** The blocks pinned by log_write: a reference each, taken with the header entry. */
    var pins: set<int>
    /** Every block write since the machine started, and every state the disk has been in. */
    ghost var io: seq<Write>
    ghost var disks: seq<Disk>

    /** A superset of the blocks whose cached copy differs from the disk. */
    ghost var dirty: set<int>
    /** The blocks that operations have changed in the cache and not yet handed to log_write. */
    ghost var changed: set<int>

    ghost predicate Valid()
      reads this
    {
      && c.Ok() && |disk| == c.size && CrashPoints(disks, io) && disks[|io|] == disk
      && Shaped(c, view) && |block| == c.logBlocks && n <= c.logBlocks
      && forall b :: 0 <= b < c.size && b !in dirty ==> view[b] == disk[b]
    }

    ghost function Entries(): seq<int>
      reads this
      requires n <= |block|
    {
      block[..n]
    }

    /**
     What the procedures keep between them.  The log on disk is empty; the header in memory lists home blocks, each
     once; exactly those are pinned in the cache; and a cached block differs from the disk only if it is listed, or
     an operation has yet to log it.
     */
    ghost predicate Ready()
      reads this
    {
      && Valid() && WellFormed(c, disk) && HeadEntries(c, disk) == []
      && EntriesOk(c, Entries()) && pins == (set b | b in Entries())
      && dirty <= (set b | b in Entries()) + changed
    }

    /** initlog: at boot the cache is empty, and the disk is whatever the last crash left. */
    constructor (c: Config, d: Disk)
      requires WellFormed(c, d)
      ensures this.c == c && Ready() && changed == {} && n == 0 && outstanding == 0 && !committing
      ensures view == disk == Recovered(c, d)
      ensures io == RecoverWrites(c, d) && disks[0] == d
      ensures CrashSafe(c, disks, 0, 0, Recovered(c, d), Recovered(c, d))
    {
      this.c, disk, view := c, d, d;
      n, block := 0, seq(c.logBlocks, _ => 0);
      outstanding, committing, pins := 0, false, {};
      io, disks, dirty, changed := [], [d], {}, {};
      new;
      RecoverFromLog();
      assert Entries() == [];
    }

    /** bwrite of a buffer whose data was just set: cache and disk both hold it. */
    method BWrite(b: nat, data: Block)
      requires Valid() && b < c.size && |data| == c.words
      modifies `disk, `view, `io, `disks, `dirty
      ensures Valid()
      ensures io == old(io) + [Write(b, data)] && disks == old(disks) + [disk]
      ensures view == old(view)[b := data] && dirty == old(dirty) - {b}
    {
      CrashPointsNext(disks, io, Write(b, data));
      view := view[b := data];
      disk := disk[b := data];
      io := io + [Write(b, data)];
      disks := disks + [disk];
      dirty := dirty - {b};
    }

    method WriteLog()
      requires Valid() && EntriesOk(c, Entries())
      modifies `disk, `view, `io, `disks, `dirty
      ensures Valid() && dirty <= old(dirty) && old(disks) <= disks
      ensures io == old(io) + LogWrites(c, old(view), Entries())
      ensures view[c.start] == old(view[c.start])
      ensures forall i :: 0 <= i < n ==> view[c.start + 1 + i] == old(view[block[i]])
    {
      ghost var ws := LogWrites(c, view, Entries());
      var tail := 0;
      while tail < n
        invariant 0 <= tail <= n && Valid() && dirty <= old(dirty) && old(disks) <= disks
        invariant io == old(io) + ws[..tail]
        invariant view[c.start] == old(view[c.start])
        invariant forall b :: c.Home(b) ==> view[b] == old(view[b])
        invariant forall x :: c.start < x <= c.start + tail ==> view[x] == ws[x - c.start - 1].data
      {
        var from := view[block[tail]];
        ghost var w := Write(c.start + tail + 1, from);
        assert w == ws[tail];
        assert ws[..tail + 1] == ws[..tail] + [w];
        BWrite(c.start + tail + 1, from);
        tail := tail + 1;
      }
      assert ws[..n] == ws;
    }

    method WriteHead()
      requires Valid()
      modifies `disk, `view, `io, `disks, `dirty
      ensures Valid() && dirty <= old(dirty) && old(disks) <= disks
      ensures var head := StoreHead(old(view)[c.start], Entries());
        io == old(io) + [Write(c.start, head)] && view == old(view)[c.start := head]
    {
      var hb := view[c.start];
      hb := hb[0 := n];
      var i := 0;
      while i < n
        invariant 0 <= i <= n && |hb| == c.words && hb[0] == n
        invariant hb[1..1 + i] == block[..i]
        invariant hb[1 + i..] == view[c.start][1 + i..]
      {
        hb := hb[1 + i := block[i]];
        assert hb[1..1 + i + 1] == hb[1..1 + i] + [block[i]];
        assert hb[1 + i + 1..] == view[c.start][1 + i + 1..];
        i := i + 1;
      }
      assert hb == [n] + hb[1..1 + n] + hb[1 + n..];
      BWrite(c.start, hb);
    }

    /** Copy the logged blocks to their homes; outside recovery also drop their pins. */
    method InstallTrans(recovering: bool)
      requires Valid() && EntriesOk(c, Entries())
      requires !recovering ==> pins == set b | b in Entries()
      modifies `disk, `view, `io, `disks, `pins, `dirty
      ensures Valid() && dirty == (old(dirty) - set b | b in Entries()) && old(disks) <= disks
      ensures io == old(io) + InstallWrites(c, old(view), Entries())
      ensures view[c.start] == old(view[c.start])
      ensures pins == if recovering then old(pins) else {}
    {
      ghost var ws := InstallWrites(c, view, Entries());
      var tail := 0;
      while tail < n
        invariant 0 <= tail <= n && Valid() && old(disks) <= disks
        invariant dirty == old(dirty) - set b | b in block[..tail]
        invariant io == old(io) + ws[..tail]
        invariant forall x :: c.start <= x <= c.start + c.logBlocks ==> view[x] == old(view[x])
        invariant pins == if recovering then old(pins) else old(pins) - set b | b in block[..tail]
      {
        var lbuf := view[c.start + tail + 1];
        ghost var w := Write(block[tail], lbuf);
        assert w == ws[tail];
        assert ws[..tail + 1] == ws[..tail] + [w];
        BWrite(block[tail], lbuf);
        assert block[..tail + 1] == block[..tail] + [block[tail]];
        if !recovering {
          assert block[tail] in pins;
          pins := pins - {block[tail]};
        }
        tail := tail + 1;
      }
      assert ws[..n] == ws;
    }

    method ReadHead()
      requires Valid() && WellFormed(c, view)
      modifies `n, `block
      ensures Valid() && Entries() == HeadEntries(c, view)
    {
      var lh := view[c.start];
      n := lh[0];
      var i := 0;
      while i < n
        invariant 0 <= i <= n && n == lh[0] && |block| == c.logBlocks
        invariant block[..i] == lh[1..1 + i]
      {
        block := block[i := lh[1 + i]];
        assert lh[1..1 + i + 1] == lh[1..1 + i] + [lh[1 + i]];
        i := i + 1;
      }
    }

    /** The body of recover_from_log. */
    method Replay()
      requires Valid() && dirty == {} && view == disk && WellFormed(c, disk)
      modifies `disk, `view, `io, `disks, `pins, `n, `block, `dirty
      ensures Valid() && dirty == {} && n == 0 && pins == old(pins) && old(disks) <= disks
      ensures io == old(io) + RecoverWrites(c, old(disk))
    {
      ReadHead();
      ghost var install := InstallWrites(c, view, Entries());
      InstallTrans(true);
      n := 0;
      WriteHead();
      assert Entries() == [];
      assert RecoverWrites(c, old(disk)) == install + [Write(c.start, StoreHead(old(disk)[c.start], []))];
      Regroup(old(io), install, [Write(c.start, StoreHead(old(disk)[c.start], []))], [], []);
    }

    /** Run at boot, with an empty cache, on whatever disk the last crash left. */
    method RecoverFromLog()
      requires Valid() && dirty == {} && view == disk && WellFormed(c, disk)
      modifies `disk, `view, `io, `disks, `pins, `n, `block, `dirty
      ensures Valid() && dirty == {} && n == 0 && pins == old(pins) && old(disks) <= disks
      ensures io == old(io) + RecoverWrites(c, old(disk))
      ensures view == disk == Recovered(c, old(disk)) && WellFormed(c, disk) && HeadEntries(c, disk) == []
      ensures CrashSafe(c, disks, |old(io)|, 0, Recovered(c, old(disk)), Recovered(c, old(disk)))
    {
      ghost var d, from := disk, |io|;
      Replay();
      assert disks[from] == d && io[from..] == RecoverWrites(c, d);
      Completed(disks, io, from);
      RecoveredIsLogical(c, d);
      RecoveryCrashSafe(c, disks, io, from);
    }

    /** Called by the last end_op, with no operation outstanding: every change has been logged. */
    method Commit()
      requires Ready() && changed == {}
      modifies `disk, `view, `io, `disks, `pins, `n, `dirty
      ensures Ready() && dirty == {} && n == 0 && old(disks) <= disks
      ensures io == old(io) + CommitWrites(c, old(view), old(Entries()))
      ensures view == disk == Apply(old(disk), CommitWrites(c, old(view), old(Entries())))
      ensures forall b :: c.Home(b) ==> disk[b] == old(view[b])
      ensures CrashSafe(c, disks, |old(io)|, old(n), old(disk), old(view))
    {
      ghost var lh := Entries();
      WriteGroup();
      assert disks[|old(io)|] == old(disk) && io[|old(io)|..] == CommitWrites(c, old(view), lh);
      Completed(disks, io, |old(io)|);
      CommitCompletes(c, old(disk), old(view), lh);
      CommitCrashSafe(c, disks, io, |old(io)|, old(view), lh);
      assert Entries() == [];
    }

    /** The body of commit. */
    method WriteGroup()
      requires Valid() && EntriesOk(c, Entries()) && pins == set b | b in Entries()
      requires dirty <= set b | b in Entries()
      modifies `disk, `view, `io, `disks, `pins, `n, `dirty
      ensures Valid() && dirty == {} && n == 0 && pins == {} && old(disks) <= disks
      ensures io == old(io) + CommitWrites(c, old(view), old(Entries()))
    {
      ghost var lh := Entries();
      if n > 0 {
        WriteLog();
        CommitPieces(old(io), c, old(view), view, lh);
        WriteHead();
        InstallTrans(false);
        n := 0;
        WriteHead();
        assert Entries() == [];
        assert io == old(io) + CommitWrites(c, old(view), lh);
      } else {
        assert lh == [];
      }
    }

    /** An operation stores `data` into the buffer of block `b`, which it holds. */
    method Change(b: nat, data: Block)
      requires Ready() && c.Home(b) && |data| == c.words
      modifies `view, `dirty, `changed
      ensures Ready() && view == old(view)[b := data] && changed == old(changed) + {b}
    {
      view := view[b := data];
      dirty := dirty + {b};
      changed := changed + {b};
    }

    /** log_write of buffer `b`: the caller holds it and has put its new data into the cache. */
    method LogWrite(b: int) returns (r: Outcome)
      requires Ready() && c.Home(b)
      modifies `n, `block, `pins, `changed
      ensures Ready()
      ensures r.Panic? <==> old(n) >= c.logBlocks || outstanding < 1
      ensures r.Panic? ==> n == old(n) && block == old(block) && pins == old(pins) && changed == old(changed)
      ensures r.Done? ==> changed == old(changed) - {b}
      ensures r.Done? ==> Entries() == Absorb(old(Entries()), b)
      ensures r.Done? ==> pins == old(pins) + if b in old(Entries()) then {} else {b}
    {
      if n >= c.logBlocks {
        return Panic("too big a transaction");
      }
      if outstanding < 1 {
        return Panic("log_write outside of trans");
      }
      var i := 0;
      while i < n && block[i] != b
        invariant 0 <= i <= n
        invariant b !in block[..i]
      {
        i := i + 1;
      }
      block := block[i := b];
      if i == n {
        pins := pins + {b};
        n := n + 1;
        assert Entries() == old(Entries()) + [b];
      } else {
        assert block == old(block);
      }
      AbsorbKeeps(c, old(Entries()), b);
      changed := changed - {b};
      return Done;
    }

    /** One pass of the loop of begin_op: false means the caller sleeps and tries again. */
    method BeginOp() returns (started: bool)
      requires Ready()
      modifies `outstanding
      ensures Ready()
      ensures started <==> CanBegin(c, n, old(outstanding), committing)
      ensures outstanding == old(outstanding) + if started then 1 else 0
    {
      if committing {
        started := false;
      } else if n + (outstanding + 1) * c.maxOp > c.logBlocks {
        started := false;
      } else {
        outstanding := outstanding + 1;
        started := true;
      }
    }

    /** end_op, by a caller that has logged all it changed: the last one out commits for the whole group. */
    method EndOp() returns (r: Outcome)
      requires Ready() && (outstanding == 1 ==> changed == {})
      modifies this
      ensures Ready() && outstanding == old(outstanding) - 1 && changed == old(changed)
      ensures r.Panic? <==> old(committing)
      ensures committing == old(committing)
      ensures r.Panic? || outstanding != 0 ==>
        io == old(io) && disks == old(disks) && disk == old(disk) && view == old(view)
      ensures r.Panic? || outstanding != 0 ==> n == old(n) && block == old(block) && pins == old(pins)
      ensures r.Panic? || outstanding != 0 ==> dirty == old(dirty)
      ensures r.Done? && outstanding == 0 ==> n == 0 && dirty == {} && old(disks) <= disks
      ensures r.Done? && outstanding == 0 ==> io == old(io) + CommitWrites(c, old(view), old(Entries()))
      ensures r.Done? && outstanding == 0 ==>
        view == disk == Apply(old(disk), CommitWrites(c, old(view), old(Entries())))
      ensures r.Done? && outstanding == 0 ==> forall b :: c.Home(b) ==> disk[b] == old(view[b])
      ensures r.Done? && outstanding == 0 ==> CrashSafe(c, disks, |old(io)|, old(n), old(disk), old(view))
    {
      var doCommit := false;
      outstanding := outstanding - 1;
      if committing {
        return Panic("log.committing");
      }
      if outstanding == 0 {
        doCommit := true;
        committing := true;
      }
      if doCommit {
        Commit();
        committing := false;
      }
      r := Done;
    }
  }
}
