/**
 Every interleaving of file-system operations, group commits, crashes and recoveries.

 `hist` lists the block writes of all operations, in the order they happened, that no crash has
 wiped out; the first `durable` of them survive any crash.  The theorems say that the disk
 always replays to exactly that durable prefix, that the prefix never splits an operation
 and never shrinks, and when the log can overflow.
 */
module LogRuns {
  import opened RedoLog
  import opened LogManager

  datatype OpWrite = OpWrite(op: nat, write: Write)

  /** An operation between its begin_op and end_op, with the header entries it added so far. */
  datatype Op = Op(id: nat, appended: nat)

  datatype State = State(
    disk: Disk, view: Disk, lh: seq<int>,
    active: seq<Op>, committing: bool, recovering: bool, nextId: nat,
    hist: seq<OpWrite>, durable: nat)

  datatype Event =
    | Begin                                     // a begin_op that gets past its loop
    | Put(i: nat, b: int, data: Block)          // operation i changes a buffer and calls log_write
    | End(i: nat)                               // end_op
    | Commit                                    // the whole of commit()
    | Crash                                     // power failure outside a commit's writes
    | CrashInCommit(k: nat)                     // ... after the first k writes of a commit
    | CrashInRecovery(k: nat)                   // ... after the first k writes of a recovery
    | Recover                                   // recover_from_log, to its end

  /** What every state of a run satisfies so that the steps are defined. */
  ghost predicate Typed(c: Config, s: State) {
    && c.Ok() && Shaped(c, s.disk) && Shaped(c, s.view) && EntriesOk(c, s.lh)
    && (s.recovering ==> WellFormed(c, s.disk))
    && s.durable <= |s.hist|
  }

  ghost predicate Enabled(c: Config, s: State, e: Event) {
    && Typed(c, s)
    && match e
       case Begin => !s.recovering && CanBegin(c, |s.lh|, |s.active|, s.committing)
       case Put(i, b, data) =>
         !s.recovering && i < |s.active| && c.Home(b) && |data| == c.words && |s.lh| < c.logBlocks
       case End(i) => !s.recovering && i < |s.active|
       case Commit => !s.recovering && s.committing
       case Crash => !s.recovering
       case CrashInCommit(k) => !s.recovering && s.committing && k <= |CommitWrites(c, s.view, s.lh)|
       case CrashInRecovery(k) => s.recovering && k <= |RecoverWrites(c, s.disk)|
       case Recover => s.recovering
  }

  /** Power is gone: memory is lost, and of the history only what the disk decides to keep. */
  ghost function Restart(s: State, disk: Disk, durable: nat): State
    requires durable <= |s.hist|
  {
    State(disk, disk, [], [], false, true, s.nextId, s.hist[..durable], durable)
  }

  ghost function Step(c: Config, s: State, e: Event): State
    requires Enabled(c, s, e)
  {
    match e
    case Begin => s.(active := s.active + [Op(s.nextId, 0)], nextId := s.nextId + 1)
    case Put(i, b, data) =>
      var op := s.active[i];
      s.(view := s.view[b := data], lh := Absorb(s.lh, b),
         active := s.active[i := Op(op.id, op.appended + if b in s.lh then 0 else 1)],
         hist := s.hist + [OpWrite(op.id, Write(b, data))])
    case End(i) =>
      var rest := s.active[..i] + s.active[i + 1..];
      s.(active := rest, committing := s.committing || rest == [])
    case Commit =>
      var disk := Apply(s.disk, CommitWrites(c, s.view, s.lh));
      s.(disk := disk, view := disk, lh := [], committing := false, durable := |s.hist|)
    case Crash => Restart(s, s.disk, s.durable)
    case CrashInCommit(k) =>
      Restart(s, Apply(s.disk, CommitWrites(c, s.view, s.lh)[..k]), if k > |s.lh| then |s.hist| else s.durable)
    case CrashInRecovery(k) => s.(disk := Apply(s.disk, RecoverWrites(c, s.disk)[..k]))
    case Recover => s.(disk := Recovered(c, s.disk), view := Recovered(c, s.disk), recovering := false)
  }

  /** What a history of writes does to the initial disk. */
  ghost function Effect(base: Disk, hist: seq<OpWrite>): (r: Disk)
    ensures |r| == |base|
  {
    if hist == [] then base else
      var before := Effect(base, hist[..|hist| - 1]);
      var w := hist[|hist| - 1].write;
      if w.block < |base| then before[w.block := w.data] else before
  }

  ghost predicate SameHome(c: Config, d: Disk, d': Disk) {
    |d| == |d'| == c.size && forall b :: c.Home(b) ==> d[b] == d'[b]
  }

  // ----- The invariant, one part per concern -----

  /** The disk holds the durable history, the cache all of it. */
  ghost predicate DataInv(c: Config, base: Disk, s: State) {
    && Typed(c, s) && |base| == c.size
    && (!s.recovering ==>
         && ReadyToCommit(c, s.disk, s.view, s.lh)
         && SameHome(c, s.disk, Effect(base, s.hist[..s.durable]))
         && SameHome(c, s.view, Effect(base, s.hist)))
    && (s.recovering ==>
         && s.durable == |s.hist|
         && forall b :: c.Home(b) ==> Logical(c, s.disk, b) == Effect(base, s.hist)[b])
  }

  /** No operation is active during a commit or recovery, and none has writes on both sides of `durable`. */
  ghost predicate OpInv(s: State) {
    && (s.committing || s.recovering ==> s.active == [])
    && s.durable <= |s.hist|
    && (forall a :: 0 <= a < |s.active| ==> s.active[a].id < s.nextId)
    && (forall j :: 0 <= j < |s.hist| ==> s.hist[j].op < s.nextId)
    && (forall j, a :: 0 <= j < s.durable && 0 <= a < |s.active| ==> s.hist[j].op != s.active[a].id)
    && (forall i, j :: 0 <= i < s.durable <= j < |s.hist| ==> s.hist[i].op != s.hist[j].op)
  }

  ghost predicate Inv(c: Config, base: Disk, s: State) {
    DataInv(c, base, s) && OpInv(s)
  }

  /** A freshly made file system: empty log, empty cache. */
  ghost predicate Init(c: Config, base: Disk, s: State) {
    && WellFormed(c, base) && HeadEntries(c, base) == []
    && s == State(base, base, [], [], false, false, 0, [], 0)
  }

  lemma InitInv(c: Config, base: Disk, s: State)
    requires Init(c, base, s)
    ensures Inv(c, base, s)
  {
  }

  /** Nothing durable is ever lost. */
  ghost predicate Extends(s: State, s': State)
    requires s.durable <= |s.hist| && s'.durable <= |s'.hist|
  {
    s.hist[..s.durable] <= s'.hist[..s'.durable]
  }

  lemma PutKeepsData(c: Config, base: Disk, s: State, e: Event)
    requires DataInv(c, base, s) && Enabled(c, s, e) && e.Put?
    ensures DataInv(c, base, Step(c, s, e))
  {
    var s' := Step(c, s, e);
    assert s'.hist[..|s'.hist| - 1] == s.hist;
    assert s'.hist[..s'.durable] == s.hist[..s.durable];
    AbsorbOk(c, s.lh, e.b);
  }

  lemma AbsorbOk(c: Config, lh: seq<int>, b: int)
    requires EntriesOk(c, lh) && c.Home(b) && |lh| < c.logBlocks
    ensures EntriesOk(c, Absorb(lh, b))
    ensures b in Absorb(lh, b) && forall x :: x in lh ==> x in Absorb(lh, b)
  {
  }

  lemma CommitKeepsData(c: Config, base: Disk, s: State)
    requires DataInv(c, base, s) && Enabled(c, s, Commit)
    ensures DataInv(c, base, Step(c, s, Commit))
  {
    CommitCompletes(c, s.disk, s.view, s.lh);
    var s' := Step(c, s, Commit);
    assert s'.hist[..s'.durable] == s.hist;
  }

  lemma CrashKeepsData(c: Config, base: Disk, s: State, e: Event)
    requires DataInv(c, base, s) && Enabled(c, s, e) && (e.Crash? || e.CrashInCommit?)
    ensures DataInv(c, base, Step(c, s, e))
  {
    if e.CrashInCommit? {
      CommitIsAtomic(c, s.disk, s.view, s.lh, e.k);
      assert s.hist[..|s.hist|] == s.hist;
    }
  }

  lemma RecoveryKeepsData(c: Config, base: Disk, s: State, e: Event)
    requires DataInv(c, base, s) && Enabled(c, s, e) && (e.CrashInRecovery? || e.Recover?)
    ensures DataInv(c, base, Step(c, s, e))
  {
    var s' := Step(c, s, e);
    assert s.hist[..s.durable] == s.hist;
    if e.CrashInRecovery? {
      RecoverPrefix(c, s.disk, e.k);
      forall b | c.Home(b) ensures Logical(c, s'.disk, b) == Effect(base, s'.hist)[b] {
        assert Logical(c, s.disk, b) == Logical(c, s'.disk, b);
      }
    } else {
      RecoveredIsLogical(c, s.disk);
    }
  }

  lemma StepKeepsOps(c: Config, s: State, e: Event)
    requires OpInv(s) && Enabled(c, s, e)
    ensures OpInv(Step(c, s, e))
  {
  }

  /** Every step keeps the invariant and every durable write. */
  lemma StepKeepsInv(c: Config, base: Disk, s: State, e: Event)
    requires Inv(c, base, s) && Enabled(c, s, e)
    ensures Inv(c, base, Step(c, s, e)) && Extends(s, Step(c, s, e))
  {
    StepKeepsOps(c, s, e);
    match e {
      case Begin =>
      case Put(_, _, _) => PutKeepsData(c, base, s, e);
      case End(_) =>
      case Commit => CommitKeepsData(c, base, s);
      case Crash => CrashKeepsData(c, base, s, e);
      case CrashInCommit(_) => CrashKeepsData(c, base, s, e);
      case CrashInRecovery(_) => RecoveryKeepsData(c, base, s, e);
      case Recover => RecoveryKeepsData(c, base, s, e);
    }
  }

  // ----- Whole runs -----

  ghost predicate Runs(c: Config, s: State, es: seq<Event>)
    decreases |es|
  {
    es == [] || (Enabled(c, s, es[0]) && Runs(c, Step(c, s, es[0]), es[1..]))
  }

  ghost function Final(c: Config, s: State, es: seq<Event>): State
    requires Runs(c, s, es)
    decreases |es|
  {
    if es == [] then s else Final(c, Step(c, s, es[0]), es[1..])
  }

  lemma {:induction false} RunKeepsInv(c: Config, base: Disk, s: State, es: seq<Event>)
    requires Inv(c, base, s) && Runs(c, s, es)
    ensures Inv(c, base, Final(c, s, es)) && Extends(s, Final(c, s, es))
    decreases |es|
  {
    if es != [] {
      StepKeepsInv(c, base, s, es[0]);
      RunKeepsInv(c, base, Step(c, s, es[0]), es[1..]);
    }
  }

  /**
   Crash safety of every run.  However operations, commits, crashes and recoveries are
   interleaved, once recovery has finished the home blocks hold exactly the durable history;
   that history contains all writes of an operation or none, and no longer-running operation;
   and whatever was durable earlier in the run still is.
   */
  lemma CrashSafety(c: Config, base: Disk, s0: State, es: seq<Event>, es': seq<Event>)
    requires Init(c, base, s0) && Runs(c, s0, es) && Runs(c, Final(c, s0, es), es')
    ensures var s := Final(c, Final(c, s0, es), es');
      && s.durable <= |s.hist|
      && (!s.recovering ==> SameHome(c, s.disk, Effect(base, s.hist[..s.durable])))
      && (forall i, j :: 0 <= i < s.durable <= j < |s.hist| ==> s.hist[i].op != s.hist[j].op)
      && (forall j, a :: 0 <= j < s.durable && 0 <= a < |s.active| ==> s.hist[j].op != s.active[a].id)
      && Final(c, s0, es).durable <= |Final(c, s0, es).hist| && Extends(Final(c, s0, es), s)
  {
    InitInv(c, base, s0);
    RunKeepsInv(c, base, s0, es);
    RunKeepsInv(c, base, Final(c, s0, es), es');
  }

  /** end_op's own panic is unreachable: no operation is active while a commit runs. */
  lemma EndNeverPanics(c: Config, base: Disk, s0: State, es: seq<Event>, i: nat)
    requires Init(c, base, s0) && Runs(c, s0, es) && Enabled(c, Final(c, s0, es), End(i))
    ensures !Final(c, s0, es).committing
  {
    InitInv(c, base, s0);
    RunKeepsInv(c, base, s0, es);
  }

  // ----- Durability -----

  /** The writes of the operations in a run, in order. */
  function PutWrites(es: seq<Event>): seq<Write> {
    if es == [] then []
    else if es[0].Put? && es[0].b >= 0 then [Write(es[0].b, es[0].data)] + PutWrites(es[1..])
    else PutWrites(es[1..])
  }

  function WritesOf(hist: seq<OpWrite>): (ws: seq<Write>)
    ensures |ws| == |hist|
  {
    seq(|hist|, i requires 0 <= i < |hist| => hist[i].write)
  }

  lemma WritesNext(hist: seq<OpWrite>, w: OpWrite)
    ensures WritesOf(hist + [w]) == WritesOf(hist) + [w.write]
  {
  }

  predicate NoCrash(es: seq<Event>) {
    forall i :: 0 <= i < |es| ==> !es[i].Crash? && !es[i].CrashInCommit?
  }

  /** Between crashes the history is what the operations wrote, all of it and in order. */
  lemma {:induction false} HistoryIsWrites(c: Config, s: State, es: seq<Event>)
    requires Runs(c, s, es) && NoCrash(es)
    ensures WritesOf(Final(c, s, es).hist) == WritesOf(s.hist) + PutWrites(es)
    decreases |es|
  {
    if es != [] {
      var s' := Step(c, s, es[0]);
      HistoryIsWrites(c, s', es[1..]);
      if es[0].Put? {
        var w := [Write(es[0].b, es[0].data)];
        WritesNext(s.hist, OpWrite(s.active[es[0].i].id, w[0]));
        assert PutWrites(es) == w + PutWrites(es[1..]);
        assert (WritesOf(s.hist) + w) + PutWrites(es[1..]) == WritesOf(s.hist) + (w + PutWrites(es[1..]));
      } else {
        assert s'.hist == s.hist;
      }
    }
  }

  /**
   Once a commit is done, everything written before it is on disk for good: whatever happens later, crashes and
   recoveries included, the history that the disk holds begins with all of it.
   */
  lemma CommitIsForGood(c: Config, base: Disk, s0: State, es: seq<Event>, es': seq<Event>)
    requires Init(c, base, s0) && Runs(c, s0, es) && Enabled(c, Final(c, s0, es), Commit)
    requires Runs(c, Step(c, Final(c, s0, es), Commit), es')
    ensures var s, t := Final(c, s0, es), Final(c, Step(c, Final(c, s0, es), Commit), es');
      && t.durable <= |t.hist| && s.hist <= t.hist[..t.durable]
      && SameHome(c, Step(c, s, Commit).disk, Effect(base, s.hist))
  {
    InitInv(c, base, s0);
    RunKeepsInv(c, base, s0, es);
    var s := Final(c, s0, es);
    StepKeepsInv(c, base, s, Commit);
    var s' := Step(c, s, Commit);
    RunKeepsInv(c, base, s', es');
    assert s'.hist[..s'.durable] == s.hist;
  }

  // ----- The procedures of log.c take the steps of the machine -----

  /** The log in memory and on disk is as in a state of the machine, between operations' log_write calls. */
  ghost predicate Models(log: Log, c: Config, s: State)
    reads log
  {
    && log.Ready() && log.c == c && log.changed == {} && !s.recovering && Typed(c, s)
    && log.disk == s.disk && log.view == s.view && log.Entries() == s.lh
    && log.outstanding == |s.active| && log.committing == s.committing
  }

  /** initlog: the log after a crash is that of the machine after Recover. */
  method RunInitlog(c: Config, d: Disk, ghost s: State) returns (log: Log, ghost s': State)
    requires Typed(c, s) && s.recovering && s.disk == d && s.lh == [] && s.active == [] && !s.committing
    ensures Enabled(c, s, Recover) && s' == Step(c, s, Recover) && Models(log, c, s')
  {
    log := new Log(c, d);
    s' := Step(c, s, Recover);
    assert log.Entries() == [];
  }

  /** begin_op gets past its loop exactly when the machine can begin an operation, and then has begun one. */
  method RunBeginOp(log: Log, c: Config, ghost s: State) returns (started: bool, ghost s': State)
    requires Models(log, c, s)
    modifies log`outstanding
    ensures (started <==> Enabled(c, s, Begin)) && s' == if started then Step(c, s, Begin) else s
    ensures Models(log, c, s')
  {
    started := log.BeginOp();
    s' := if started then Step(c, s, Begin) else s;
  }

  /** A change to a buffer and its log_write: a Put, or the panic exactly when the header is full. */
  method RunPut(log: Log, c: Config, ghost s: State, ghost i: nat, b: nat, data: Block)
    returns (r: Outcome, ghost s': State)
    requires Models(log, c, s) && i < |s.active| && c.Home(b) && |data| == c.words
    modifies log
    ensures r.Panic? <==> TooBig(c, s, Put(i, b, data))
    ensures r.Done? ==> Enabled(c, s, Put(i, b, data)) && s' == Step(c, s, Put(i, b, data)) && Models(log, c, s')
  {
    log.Change(b, data);
    r := log.LogWrite(b);
    if r.Done? {
      s' := Step(c, s, Put(i, b, data));
    } else {
      s' := s;
    }
  }

  /** The states of the machine after end_op of operation i, which commits if it was the last. */
  ghost function Ended(c: Config, s: State, i: nat): State
    requires Enabled(c, s, End(i))
  {
    var s1 := Step(c, s, End(i));
    if s1.active == [] && Enabled(c, s1, Commit) then Step(c, s1, Commit) else s1
  }

  lemma CrashPointsAre(c: Config, disks: seq<Disk>, io: seq<Write>, from: nat, view: Disk, lh: seq<int>)
    requires CrashPoints(disks, io) && from <= |io|
    requires c.Ok() && Shaped(c, view) && EntriesOk(c, lh) && io[from..] == CommitWrites(c, view, lh)
    ensures forall k :: 0 <= k <= |CommitWrites(c, view, lh)| ==>
      from + k < |disks| && disks[from + k] == Apply(disks[from], CommitWrites(c, view, lh)[..k])
  {
    var ws := CommitWrites(c, view, lh);
    forall k | 0 <= k <= |ws| ensures from + k < |disks| && disks[from + k] == Apply(disks[from], ws[..k]) {
      CrashPointIsApply(disks, io, from, from + k);
      assert io[from..from + k] == ws[..k];
    }
  }

  /** The disks from `from` on are those that a crash in the machine's commit leaves. */
  ghost predicate CrashDisks(c: Config, s: State, disks: seq<Disk>, from: nat) {
    && Typed(c, s) && s.committing && !s.recovering
    && forall k :: 0 <= k <= |CommitWrites(c, s.view, s.lh)| ==>
         from + k < |disks| && disks[from + k] == Step(c, s, CrashInCommit(k)).disk
  }

  lemma CommitCrashes(c: Config, s: State, disks: seq<Disk>, io: seq<Write>, from: nat)
    requires CrashPoints(disks, io) && from <= |io| && Typed(c, s) && s.committing && !s.recovering
    requires disks[from] == s.disk && io[from..] == CommitWrites(c, s.view, s.lh)
    ensures CrashDisks(c, s, disks, from)
  {
    CrashPointsAre(c, disks, io, from, s.view, s.lh);
  }

  /** What end_op does to the machine. */
  lemma EndedIs(c: Config, s: State, i: nat)
    requires Typed(c, s) && !s.recovering && i < |s.active| && OpInv(s)
    ensures !s.committing && Enabled(c, s, End(i)) && var s1, s' := Step(c, s, End(i)), Ended(c, s, i);
      && |s1.active| == |s.active| - 1 && s1.view == s.view && s1.lh == s.lh && s1.disk == s.disk && Typed(c, s1)
      && !s1.recovering && (|s.active| > 1 ==> s' == s1 && !s'.committing)
      && (|s.active| == 1 ==>
            var disk := Apply(s.disk, CommitWrites(c, s.view, s.lh));
            s1.committing && !s'.committing && s'.disk == s'.view == disk && s'.lh == [] && s'.active == []
            && s'.durable == |s'.hist|)
      && !s'.recovering
  {
  }

  /**
   end_op: an End, and a Commit if it was the last.  It does not panic, and the disk at each crash point of the commit
   is the one that a crash in the machine's commit leaves.
   */
  method RunEndOp(log: Log, c: Config, ghost s: State, ghost i: nat) returns (r: Outcome, ghost s': State)
    requires Models(log, c, s) && OpInv(s) && i < |s.active|
    modifies log
    ensures r.Done? && Enabled(c, s, End(i)) && s' == Ended(c, s, i) && Models(log, c, s')
    ensures |s.active| == 1 ==> CrashDisks(c, Step(c, s, End(i)), log.disks, |old(log.io)|)
  {
    ghost var from := |log.io|;
    EndedIs(c, s, i);
    r := log.EndOp();
    s' := Ended(c, s, i);
    if |s.active| == 1 {
      assert log.disks[from] == s.disk && log.io[from..] == CommitWrites(c, s.view, s.lh);
      CommitCrashes(c, Step(c, s, End(i)), log.disks, log.io, from);
      assert log.Entries() == [];
    }
  }

  // ----- Log space -----

  /** Header slots that active operations may still ask for. */
  ghost function Reserved(c: Config, active: seq<Op>): int {
    if active == [] then 0 else Reserved(c, active[..|active| - 1]) + c.maxOp - active[|active| - 1].appended
  }

  /** Each operation adds at most `m` entries to the header. */
  ghost predicate WithinBudget(s: State, e: Event, m: nat) {
    e.Put? && e.i < |s.active| && e.b !in s.lh ==> s.active[e.i].appended < m
  }

  ghost predicate BudgetedRuns(c: Config, s: State, es: seq<Event>, m: nat)
    decreases |es|
  {
    es == [] ||
    (Enabled(c, s, es[0]) && WithinBudget(s, es[0], m) && BudgetedRuns(c, Step(c, s, es[0]), es[1..], m))
  }

  /** log_write would stop the kernel with "too big a transaction". */
  ghost predicate TooBig(c: Config, s: State, e: Event) {
    e.Put? && !s.recovering && e.i < |s.active| && c.Home(e.b) && |e.data| == c.words && |s.lh| >= c.logBlocks
  }

  ghost predicate SpaceInv(c: Config, s: State, m: nat) {
    && |s.lh| + Reserved(c, s.active) <= c.logBlocks
    && (forall a :: 0 <= a < |s.active| ==> s.active[a].appended <= m)
    && (s.committing ==> s.active == [])
  }

  lemma {:induction false} ReservedBounds(c: Config, active: seq<Op>, m: nat)
    requires m <= c.maxOp && forall a :: 0 <= a < |active| ==> active[a].appended <= m
    ensures |active| * (c.maxOp - m) <= Reserved(c, active) <= |active| * c.maxOp
  {
    if active != [] {
      var rest := active[..|active| - 1];
      ReservedBounds(c, rest, m);
      assert |active| * (c.maxOp - m) == |rest| * (c.maxOp - m) + (c.maxOp - m);
      assert |active| * c.maxOp == |rest| * c.maxOp + c.maxOp;
    }
  }

  lemma {:induction false} ReservedUpdate(c: Config, active: seq<Op>, i: nat, op: Op)
    requires i < |active|
    ensures Reserved(c, active[i := op]) == Reserved(c, active) + active[i].appended - op.appended
  {
    var n := |active| - 1;
    if i < n {
      ReservedUpdate(c, active[..n], i, op);
      assert active[i := op][..n] == active[..n][i := op];
    } else {
      assert active[i := op][..n] == active[..n];
    }
  }

  lemma {:induction false} ReservedRemove(c: Config, active: seq<Op>, i: nat)
    requires i < |active|
    ensures Reserved(c, active[..i] + active[i + 1..]) == Reserved(c, active) - c.maxOp + active[i].appended
  {
    var n := |active| - 1;
    var rest := active[..i] + active[i + 1..];
    if i < n {
      ReservedRemove(c, active[..n], i);
      assert rest[..n - 1] == active[..n][..i] + active[..n][i + 1..];
      assert rest[n - 1] == active[n];
    } else {
      assert rest == active[..n];
    }
  }

  lemma StepKeepsSpace(c: Config, s: State, e: Event, m: nat)
    requires SpaceInv(c, s, m) && m <= c.maxOp && Enabled(c, s, e) && WithinBudget(s, e, m)
    ensures SpaceInv(c, Step(c, s, e), m)
  {
    ReservedBounds(c, s.active, m);
    match e {
      case Begin =>
        var s' := Step(c, s, e);
        assert s'.active[..|s.active|] == s.active;
        assert (|s.active| + 1) * c.maxOp == |s.active| * c.maxOp + c.maxOp;
      case Put(i, b, data) =>
        ReservedUpdate(c, s.active, i, Step(c, s, e).active[i]);
      case End(i) =>
        ReservedRemove(c, s.active, i);
      case _ =>
    }
  }

  lemma {:induction false} RunKeepsSpace(c: Config, s: State, es: seq<Event>, m: nat)
    requires SpaceInv(c, s, m) && m <= c.maxOp && BudgetedRuns(c, s, es, m)
    ensures Runs(c, s, es) && SpaceInv(c, Final(c, s, es), m)
    decreases |es|
  {
    if es != [] {
      StepKeepsSpace(c, s, es[0], m);
      RunKeepsSpace(c, Step(c, s, es[0]), es[1..], m);
    }
  }

  lemma ReservedPositive(c: Config, active: seq<Op>, i: nat)
    requires i < |active| && active[i].appended < c.maxOp
    requires forall a :: 0 <= a < |active| ==> active[a].appended <= c.maxOp
    ensures 1 <= Reserved(c, active)
  {
    ReservedRemove(c, active, i);
    ReservedBounds(c, active[..i] + active[i + 1..], c.maxOp);
  }

  /**
   If every operation adds at most MAXOPBLOCKS header entries, no operation that has entries left
   ever finds the header full: begin_op reserves enough.  If it adds fewer, even its absorbed
   writes never meet a full header, so the panic of log_write is unreachable.
   */
  lemma LogSpace(c: Config, base: Disk, s0: State, es: seq<Event>, m: nat, e: Event)
    requires Init(c, base, s0) && m <= c.maxOp && BudgetedRuns(c, s0, es, m)
    ensures Runs(c, s0, es)
    ensures var s := Final(c, s0, es);
      TooBig(c, s, e) && WithinBudget(s, e, m) ==> m == c.maxOp && e.b in s.lh
  {
    RunKeepsSpace(c, s0, es, m);
    var s := Final(c, s0, es);
    if e.Put? && e.i < |s.active| && s.active[e.i].appended < c.maxOp {
      ReservedPositive(c, s.active, e.i);
    }
  }

  // ----- Budgets of MAXOPBLOCKS do reach the panic -----

  lemma {:induction false} BeginAll(c: Config, s: State, q: nat) returns (es: seq<Event>)
    requires Typed(c, s) && !s.recovering && !s.committing && s.lh == []
    requires forall a :: 0 <= a < |s.active| ==> s.active[a].appended == 0
    requires (|s.active| + q) * c.maxOp <= c.logBlocks
    ensures BudgetedRuns(c, s, es, c.maxOp) && Runs(c, s, es)
    ensures var s' := Final(c, s, es);
      && Typed(c, s') && !s'.recovering && !s'.committing && s'.lh == []
      && |s'.active| == |s.active| + q
      && (forall a :: 0 <= a < |s'.active| ==> s'.active[a].appended == 0)
    decreases q
  {
    es := [];
    if q > 0 {
      assert (|s.active| + 1) * c.maxOp <= (|s.active| + q) * c.maxOp;
      var rest := BeginAll(c, Step(c, s, Begin), q - 1);
      es := [Begin] + rest;
      assert es[1..] == rest;
    }
  }

  /** How many of the first j header entries operation t added, when each fills up in turn. */
  ghost function Share(c: Config, j: nat, t: nat): int {
    var first := t * c.maxOp;
    if j <= first then 0 else if first + c.maxOp <= j then c.maxOp else j - first
  }

  lemma MulBefore(x: nat, y: nat, m: nat)
    requires x < y
    ensures x * m + m <= y * m
  {
    assert (y - x - 1) * m >= 0;
    assert y * m == x * m + m + (y - x - 1) * m;
  }

  /** The operation that adds entry number j. */
  lemma Filler(c: Config, j: nat, q: nat) returns (i: nat)
    requires 0 < c.maxOp && j < q * c.maxOp
    ensures i < q && i * c.maxOp <= j < i * c.maxOp + c.maxOp
  {
    i := j / c.maxOp;
    if q <= i { MulMonotone(q, i, c.maxOp); }
  }

  lemma MulMonotone(x: nat, y: nat, m: nat)
    requires x <= y
    ensures x * m <= y * m
  {
  }

  lemma ShareNext(c: Config, j: nat, i: nat, t: nat)
    requires i * c.maxOp <= j < i * c.maxOp + c.maxOp
    ensures Share(c, j + 1, t) == Share(c, j, t) + if t == i then 1 else 0
  {
    if t < i { MulBefore(t, i, c.maxOp); }
    if i < t { MulBefore(i, t, c.maxOp); }
  }

  lemma {:induction false} FillLog(c: Config, s: State, bs: seq<int>, data: Block) returns (es: seq<Event>)
    requires Typed(c, s) && !s.recovering && |data| == c.words
    requires EntriesOk(c, bs) && |bs| == c.logBlocks == |s.active| * c.maxOp && s.lh <= bs
    requires forall a :: 0 <= a < |s.active| ==> s.active[a].appended == Share(c, |s.lh|, a)
    ensures BudgetedRuns(c, s, es, c.maxOp) && Runs(c, s, es)
    ensures var s' := Final(c, s, es); s'.lh == bs && |s'.active| == |s.active| && !s'.recovering
    decreases |bs| - |s.lh|
  {
    es := [];
    var j := |s.lh|;
    if j < |bs| {
      var i := Filler(c, j, |s.active|);
      var e := Put(i, bs[j], data);
      AbsorbOk(c, s.lh, e.b);
      var s' := Step(c, s, e);
      assert bs[j] !in s.lh;
      forall a | 0 <= a < |s'.active| ensures s'.active[a].appended == Share(c, j + 1, a) {
        ShareNext(c, j, i, a);
      }
      var rest := FillLog(c, s', bs, data);
      es := [e] + rest;
      assert es[1..] == rest;
    }
  }

  /**
   The bound of LogSpace is exact: when the log holds a whole number of full-sized operations, as
   LOGBLOCKS = 3 * MAXOPBLOCKS does, operations that each add MAXOPBLOCKS entries reach
   a state where rewriting an already logged block stops the kernel.
   */
  lemma FullBudgetPanics(c: Config, base: Disk, s0: State, bs: seq<int>, data: Block, q: nat)
    returns (es: seq<Event>)
    requires Init(c, base, s0) && 0 < q && c.logBlocks == q * c.maxOp
    requires EntriesOk(c, bs) && |bs| == c.logBlocks && |data| == c.words
    ensures BudgetedRuns(c, s0, es, c.maxOp) && Runs(c, s0, es)
    ensures var s := Final(c, s0, es); TooBig(c, s, Put(0, bs[0], data)) && bs[0] in s.lh
  {
    var begins := BeginAll(c, s0, q);
    var s1 := Final(c, s0, begins);
    forall a | 0 <= a < q ensures Share(c, 0, a) == 0 {
      assert 0 <= a * c.maxOp;
    }
    var fills := FillLog(c, s1, bs, data);
    es := begins + fills;
    Chain(c, s0, begins, fills, c.maxOp);
  }

  lemma {:induction false} Chain(c: Config, s: State, es: seq<Event>, es': seq<Event>, m: nat)
    requires BudgetedRuns(c, s, es, m) && Runs(c, s, es)
    requires BudgetedRuns(c, Final(c, s, es), es', m) && Runs(c, Final(c, s, es), es')
    ensures BudgetedRuns(c, s, es + es', m) && Runs(c, s, es + es')
    ensures Final(c, s, es + es') == Final(c, Final(c, s, es), es')
    decreases |es|
  {
    if es == [] {
      assert es + es' == es';
    } else {
      Chain(c, Step(c, s, es[0]), es[1..], es', m);
      assert (es + es')[1..] == es[1..] + es';
    }
  }
}
