/**
 The language of the shell (user/sh.c) as a grammar over tokens, independent of the parser:

   line  ::= job | job ';' line
   job   ::= pipe | job '&'
   pipe  ::= exec | exec '|' pipe
   exec  ::= block | simple
   block ::= '(' line ')' | block redir
   simple is any mixture of redirs and fewer than MAXARGS words, none at all included
   redir ::= ('<' | '>' | '>>') word

 The parser accepts exactly the lines that have a derivation, and gives the command derived.
 */
module ShellLanguage {
  import opened Folding
  import opened ShellGrammar

  // ----- Tokens -----

  datatype Tok = Tok(kind: char, span: Span)

  /** The tokens of the line from i on. */
  function Tokens(s: string, i: nat): seq<Tok>
    requires i <= |s|
    decreases |s| - i
  {
    var t := GetToken(s, i);
    if t.kind == '\0' then [] else [Tok(t.kind, t.span)] + Tokens(s, t.next)
  }

  predicate Within(s: string, t: Tok) { t.span.q < t.span.eq <= |s| }

  /** A whole word, ">>", or a symbol that is not the first half of ">>". */
  predicate TokOk(s: string, t: Tok) {
    Within(s, t) &&
    var q, eq := t.span.q, t.span.eq;
    if t.kind == 'a' then IsWord(s, t.span)
    else if t.kind == '+' then eq == q + 2 && s[q] == '>' && s[q + 1] == '>'
    else eq == q + 1 && Symbol(s[q]) && t.kind == s[q] && (s[q] == '>' && eq < |s| ==> s[eq] != '>')
  }

  predicate Has(t: Tok, k: nat) { t.span.q <= k < t.span.eq }

  ghost predicate Found(ts: seq<Tok>, k: nat) { exists m :: 0 <= m < |ts| && Has(ts[m], k) }

  /** Tokens in order, and none but white space between them. */
  ghost predicate Cuts(s: string, i: nat, ts: seq<Tok>) {
    && (forall m :: 0 <= m < |ts| ==> TokOk(s, ts[m]) && i <= ts[m].span.q)
    && (forall m, n :: 0 <= m < n < |ts| ==> ts[m].span.eq <= ts[n].span.q)
    && (forall k: nat :: i <= k < |s| && !White(s[k]) ==> Found(ts, k))
  }

  lemma {:induction false} SkipsWhite(s: string, i: nat)
    requires i <= |s|
    ensures forall k :: i <= k < Skip(s, i) ==> White(s[k])
    decreases |s| - i
  {
    if i < |s| && White(s[i]) {
      SkipsWhite(s, i + 1);
    }
  }

  lemma {:induction false} SkipTwice(s: string, i: nat)
    requires i <= |s|
    ensures Skip(s, Skip(s, i)) == Skip(s, i)
  {
    var j := Skip(s, i);
    assert j < |s| ==> !White(s[j]);
  }

  lemma FirstToken(s: string, i: nat)
    requires i <= |s|
    ensures var t := GetToken(s, i);
      if t.kind == '\0' then forall k :: i <= k < |s| ==> White(s[k])
      else
        && TokOk(s, Tok(t.kind, t.span)) && i <= t.span.q && t.span.eq <= t.next
        && (forall k :: i <= k < t.span.q ==> White(s[k])) && (forall k :: t.span.eq <= k < t.next ==> White(s[k]))
  {
    var q := Skip(s, i);
    SkipsWhite(s, i);
    if q < |s| {
      var t := GetToken(s, i);
      SkipsWhite(s, t.span.eq);
      assert Symbol(s[q]) ==> s[q] != '\0';
    }
  }

  lemma FoundNext(t: Tok, rest: seq<Tok>, k: nat)
    requires Has(t, k) || Found(rest, k)
    ensures Found([t] + rest, k)
  {
    var ts := [t] + rest;
    if Has(t, k) {
      assert Has(ts[0], k);
    } else {
      var m :| 0 <= m < |rest| && Has(rest[m], k);
      assert Has(ts[m + 1], k);
    }
  }

  lemma CutsNext(s: string, i: nat, t: Tok, next: nat, rest: seq<Tok>)
    requires TokOk(s, t) && i <= t.span.q && t.span.eq <= next && Cuts(s, next, rest)
    requires forall k :: i <= k < t.span.q ==> White(s[k])
    requires next <= |s| && forall k :: t.span.eq <= k < next ==> White(s[k])
    ensures Cuts(s, i, [t] + rest)
  {
    var ts := [t] + rest;
    forall k: nat | i <= k < |s| && !White(s[k]) ensures Found(ts, k) {
      FoundNext(t, rest, k);
    }
  }

  /** The tokens of a line are its words and symbols, all of them. */
  lemma {:induction false} TokensCut(s: string, i: nat)
    requires i <= |s|
    ensures Cuts(s, i, Tokens(s, i))
    decreases |s| - i
  {
    FirstToken(s, i);
    var t := GetToken(s, i);
    if t.kind != '\0' {
      TokensCut(s, t.next);
      CutsNext(s, i, Tok(t.kind, t.span), t.next, Tokens(s, t.next));
    }
  }

  // ----- The grammar, over ranges of tokens -----

  predicate Is(ts: seq<Tok>, k: nat, kind: char) { k < |ts| && ts[k].kind == kind }

  predicate IsOp(ts: seq<Tok>, k: nat) { Is(ts, k, '<') || Is(ts, k, '>') || Is(ts, k, '+') }

  predicate RedirAt(ts: seq<Tok>, k: nat) { IsOp(ts, k) && Is(ts, k + 1, 'a') }

  function TargetAt(ts: seq<Tok>, k: nat): Target
    requires RedirAt(ts, k)
  {
    Target(ts[k + 1].span, ModeOf(ts[k].kind))
  }

  /** Words and redirections in any order. */
  predicate Plain(ts: seq<Tok>, a: nat, b: nat)
    decreases b - a
  {
    a == b || (Is(ts, a, 'a') && a < b && Plain(ts, a + 1, b)) || (RedirAt(ts, a) && a + 2 <= b && Plain(ts, a + 2, b))
  }

  function Words(ts: seq<Tok>, a: nat, b: nat): seq<Span>
    decreases b - a
  {
    if a >= b then []
    else if Is(ts, a, 'a') then [ts[a].span] + Words(ts, a + 1, b)
    else if RedirAt(ts, a) then Words(ts, a + 2, b)
    else []
  }

  function FilesIn(ts: seq<Tok>, a: nat, b: nat): seq<Target>
    decreases b - a
  {
    if a >= b then []
    else if Is(ts, a, 'a') then FilesIn(ts, a + 1, b)
    else if RedirAt(ts, a) then [TargetAt(ts, a)] + FilesIn(ts, a + 2, b)
    else []
  }

  predicate Simple(ts: seq<Tok>, a: nat, b: nat, c: Cmd<Span>) {
    Plain(ts, a, b) && |Words(ts, a, b)| < MAXARGS && c == Wrap(Exec(Words(ts, a, b)), FilesIn(ts, a, b))
  }

  predicate IsBlock(ts: seq<Tok>, a: nat, b: nat, c: Cmd<Span>)
    decreases b - a, 0
  {
    || (a + 2 <= b && Is(ts, a, '(') && Is(ts, b - 1, ')') && IsLine(ts, a + 1, b - 1, c))
    || (a + 2 <= b && RedirAt(ts, b - 2) && c.Redir? && Target(c.file, c.mode) == TargetAt(ts, b - 2)
        && IsBlock(ts, a, b - 2, c.cmd))
  }

  predicate IsExec(ts: seq<Tok>, a: nat, b: nat, c: Cmd<Span>)
    decreases b - a, 1
  {
    IsBlock(ts, a, b, c) || Simple(ts, a, b, c)
  }

  predicate IsPipe(ts: seq<Tok>, a: nat, b: nat, c: Cmd<Span>)
    decreases b - a, 2
  {
    IsExec(ts, a, b, c) || exists k :: a <= k < b && PipeAt(ts, a, k, b, c)
  }

  predicate PipeAt(ts: seq<Tok>, a: nat, k: nat, b: nat, c: Cmd<Span>)
    requires a <= k < b
    decreases b - a, 1
  {
    Is(ts, k, '|') && c.Pipe? && IsExec(ts, a, k, c.left) && IsPipe(ts, k + 1, b, c.right)
  }

  predicate IsJob(ts: seq<Tok>, a: nat, b: nat, c: Cmd<Span>)
    decreases b - a, 3
  {
    IsPipe(ts, a, b, c) || (a < b && Is(ts, b - 1, '&') && c.Back? && IsJob(ts, a, b - 1, c.cmd))
  }

  predicate IsLine(ts: seq<Tok>, a: nat, b: nat, c: Cmd<Span>)
    decreases b - a, 4
  {
    IsJob(ts, a, b, c) || exists k :: a <= k < b && ListAt(ts, a, k, b, c)
  }

  predicate ListAt(ts: seq<Tok>, a: nat, k: nat, b: nat, c: Cmd<Span>)
    requires a <= k < b
    decreases b - a, 3
  {
    Is(ts, k, ';') && c.List? && IsJob(ts, a, k, c.left) && IsLine(ts, k + 1, b, c.right)
  }

  // ----- The parser's cursor among the tokens -----

  /** Cursor i of the line is at token a. */
  ghost predicate Cur(s: string, ts: seq<Tok>, i: nat, a: nat) {
    i <= |s| && a <= |ts| && forall k {:trigger Unfold(k)} :: Unfold(k) ==> Tokens(s, i) == ts[a..]
  }

  lemma EndToken(s: string, i: nat)
    requires i <= |s|
    ensures GetToken(s, i).kind == '\0' <==> Skip(s, i) == |s|
  {
    var q := Skip(s, i);
    assert q < |s| && Symbol(s[q]) ==> s[q] != '\0';
  }

  lemma NextTokens(s: string, ts: seq<Tok>, i: nat, a: nat)
    requires i <= |s| && a <= |ts| && Tokens(s, i) == ts[a..]
    ensures var t := GetToken(s, i);
      if a == |ts| then t.kind == '\0'
      else t.kind != '\0' && ts[a] == Tok(t.kind, t.span) && Tokens(s, t.next) == ts[a + 1..]
  {
    var t := GetToken(s, i);
    if t.kind != '\0' {
      var first, rest := [Tok(t.kind, t.span)], Tokens(s, t.next);
      assert ts[a..] == first + rest;
      assert ts[a] == ts[a..][0] && ts[a + 1..] == ts[a..][1..] && (first + rest)[1..] == rest;
    }
  }

  lemma NextTok(s: string, ts: seq<Tok>, i: nat, a: nat)
    requires Cur(s, ts, i, a)
    ensures var t := GetToken(s, i);
      if a == |ts| then t.kind == '\0' && Skip(s, i) == |s|
      else t.kind != '\0' && ts[a] == Tok(t.kind, t.span) && Cur(s, ts, t.next, a + 1)
  {
    assert Unfold(KEY);
    EndToken(s, i);
    NextTokens(s, ts, i, a);
  }

  lemma SkipTokens(s: string, i: nat)
    requires i <= |s|
    ensures Tokens(s, Skip(s, i)) == Tokens(s, i)
  {
    SkipTwice(s, i);
    assert GetToken(s, Skip(s, i)) == GetToken(s, i);
  }

  lemma SkipCur(s: string, ts: seq<Tok>, i: nat, a: nat)
    requires Cur(s, ts, i, a)
    ensures Cur(s, ts, Skip(s, i), a)
  {
    assert Unfold(KEY);
    SkipTokens(s, i);
  }

  /** The first character of a symbol. */
  function Head(kind: char): char { if kind == '+' then '>' else kind }

  lemma PeekTok(s: string, ts: seq<Tok>, i: nat, a: nat, toks: string)
    requires Cur(s, ts, i, a) && forall k :: 0 <= k < |toks| ==> Symbol(toks[k])
    ensures Peek(s, i, toks) <==> a < |ts| && ts[a].kind != 'a' && Head(ts[a].kind) in toks
  {
    NextTok(s, ts, i, a);
    var q := Skip(s, i);
    if q < |s| {
      assert Symbol(s[q]) ==> s[q] != 'a' && s[q] != '+' && s[q] != '\0';
    }
  }

  // ----- Redirections -----

  lemma JoinFirst<T>(x: seq<T>, y: seq<T>, z: seq<T>)
    ensures x + (y + z) == (x + y) + z
  {
  }

  predicate Run(ts: seq<Tok>, a: nat, b: nat)
    decreases b - a
  {
    a == b || (RedirAt(ts, a) && a + 2 <= b && Run(ts, a + 2, b))
  }

  lemma {:induction false} RunPlain(ts: seq<Tok>, a: nat, b: nat)
    requires Run(ts, a, b)
    ensures Plain(ts, a, b) && Words(ts, a, b) == [] && a <= b
    decreases b - a
  {
    if a != b {
      RunPlain(ts, a + 2, b);
    }
  }

  /** parseredirs stops unless there is an operator, and fails if no word follows it. */
  lemma RedirsStop(s: string, ts: seq<Tok>, i: nat, a: nat, acc: seq<Target>)
    requires Cur(s, ts, i, a) && TargetsOk(s, acc) && !RedirAt(ts, a)
    ensures !IsOp(ts, a) ==> ParseRedirs(s, acc, i) == Files(acc, Skip(s, i)) && Cur(s, ts, Skip(s, i), a)
    ensures IsOp(ts, a) ==> ParseRedirs(s, acc, i).Bad?
  {
    PeekTok(s, ts, i, a, "<>");
    NextTok(s, ts, i, a);
    if IsOp(ts, a) {
      NextTok(s, ts, GetToken(s, i).next, a + 1);
    } else {
      SkipCur(s, ts, i, a);
    }
  }

  /** It takes an operator and a word, and goes on after them. */
  lemma RedirsGo(s: string, ts: seq<Tok>, i: nat, a: nat, acc: seq<Target>) returns (j: nat)
    requires Cur(s, ts, i, a) && TargetsOk(s, acc) && RedirAt(ts, a)
    ensures i < j && Cur(s, ts, j, a + 2) && TargetsOk(s, acc + [TargetAt(ts, a)])
    ensures ParseRedirs(s, acc, i) == ParseRedirs(s, acc + [TargetAt(ts, a)], j)
  {
    PeekTok(s, ts, i, a, "<>");
    NextTok(s, ts, i, a);
    var t := GetToken(s, i);
    NextTok(s, ts, t.next, a + 1);
    var f := GetToken(s, t.next);
    j := f.next;
    assert TargetAt(ts, a) == Target(f.span, ModeOf(t.kind));
  }

  lemma RunGoes(ts: seq<Tok>, a: nat, b: nat, acc: seq<Target>)
    requires RedirAt(ts, a) && a + 2 <= b
    ensures Run(ts, a, b) <==> Run(ts, a + 2, b)
    ensures acc + [TargetAt(ts, a)] + FilesIn(ts, a + 2, b) == acc + FilesIn(ts, a, b)
  {
    JoinFirst(acc, [TargetAt(ts, a)], FilesIn(ts, a + 2, b));
  }

  /** parseredirs takes a longest run of redirections. */
  lemma {:induction false} RedirsSound(s: string, ts: seq<Tok>, i: nat, a: nat, acc: seq<Target>) returns (b: nat)
    requires Cur(s, ts, i, a) && TargetsOk(s, acc) && ParseRedirs(s, acc, i).Files?
    ensures var r := ParseRedirs(s, acc, i);
      Run(ts, a, b) && a <= b && r.targets == acc + FilesIn(ts, a, b) && Cur(s, ts, r.next, b)
    decreases |s| - i
  {
    if !RedirAt(ts, a) {
      b := a;
      RedirsStop(s, ts, i, a, acc);
    } else {
      var j := RedirsGo(s, ts, i, a, acc);
      b := RedirsSound(s, ts, j, a + 2, acc + [TargetAt(ts, a)]);
      RunGoes(ts, a, b, acc);
    }
  }

  lemma {:induction false} RedirsComplete(s: string, ts: seq<Tok>, i: nat, a: nat, acc: seq<Target>, b: nat)
    requires Cur(s, ts, i, a) && TargetsOk(s, acc) && Run(ts, a, b) && b <= |ts| && !IsOp(ts, b)
    ensures var r := ParseRedirs(s, acc, i);
      r.Files? && r.targets == acc + FilesIn(ts, a, b) && Cur(s, ts, r.next, b)
    decreases |s| - i
  {
    if a == b {
      RedirsStop(s, ts, i, a, acc);
    } else {
      var j := RedirsGo(s, ts, i, a, acc);
      RunGoes(ts, a, b, acc);
      RedirsComplete(s, ts, j, a + 2, acc + [TargetAt(ts, a)], b);
    }
  }

  // ----- Simple commands -----

  lemma {:induction false} PlainJoin(ts: seq<Tok>, a: nat, m: nat, b: nat)
    requires Plain(ts, a, m) && Plain(ts, m, b) && a <= m <= b
    ensures Plain(ts, a, b)
    ensures Words(ts, a, b) == Words(ts, a, m) + Words(ts, m, b)
    ensures FilesIn(ts, a, b) == FilesIn(ts, a, m) + FilesIn(ts, m, b)
    decreases m - a
  {
    if a < m {
      if Is(ts, a, 'a') {
        PlainJoin(ts, a + 1, m, b);
        JoinFirst([ts[a].span], Words(ts, a + 1, m), Words(ts, m, b));
      } else {
        PlainJoin(ts, a + 2, m, b);
        JoinFirst([TargetAt(ts, a)], FilesIn(ts, a + 2, m), FilesIn(ts, m, b));
      }
    }
  }

  /** What may follow a pipeline's element, a job's pipeline, and a line. */
  predicate EndsExec(ts: seq<Tok>, b: nat) { b == |ts| || Is(ts, b, '|') || EndsPipe(ts, b) }

  predicate EndsPipe(ts: seq<Tok>, b: nat) { b == |ts| || Is(ts, b, '&') || EndsJob(ts, b) }

  predicate EndsJob(ts: seq<Tok>, b: nat) { b == |ts| || Is(ts, b, ';') || EndsLine(ts, b) }

  predicate EndsLine(ts: seq<Tok>, b: nat) { b == |ts| || Is(ts, b, ')') }

  /** parseexec's loop ends at what may follow, and at the end of the line. */
  lemma ArgsStop(s: string, ts: seq<Tok>, i: nat, a: nat, args: seq<Span>, files: seq<Target>)
    requires Cur(s, ts, i, a) && TargetsOk(s, files) && WordsOk(s, Exec(args)) && EndsExec(ts, a)
    ensures var r := ParseArgs(s, args, files, i);
      r.Ok? && r.cmd == Wrap(Exec(args), files) && Cur(s, ts, r.next, a)
  {
    NextTok(s, ts, i, a);
    PeekTok(s, ts, i, a, "|)&;");
    SkipCur(s, ts, i, a);
  }

  /** Otherwise it takes a word and what redirections follow it, or fails. */
  lemma ArgsGo(s: string, ts: seq<Tok>, i: nat, a: nat, args: seq<Span>, files: seq<Target>) returns (j: nat)
    requires Cur(s, ts, i, a) && TargetsOk(s, files) && WordsOk(s, Exec(args)) && !EndsExec(ts, a)
    ensures !Is(ts, a, 'a') || |args| + 1 >= MAXARGS ==> ParseArgs(s, args, files, i).Err?
    ensures Is(ts, a, 'a') ==> i < j && Cur(s, ts, j, a + 1) && WordsOk(s, Exec(args + [ts[a].span]))
    ensures Is(ts, a, 'a') && |args| + 1 < MAXARGS ==>
      ParseArgs(s, args, files, i) == match ParseRedirs(s, files, j)
        case Bad(m) => Err(m)
        case Files(files', next) => ParseArgs(s, args + [ts[a].span], files', next)
  {
    NextTok(s, ts, i, a);
    PeekTok(s, ts, i, a, "|)&;");
    j := GetToken(s, i).next;
  }

  lemma WordFirst(ts: seq<Tok>, a: nat, b: nat)
    requires Is(ts, a, 'a') && a < b && Plain(ts, a + 1, b)
    ensures Plain(ts, a, b) && Words(ts, a, b) == [ts[a].span] + Words(ts, a + 1, b)
    ensures FilesIn(ts, a, b) == FilesIn(ts, a + 1, b)
  {
  }

  lemma RunFirst(ts: seq<Tok>, a: nat, m: nat, b: nat)
    requires a <= m <= b && Run(ts, a, m) && Plain(ts, m, b)
    ensures Plain(ts, a, b) && Words(ts, a, b) == Words(ts, m, b)
    ensures FilesIn(ts, a, b) == FilesIn(ts, a, m) + FilesIn(ts, m, b)
  {
    RunPlain(ts, a, m);
    PlainJoin(ts, a, m, b);
    assert [] + Words(ts, m, b) == Words(ts, m, b);
  }

  lemma WordGoes(ts: seq<Tok>, a: nat, m: nat, b: nat, args: seq<Span>, files: seq<Target>)
    requires Is(ts, a, 'a') && a + 1 <= m <= b && Run(ts, a + 1, m) && Plain(ts, m, b)
    ensures Plain(ts, a, b) && args + [ts[a].span] + Words(ts, m, b) == args + Words(ts, a, b)
    ensures files + FilesIn(ts, a + 1, m) + FilesIn(ts, m, b) == files + FilesIn(ts, a, b)
    ensures |Words(ts, a, b)| == 1 + |Words(ts, m, b)|
  {
    RunFirst(ts, a + 1, m, b);
    WordFirst(ts, a, b);
    JoinFirst(args, [ts[a].span], Words(ts, m, b));
    JoinFirst(files, FilesIn(ts, a + 1, m), FilesIn(ts, m, b));
  }

  lemma {:induction false} ArgsSound(s: string, ts: seq<Tok>, i: nat, a: nat, args: seq<Span>, files: seq<Target>)
    returns (b: nat)
    requires Cur(s, ts, i, a) && TargetsOk(s, files) && WordsOk(s, Exec(args)) && |args| < MAXARGS
    requires ParseArgs(s, args, files, i).Ok?
    ensures a <= b && Plain(ts, a, b) && |args + Words(ts, a, b)| < MAXARGS
    ensures var r := ParseArgs(s, args, files, i);
      r.cmd == Wrap(Exec(args + Words(ts, a, b)), files + FilesIn(ts, a, b)) && Cur(s, ts, r.next, b)
    decreases |s| - i
  {
    if EndsExec(ts, a) {
      b := a;
      ArgsStop(s, ts, i, a, args, files);
      assert args + [] == args && files + [] == files;
    } else {
      var j := ArgsGo(s, ts, i, a, args, files);
      var m := RedirsSound(s, ts, j, a + 1, files);
      var r := ParseRedirs(s, files, j);
      b := ArgsSound(s, ts, r.next, m, args + [ts[a].span], r.targets);
      WordGoes(ts, a, m, b, args, files);
    }
  }

  /** The longest run of redirections at the start of a plain range. */
  lemma {:induction false} FirstRun(ts: seq<Tok>, a: nat, b: nat) returns (m: nat)
    requires Plain(ts, a, b) && a <= b
    ensures a <= m <= b && Run(ts, a, m) && Plain(ts, m, b) && (m < b ==> Is(ts, m, 'a'))
    ensures Words(ts, m, b) == Words(ts, a, b) && FilesIn(ts, a, b) == FilesIn(ts, a, m) + FilesIn(ts, m, b)
    decreases b - a
  {
    if a == b || Is(ts, a, 'a') {
      m := a;
    } else {
      m := FirstRun(ts, a + 2, b);
    }
    RunPlain(ts, a, m);
    PlainJoin(ts, a, m, b);
  }

  /** A word of a plain range, what redirections follow it, and the rest. */
  lemma WordParts(ts: seq<Tok>, a: nat, b: nat) returns (m: nat)
    requires Plain(ts, a, b) && a < b && Is(ts, a, 'a') && EndsExec(ts, b)
    ensures a + 1 <= m <= b && Run(ts, a + 1, m) && Plain(ts, m, b) && (m < b ==> Is(ts, m, 'a')) && !IsOp(ts, m)
  {
    assert Plain(ts, a + 1, b);
    m := FirstRun(ts, a + 1, b);
  }

  lemma {:induction false} ArgsComplete(s: string, ts: seq<Tok>, i: nat, a: nat, args: seq<Span>, files: seq<Target>,
                                        b: nat)
    requires Cur(s, ts, i, a) && TargetsOk(s, files) && WordsOk(s, Exec(args)) && a <= b <= |ts|
    requires Plain(ts, a, b) && (a < b ==> Is(ts, a, 'a')) && EndsExec(ts, b)
    requires |args| + |Words(ts, a, b)| < MAXARGS
    ensures var r := ParseArgs(s, args, files, i);
      r.Ok? && r.cmd == Wrap(Exec(args + Words(ts, a, b)), files + FilesIn(ts, a, b)) && Cur(s, ts, r.next, b)
    decreases |s| - i
  {
    if a == b {
      ArgsStop(s, ts, i, a, args, files);
      assert args + [] == args && files + [] == files;
    } else {
      var m := WordParts(ts, a, b);
      var j := ArgsGo(s, ts, i, a, args, files);
      WordGoes(ts, a, m, b, args, files);
      RedirsComplete(s, ts, j, a + 1, files, m);
      var r := ParseRedirs(s, files, j);
      ArgsComplete(s, ts, r.next, m, args + [ts[a].span], r.targets, b);
    }
  }

  // ----- Blocks -----

  /** Redirections after a block, one by one. */
  lemma {:induction false} BlockRun(ts: seq<Tok>, a: nat, m: nat, c: Cmd<Span>, b: nat)
    requires IsBlock(ts, a, m, c) && Run(ts, m, b) && a <= m
    ensures IsBlock(ts, a, b, Wrap(c, FilesIn(ts, m, b)))
    decreases b - m
  {
    if m != b {
      var t := TargetAt(ts, m);
      var c1 := Redir(c, t.file, t.mode);
      assert IsBlock(ts, a, m + 2, c1);
      BlockRun(ts, a, m + 2, c1, b);
      WrapFirst(c, t, FilesIn(ts, m + 2, b));
    }
  }

  lemma {:induction false} WrapFirst(c: Cmd<Span>, t: Target, more: seq<Target>)
    ensures Wrap(Redir(c, t.file, t.mode), more) == Wrap(c, [t] + more)
    decreases |more|
  {
    var all := [t] + more;
    if more == [] {
      assert all[..0] == [];
    } else {
      WrapFirst(c, t, more[..|more| - 1]);
      assert all[..|all| - 1] == [t] + more[..|more| - 1];
    }
  }

  lemma {:induction false} RunThen(ts: seq<Tok>, a: nat, b: nat)
    requires Run(ts, a, b) && RedirAt(ts, b)
    ensures Run(ts, a, b + 2) && FilesIn(ts, a, b + 2) == FilesIn(ts, a, b) + [TargetAt(ts, b)]
    decreases b - a
  {
    if a != b {
      RunThen(ts, a + 2, b);
    }
  }

  /** A block is a line in parentheses with a run of redirections after it. */
  lemma {:induction false} BlockParts(ts: seq<Tok>, a: nat, b: nat, c: Cmd<Span>) returns (k: nat, d: Cmd<Span>)
    requires IsBlock(ts, a, b, c)
    ensures a < k < b && Is(ts, a, '(') && Is(ts, k, ')') && IsLine(ts, a + 1, k, d) && Run(ts, k + 1, b)
    ensures c == Wrap(d, FilesIn(ts, k + 1, b))
    decreases b - a
  {
    if a + 2 <= b && Is(ts, a, '(') && Is(ts, b - 1, ')') && IsLine(ts, a + 1, b - 1, c) {
      k, d := b - 1, c;
    } else {
      k, d := BlockParts(ts, a, b - 2, c.cmd);
      RunThen(ts, k + 1, b - 2);
      var fs := FilesIn(ts, k + 1, b);
      assert fs[..|fs| - 1] == FilesIn(ts, k + 1, b - 2);
    }
  }

  // ----- Jobs -----

  predicate Amps(ts: seq<Tok>, a: nat, b: nat) { a <= b && forall k :: a <= k < b ==> Is(ts, k, '&') }

  function Backs(c: Cmd<Span>, n: nat): Cmd<Span> { if n == 0 then c else Back(Backs(c, n - 1)) }

  lemma {:induction false} BacksFirst(c: Cmd<Span>, n: nat)
    ensures Backs(Back(c), n) == Backs(c, n + 1)
  {
    if n > 0 {
      BacksFirst(c, n - 1);
    }
  }

  lemma {:induction false} JobOf(ts: seq<Tok>, a: nat, m: nat, c: Cmd<Span>, b: nat)
    requires IsPipe(ts, a, m, c) && Amps(ts, m, b) && a <= m
    ensures IsJob(ts, a, b, Backs(c, b - m))
    decreases b - m
  {
    if m < b {
      JobOf(ts, a, m, c, b - 1);
    }
  }

  lemma {:induction false} JobParts(ts: seq<Tok>, a: nat, b: nat, c: Cmd<Span>) returns (m: nat, d: Cmd<Span>)
    requires IsJob(ts, a, b, c) && a <= b
    ensures a <= m <= b && IsPipe(ts, a, m, d) && Amps(ts, m, b) && c == Backs(d, b - m)
    decreases b - a
  {
    if IsPipe(ts, a, b, c) {
      m, d := b, c;
    } else {
      m, d := JobParts(ts, a, b - 1, c.cmd);
    }
  }

  lemma {:induction false} BacksSound(s: string, ts: seq<Tok>, i: nat, a: nat, c: Cmd<Span>) returns (b: nat)
    requires Cur(s, ts, i, a) && WordsOk(s, c)
    ensures var r := ParseBacks(s, c, i); Amps(ts, a, b) && r.cmd == Backs(c, b - a) && Cur(s, ts, r.next, b)
    decreases |s| - i
  {
    PeekTok(s, ts, i, a, "&");
    if !Peek(s, i, "&") {
      b := a;
      SkipCur(s, ts, i, a);
    } else {
      NextTok(s, ts, i, a);
      b := BacksSound(s, ts, GetToken(s, i).next, a + 1, Back(c));
      BacksFirst(c, b - (a + 1));
    }
  }

  lemma {:induction false} BacksComplete(s: string, ts: seq<Tok>, i: nat, a: nat, c: Cmd<Span>, b: nat)
    requires Cur(s, ts, i, a) && WordsOk(s, c) && Amps(ts, a, b) && b <= |ts| && !Is(ts, b, '&')
    ensures var r := ParseBacks(s, c, i); r.cmd == Backs(c, b - a) && Cur(s, ts, r.next, b)
    decreases |s| - i
  {
    PeekTok(s, ts, i, a, "&");
    NextTok(s, ts, i, a);
    if a == b {
      SkipCur(s, ts, i, a);
    } else {
      assert Is(ts, a, '&');
      BacksComplete(s, ts, GetToken(s, i).next, a + 1, Back(c), b);
      BacksFirst(c, b - (a + 1));
    }
  }

  // ----- Sound -----

  lemma SimpleSound(s: string, ts: seq<Tok>, i: nat, a: nat) returns (b: nat)
    requires Cur(s, ts, i, a) && ParseExec(s, i).Ok? && !Peek(s, i, "(")
    ensures var r := ParseExec(s, i); a <= b && Simple(ts, a, b, r.cmd) && Cur(s, ts, r.next, b)
  {
    var m := RedirsSound(s, ts, i, a, []);
    var r := ParseRedirs(s, [], i);
    b := ArgsSound(s, ts, r.next, m, [], r.targets);
    RunPlain(ts, a, m);
    PlainJoin(ts, a, m, b);
    assert [] + Words(ts, m, b) == Words(ts, a, b) && [] + FilesIn(ts, a, m) == FilesIn(ts, a, m);
  }

  lemma {:induction false} ExecSound(s: string, ts: seq<Tok>, i: nat, a: nat) returns (b: nat)
    requires Cur(s, ts, i, a) && ParseExec(s, i).Ok?
    ensures var r := ParseExec(s, i); a <= b && IsExec(ts, a, b, r.cmd) && Cur(s, ts, r.next, b)
    decreases |s| - i, 1
  {
    if Peek(s, i, "(") {
      b := BlockSound(s, ts, i, a);
    } else {
      b := SimpleSound(s, ts, i, a);
    }
  }

  lemma {:induction false} BlockSound(s: string, ts: seq<Tok>, i: nat, a: nat) returns (b: nat)
    requires Cur(s, ts, i, a) && ParseBlock(s, i).Ok?
    ensures var r := ParseBlock(s, i); a <= b && IsBlock(ts, a, b, r.cmd) && Cur(s, ts, r.next, b)
    decreases |s| - i, 0
  {
    PeekTok(s, ts, i, a, "(");
    NextTok(s, ts, i, a);
    var i1 := GetToken(s, i).next;
    var k := LineSound(s, ts, i1, a + 1);
    b := CloseSound(s, ts, a, ParseLine(s, i1), k);
  }

  /** The end of a block: ')' and redirections. */
  lemma CloseSound(s: string, ts: seq<Tok>, a: nat, r: Result, k: nat) returns (b: nat)
    requires r.Ok? && a < k && Is(ts, a, '(') && IsLine(ts, a + 1, k, r.cmd) && Cur(s, ts, r.next, k)
    requires Peek(s, r.next, ")") && ParseRedirs(s, [], GetToken(s, r.next).next).Files?
    ensures var fs := ParseRedirs(s, [], GetToken(s, r.next).next);
      a <= b && IsBlock(ts, a, b, Wrap(r.cmd, fs.targets)) && Cur(s, ts, fs.next, b)
  {
    PeekTok(s, ts, r.next, k, ")");
    NextTok(s, ts, r.next, k);
    assert IsBlock(ts, a, k + 1, r.cmd);
    b := RedirsSound(s, ts, GetToken(s, r.next).next, k + 1, []);
    BlockRun(ts, a, k + 1, r.cmd, b);
    assert [] + FilesIn(ts, k + 1, b) == FilesIn(ts, k + 1, b);
  }

  lemma PipeOf(ts: seq<Tok>, a: nat, k: nat, b: nat, c: Cmd<Span>, d: Cmd<Span>)
    requires a <= k < b && Is(ts, k, '|') && IsExec(ts, a, k, c) && IsPipe(ts, k + 1, b, d)
    ensures IsPipe(ts, a, b, Pipe(c, d))
  {
    assert PipeAt(ts, a, k, b, Pipe(c, d));
  }

  lemma ListOf(ts: seq<Tok>, a: nat, k: nat, b: nat, c: Cmd<Span>, d: Cmd<Span>)
    requires a <= k < b && Is(ts, k, ';') && IsJob(ts, a, k, c) && IsLine(ts, k + 1, b, d)
    ensures IsLine(ts, a, b, List(c, d))
  {
    assert ListAt(ts, a, k, b, List(c, d));
  }

  lemma {:induction false} PipeSound(s: string, ts: seq<Tok>, i: nat, a: nat) returns (b: nat)
    requires Cur(s, ts, i, a) && ParsePipe(s, i).Ok?
    ensures var r := ParsePipe(s, i); a <= b && IsPipe(ts, a, b, r.cmd) && Cur(s, ts, r.next, b)
    decreases |s| - i, 2
  {
    var k := ExecSound(s, ts, i, a);
    var c := ParseExec(s, i);
    PeekTok(s, ts, c.next, k, "|");
    if !Peek(s, c.next, "|") {
      b := k;
      SkipCur(s, ts, c.next, k);
    } else {
      NextTok(s, ts, c.next, k);
      var i1 := GetToken(s, c.next).next;
      b := PipeSound(s, ts, i1, k + 1);
      PipeOf(ts, a, k, b, c.cmd, ParsePipe(s, i1).cmd);
    }
  }

  lemma {:induction false} LineSound(s: string, ts: seq<Tok>, i: nat, a: nat) returns (b: nat)
    requires Cur(s, ts, i, a) && ParseLine(s, i).Ok?
    ensures var r := ParseLine(s, i); a <= b && IsLine(ts, a, b, r.cmd) && Cur(s, ts, r.next, b)
    decreases |s| - i, 3
  {
    var m := PipeSound(s, ts, i, a);
    var c := ParsePipe(s, i);
    var k := BacksSound(s, ts, c.next, m, c.cmd);
    var j := ParseBacks(s, c.cmd, c.next);
    JobOf(ts, a, m, c.cmd, k);
    PeekTok(s, ts, j.next, k, ";");
    if !Peek(s, j.next, ";") {
      b := k;
      SkipCur(s, ts, j.next, k);
    } else {
      NextTok(s, ts, j.next, k);
      var i1 := GetToken(s, j.next).next;
      b := LineSound(s, ts, i1, k + 1);
      ListOf(ts, a, k, b, j.cmd, ParseLine(s, i1).cmd);
    }
  }

  // ----- Complete -----

  ghost predicate Gives(s: string, ts: seq<Tok>, r: Result, c: Cmd<Span>, b: nat) {
    r.Ok? && r.cmd == c && Cur(s, ts, r.next, b)
  }

  /** A simple command does not start with '('. */
  lemma NoParen(s: string, ts: seq<Tok>, i: nat, a: nat, b: nat)
    requires Cur(s, ts, i, a) && a <= b <= |ts| && Plain(ts, a, b) && EndsExec(ts, b)
    ensures !Peek(s, i, "(")
  {
    assert !Is(ts, a, '(');
    PeekTok(s, ts, i, a, "(");
  }

  lemma SimpleComplete(s: string, ts: seq<Tok>, i: nat, a: nat, b: nat, c: Cmd<Span>)
    requires Cur(s, ts, i, a) && a <= b <= |ts| && Simple(ts, a, b, c) && EndsExec(ts, b)
    ensures Gives(s, ts, ParseExec(s, i), c, b)
  {
    NoParen(s, ts, i, a, b);
    var m := FirstRun(ts, a, b);
    assert !IsOp(ts, m);
    RedirsComplete(s, ts, i, a, [], m);
    var r := ParseRedirs(s, [], i);
    assert [] + FilesIn(ts, a, m) == FilesIn(ts, a, m) && [] + Words(ts, m, b) == Words(ts, a, b);
    ArgsComplete(s, ts, r.next, m, [], r.targets, b);
  }

  lemma CloseComplete(s: string, ts: seq<Tok>, j: nat, k: nat, b: nat)
    requires Cur(s, ts, j, k) && Is(ts, k, ')') && Run(ts, k + 1, b) && b <= |ts| && !IsOp(ts, b)
    ensures Peek(s, j, ")")
    ensures var r := ParseRedirs(s, [], GetToken(s, j).next);
      r.Files? && r.targets == FilesIn(ts, k + 1, b) && Cur(s, ts, r.next, b)
  {
    PeekTok(s, ts, j, k, ")");
    NextTok(s, ts, j, k);
    RedirsComplete(s, ts, GetToken(s, j).next, k + 1, [], b);
    assert [] + FilesIn(ts, k + 1, b) == FilesIn(ts, k + 1, b);
  }

  lemma {:induction false} BlockComplete(s: string, ts: seq<Tok>, i: nat, a: nat, b: nat, c: Cmd<Span>)
    requires Cur(s, ts, i, a) && a <= b <= |ts| && IsBlock(ts, a, b, c) && EndsExec(ts, b)
    ensures Gives(s, ts, ParseExec(s, i), c, b)
    decreases b - a, 0
  {
    var k, d := BlockParts(ts, a, b, c);
    PeekTok(s, ts, i, a, "(");
    NextTok(s, ts, i, a);
    var i1 := GetToken(s, i).next;
    LineComplete(s, ts, i1, a + 1, k, d);
    CloseComplete(s, ts, ParseLine(s, i1).next, k, b);
  }

  lemma {:induction false} ExecComplete(s: string, ts: seq<Tok>, i: nat, a: nat, b: nat, c: Cmd<Span>)
    requires Cur(s, ts, i, a) && a <= b <= |ts| && IsExec(ts, a, b, c) && EndsExec(ts, b)
    ensures Gives(s, ts, ParseExec(s, i), c, b)
    decreases b - a, 1
  {
    if IsBlock(ts, a, b, c) {
      BlockComplete(s, ts, i, a, b, c);
    } else {
      SimpleComplete(s, ts, i, a, b, c);
    }
  }

  lemma {:induction false} PipeComplete(s: string, ts: seq<Tok>, i: nat, a: nat, b: nat, c: Cmd<Span>)
    requires Cur(s, ts, i, a) && a <= b <= |ts| && IsPipe(ts, a, b, c) && EndsPipe(ts, b)
    ensures Gives(s, ts, ParsePipe(s, i), c, b)
    decreases b - a, 2
  {
    if IsExec(ts, a, b, c) {
      ExecComplete(s, ts, i, a, b, c);
      var j := ParseExec(s, i).next;
      PeekTok(s, ts, j, b, "|");
      SkipCur(s, ts, j, b);
    } else {
      var k :| a <= k < b && PipeAt(ts, a, k, b, c);
      ExecComplete(s, ts, i, a, k, c.left);
      var j := ParseExec(s, i).next;
      PeekTok(s, ts, j, k, "|");
      NextTok(s, ts, j, k);
      PipeComplete(s, ts, GetToken(s, j).next, k + 1, b, c.right);
    }
  }

  /** A job: what parseline has before it looks for ';'. */
  lemma {:induction false} JobComplete(s: string, ts: seq<Tok>, i: nat, a: nat, b: nat, c: Cmd<Span>)
    requires Cur(s, ts, i, a) && a <= b <= |ts| && IsJob(ts, a, b, c) && EndsJob(ts, b)
    ensures ParsePipe(s, i).Ok?
    ensures var p := ParsePipe(s, i); Gives(s, ts, ParseBacks(s, p.cmd, p.next), c, b)
    decreases b - a, 3
  {
    var m, d := JobParts(ts, a, b, c);
    assert EndsPipe(ts, m) by {
      assert m < b ==> Is(ts, m, '&');
    }
    PipeComplete(s, ts, i, a, m, d);
    BacksComplete(s, ts, ParsePipe(s, i).next, m, d, b);
  }

  lemma {:induction false} LineComplete(s: string, ts: seq<Tok>, i: nat, a: nat, b: nat, c: Cmd<Span>)
    requires Cur(s, ts, i, a) && a <= b <= |ts| && IsLine(ts, a, b, c) && EndsLine(ts, b)
    ensures Gives(s, ts, ParseLine(s, i), c, b)
    decreases b - a, 4
  {
    if IsJob(ts, a, b, c) {
      JobComplete(s, ts, i, a, b, c);
      var p := ParsePipe(s, i);
      var j := ParseBacks(s, p.cmd, p.next).next;
      PeekTok(s, ts, j, b, ";");
      SkipCur(s, ts, j, b);
    } else {
      var k :| a <= k < b && ListAt(ts, a, k, b, c);
      JobComplete(s, ts, i, a, k, c.left);
      var p := ParsePipe(s, i);
      var j := ParseBacks(s, p.cmd, p.next).next;
      PeekTok(s, ts, j, k, ";");
      NextTok(s, ts, j, k);
      LineComplete(s, ts, GetToken(s, j).next, k + 1, b, c.right);
    }
  }

  // ----- The parser and the language -----

  /** The line is a sentence of the language, and c what it stands for. */
  predicate Derives(s: string, c: Cmd<Span>) { IsLine(Tokens(s, 0), 0, |Tokens(s, 0)|, c) }

  /** parsecmd accepts exactly the language, and gives the command that the grammar derives. */
  lemma ParsesLanguage(s: string, c: Cmd<Span>)
    ensures ParseCmd(s) == Ok(c, |s|) <==> Derives(s, c)
  {
    var ts := Tokens(s, 0);
    assert ts[0..] == ts;
    if ParseLine(s, 0).Ok? {
      var b := LineSound(s, ts, 0, 0);
      NextTok(s, ts, ParseLine(s, 0).next, b);
    }
    if Derives(s, c) {
      LineComplete(s, ts, 0, 0, |ts|, c);
      NextTok(s, ts, ParseLine(s, 0).next, |ts|);
    }
  }

  /** What parsecmd returns: the command that the line stands for, or an error if it stands for none. */
  lemma ParseCmdMeans(s: string)
    ensures var r := ParseCmd(s); if r.Ok? then Derives(s, r.cmd) else forall c :: !Derives(s, c)
  {
    var r := ParseCmd(s);
    if r.Ok? {
      ParsesLanguage(s, r.cmd);
    } else {
      forall c ensures !Derives(s, c) {
        ParsesLanguage(s, c);
      }
    }
  }

  /** No line stands for two commands. */
  lemma Unambiguous(s: string, c: Cmd<Span>, d: Cmd<Span>)
    requires Derives(s, c) && Derives(s, d)
    ensures c == d
  {
    ParsesLanguage(s, c);
    ParsesLanguage(s, d);
  }
}
