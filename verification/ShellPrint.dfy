/**
 Printing a command with parentheses around every part, and parsing the print (user/sh.c): every command
 comes back.
 */
module ShellPrint {
  import opened Folding
  import opened ShellGrammar

  predicate Legal(w: string) { w != "" && forall k :: 0 <= k < |w| ==> InWord(w[k]) }

  predicate LegalCmd(c: Cmd<string>) {
    match c
    case Exec(args) => |args| < MAXARGS && forall i :: 0 <= i < |args| ==> Legal(args[i])
    case Redir(d, file, _) => LegalCmd(d) && Legal(file)
    case Pipe(l, r) => LegalCmd(l) && LegalCmd(r)
    case List(l, r) => LegalCmd(l) && LegalCmd(r)
    case Back(d) => LegalCmd(d)
  }

  function Op(mode: Mode): string { match mode case Input => "<" case Output => ">" case Append => ">>" }

  function Join(args: seq<string>): string {
    if args == [] then "" else if |args| == 1 then args[0] else args[0] + " " + Join(args[1..])
  }

  function Print(c: Cmd<string>): string {
    match c
    case Exec(args) => Join(args)
    case Redir(d, file, mode) => "(" + Print(d) + ")" + Op(mode) + file
    case Pipe(l, r) => "(" + Print(l) + ")|(" + Print(r) + ")"
    case List(l, r) => "(" + Print(l) + ");(" + Print(r) + ")"
    case Back(d) => "(" + Print(d) + ")&"
  }

  function Texts(s: string, args: seq<Span>): (ws: seq<string>)
    requires forall i :: 0 <= i < |args| ==> IsWord(s, args[i])
    ensures |ws| == |args|
  {
    if args == [] then []
    else
      var w := args[|args| - 1];
      assert IsWord(s, w);
      Texts(s, args[..|args| - 1]) + [s[w.q..w.eq]]
  }

  /** The command that spans of s spell. */
  function Text(s: string, c: Cmd<Span>): Cmd<string>
    requires WordsOk(s, c)
  {
    match c
    case Exec(args) => Exec(Texts(s, args))
    case Redir(d, file, mode) => Redir(Text(s, d), s[file.q..file.eq], mode)
    case Pipe(l, r) => Pipe(Text(s, l), Text(s, r))
    case List(l, r) => List(Text(s, l), Text(s, r))
    case Back(d) => Back(Text(s, d))
  }

  /** x stands in s at i. */
  predicate At(s: string, i: nat, x: string) { i + |x| <= |s| && s[i..i + |x|] == x }

  lemma AtSplit(s: string, i: nat, x: string, y: string)
    requires At(s, i, x + y)
    ensures At(s, i, x) && At(s, i + |x|, y)
  {
    var n := i + |x + y|;
    assert s[i..n] == x + y;
    assert s[i..i + |x|] == (x + y)[..|x|] == x;
    assert s[i + |x|..n] == (x + y)[|x|..] == y;
  }

  /** Where a printed command may end: at the end of the line or before a closing parenthesis. */
  predicate Stop(s: string, j: nat) { j == |s| || (j < |s| && s[j] == ')') }

  lemma SkipNone(s: string, i: nat)
    requires i <= |s| && (i < |s| ==> !White(s[i]))
    ensures Skip(s, i) == i
  {
  }

  /** A word at i, followed by something that is not part of a word. */
  lemma WordAt(s: string, i: nat, w: string)
    requires At(s, i, w) && Legal(w) && (i + |w| < |s| ==> !InWord(s[i + |w|]))
    ensures GetToken(s, i) == Token('a', Span(i, i + |w|), Skip(s, i + |w|))
  {
    assert s[i] == w[0];
    SkipNone(s, i);
    assert forall k :: i <= k < i + |w| ==> s[k] == w[k - i];
    WordEndIs(s, i, i + |w|);
  }

  lemma {:induction false} WordEndIs(s: string, i: nat, j: nat)
    requires i <= j <= |s| && (forall k :: i <= k < j ==> InWord(s[k])) && (j < |s| ==> !InWord(s[j]))
    ensures WordEnd(s, i) == j
    decreases j - i
  {
    if i < j {
      WordEndIs(s, i + 1, j);
    }
  }

  /** A symbol at i that is not the first of ">>". */
  lemma SymbolAt(s: string, i: nat, c: char)
    requires i < |s| && s[i] == c && Symbol(c) && (c == '>' && i + 1 < |s| ==> s[i + 1] != '>')
    ensures GetToken(s, i) == Token(c, Span(i, i + 1), Skip(s, i + 1))
    ensures forall toks: string :: Peek(s, i, toks) == (c in toks)
  {
    SkipNone(s, i);
  }

  // ----- What each part of the parser finds, kept folded -----

  ghost predicate RedirsIs(s: string, i: nat, ts: seq<Target>, j: nat) {
    forall k {:trigger Unfold(k)} :: Unfold(k) ==> i <= |s| && ParseRedirs(s, [], i) == Files(ts, j)
  }

  ghost predicate ArgsIs(s: string, done: seq<Span>, i: nat, d: seq<Span>, j: nat) {
    forall k {:trigger Unfold(k)} :: Unfold(k) ==>
      i <= |s| && WordsOk(s, Exec(done)) && ParseArgs(s, done, [], i) == Ok(Exec(d), j)
  }

  ghost predicate ExecIs(s: string, i: nat, d: Cmd<Span>, j: nat) {
    forall k {:trigger Unfold(k)} :: Unfold(k) ==> i <= |s| && j <= |s| && WordsOk(s, d) && ParseExec(s, i) == Ok(d, j)
  }

  ghost predicate PipeIs(s: string, i: nat, d: Cmd<Span>, j: nat) {
    forall k {:trigger Unfold(k)} :: Unfold(k) ==> i <= |s| && j <= |s| && WordsOk(s, d) && ParsePipe(s, i) == Ok(d, j)
  }

  ghost predicate LineIs(s: string, i: nat, d: Cmd<Span>, j: nat) {
    forall k {:trigger Unfold(k)} :: Unfold(k) ==> i <= |s| && j <= |s| && WordsOk(s, d) && ParseLine(s, i) == Ok(d, j)
  }

  /** The next character is not one of those that go on with a command. */
  predicate Quiet(s: string, j: nat, toks: string)
    requires j <= |s|
  {
    j < |s| ==> !White(s[j]) && s[j] !in toks
  }

  lemma QuietPeek(s: string, j: nat, toks: string)
    requires j <= |s| && Quiet(s, j, toks)
    ensures Skip(s, j) == j && !Peek(s, j, toks)
  {
  }

  lemma NoRedirs(s: string, j: nat)
    requires j <= |s| && Quiet(s, j, "<>")
    ensures RedirsIs(s, j, [], j)
  {
    QuietPeek(s, j, "<>");
  }

  lemma StopQuiet(s: string, j: nat)
    requires Stop(s, j)
    ensures j <= |s| && Quiet(s, j, "<>")
    ensures Quiet(s, j, "|") && Quiet(s, j, "&") && Quiet(s, j, ";") && Quiet(s, j, "(")
  {
  }

  // ----- A list of words -----

  lemma JoinFirst(args: seq<string>)
    requires |args| > 0
    ensures |args| == 1 ==> Join(args) == args[0]
    ensures |args| > 1 ==> Join(args) == args[0] + (" " + Join(args[1..]))
  {
  }

  lemma StartsWord(s: string, i: nat, args: seq<string>)
    requires |args| > 0 && Legal(args[0]) && At(s, i, Join(args))
    ensures i < |s| && InWord(s[i])
  {
    assert Join(args)[0] == args[0][0];
    assert s[i] == s[i..i + |Join(args)|][0];
  }

  lemma WordQuiet(s: string, i: nat)
    requires i < |s| && InWord(s[i])
    ensures Quiet(s, i, "<>") && Quiet(s, i, "|)&;") && Quiet(s, i, "(")
  {
  }

  /** One word of a list: the cursor moves past it and the space after it. */
  /** The last argument, at the end of the command. */
  lemma LastArgAt(s: string, i: nat, args: seq<string>, j: nat)
    requires |args| == 1 && Legal(args[0]) && At(s, i, Join(args)) && j == i + |Join(args)| && Stop(s, j)
    ensures GetToken(s, i) == Token('a', Span(i, j), j) && s[i..j] == args[0] && j == i + |args[0]|
    ensures j <= |s| && Quiet(s, j, "<>") && At(s, j, Join(args[1..])) && Join(args[1..]) == ""
  {
    JoinFirst(args);
    assert args[1..] == [];
    StopQuiet(s, j);
    QuietPeek(s, j, "<>");
    WordAt(s, i, args[0]);
  }

  lemma ArgAt(s: string, i: nat, args: seq<string>, j: nat, next: nat)
    requires |args| > 0 && (forall k :: 0 <= k < |args| ==> Legal(args[k]))
    requires At(s, i, Join(args)) && j == i + |Join(args)|
    requires Stop(s, j) && next == i + |args[0]| + (if |args| > 1 then 1 else 0)
    ensures GetToken(s, i) == Token('a', Span(i, i + |args[0]|), next) && s[i..i + |args[0]|] == args[0]
    ensures next <= |s| && Quiet(s, next, "<>") && At(s, next, Join(args[1..])) && j == next + |Join(args[1..])|
  {
    var w := args[0];
    JoinFirst(args);
    if |args| == 1 {
      LastArgAt(s, i, args, j);
    } else {
      AtSplit(s, i, w, " " + Join(args[1..]));
      AtSplit(s, i + |w|, " ", Join(args[1..]));
      assert s[i + |w|] == ' ';
      WordAt(s, i, w);
      StartsWord(s, next, args[1..]);
      WordQuiet(s, next);
      QuietPeek(s, next, "<>");
      assert Skip(s, i + |w|) == Skip(s, next);
    }
  }

  lemma ArgsEnd(s: string, done: seq<Span>, j: nat)
    requires Stop(s, j) && WordsOk(s, Exec(done))
    ensures ArgsIs(s, done, j, done, j)
  {
    SkipNone(s, j);
    assert Wrap(Exec(done), []) == Exec(done);
  }

  lemma ArgsStep(s: string, done: seq<Span>, i: nat, w: Span, next: nat, d: seq<Span>, j: nat)
    requires i < |s| && InWord(s[i]) && GetToken(s, i) == Token('a', w, next) && next <= |s| && Quiet(s, next, "<>")
    requires |done| + 1 < MAXARGS && WordsOk(s, Exec(done)) && ArgsIs(s, done + [w], next, d, j)
    ensures ArgsIs(s, done, i, d, j)
  {
    assert Unfold(KEY);
    WordQuiet(s, i);
    QuietPeek(s, i, "|)&;");
    NoRedirs(s, next);
  }

  lemma {:induction false} ArgsAt(s: string, i: nat, args: seq<string>, done: seq<Span>, j: nat) returns (d: seq<Span>)
    requires (forall k :: 0 <= k < |args| ==> Legal(args[k])) && At(s, i, Join(args)) && j == i + |Join(args)|
    requires Stop(s, j) && WordsOk(s, Exec(done)) && |done| + |args| < MAXARGS
    ensures ArgsIs(s, done, i, d, j) && WordsOk(s, Exec(d)) && Texts(s, d) == Texts(s, done) + args
    decreases |args|
  {
    if args == [] {
      ArgsEnd(s, done, j);
      d := done;
    } else {
      var next := i + |args[0]| + (if |args| > 1 then 1 else 0);
      var w := Span(i, i + |args[0]|);
      ArgAt(s, i, args, j, next);
      StartsWord(s, i, args);
      TextsNext(s, done, w);
      d := ArgsAt(s, next, args[1..], done + [w], j);
      ArgsStep(s, done, i, w, next, d, j);
      Rejoin(Texts(s, done), args);
    }
  }

  lemma Rejoin(ws: seq<string>, args: seq<string>)
    requires args != []
    ensures ws + [args[0]] + args[1..] == ws + args
  {
  }

  lemma TextsNext(s: string, done: seq<Span>, w: Span)
    requires WordsOk(s, Exec(done)) && IsWord(s, w)
    ensures WordsOk(s, Exec(done + [w])) && Texts(s, done + [w]) == Texts(s, done) + [s[w.q..w.eq]]
  {
    assert (done + [w])[..|done|] == done;
  }

  lemma WordsExec(s: string, i: nat, d: seq<Span>, j: nat)
    requires i <= |s| && Quiet(s, i, "(") && Quiet(s, i, "<>") && ArgsIs(s, [], i, d, j)
    ensures ExecIs(s, i, Exec(d), j)
  {
    assert Unfold(KEY);
    QuietPeek(s, i, "(");
    NoRedirs(s, i);
  }

  // ----- Blocks -----

  /** A parenthesised line: what is found inside, then redirections. */
  lemma BlockAt(s: string, i: nat, i1: nat, d: Cmd<Span>, m: nat, m1: nat, ts: seq<Target>, j: nat)
    requires i1 == i + 1 < |s| && s[i] == '(' && !White(s[i1]) && LineIs(s, i1, d, m)
    requires m < |s| && s[m] == ')' && m1 == m + 1 && (m1 < |s| ==> !White(s[m1])) && RedirsIs(s, m1, ts, j)
    ensures ExecIs(s, i, Wrap(d, ts), j)
  {
    assert Unfold(KEY);
    SymbolAt(s, i, '(');
    SkipNone(s, i1);
    SymbolAt(s, m, ')');
    SkipNone(s, m1);
    WrapOk(s, d, ts);
  }

  /** After a block, a symbol other than a redirection. */
  lemma PlainBlock(s: string, i: nat, i1: nat, d: Cmd<Span>, m: nat, m1: nat)
    requires i1 == i + 1 < |s| && s[i] == '(' && !White(s[i1]) && LineIs(s, i1, d, m)
    requires m < |s| && s[m] == ')' && m1 == m + 1 && Quiet(s, m1, "<>")
    ensures ExecIs(s, i, d, m1)
  {
    NoRedirs(s, m1);
    BlockAt(s, i, i1, d, m, m1, [], m1);
    assert Wrap(d, []) == d;
  }

  lemma EndPipe(s: string, i: nat, d: Cmd<Span>, j: nat)
    requires ExecIs(s, i, d, j) && j <= |s| && Quiet(s, j, "|")
    ensures PipeIs(s, i, d, j)
  {
    assert Unfold(KEY);
    QuietPeek(s, j, "|");
  }

  lemma NoBacks(s: string, d: Cmd<Span>, j: nat)
    requires j <= |s| && WordsOk(s, d) && Quiet(s, j, "&")
    ensures ParseBacks(s, d, j) == Ok(d, j)
  {
    QuietPeek(s, j, "&");
  }

  lemma EndLine(s: string, i: nat, d: Cmd<Span>, j: nat)
    requires PipeIs(s, i, d, j) && j <= |s| && Quiet(s, j, "&") && Quiet(s, j, ";")
    ensures LineIs(s, i, d, j)
  {
    assert Unfold(KEY);
    NoBacks(s, d, j);
    QuietPeek(s, j, ";");
  }

  /** A command at a stop is all of its line. */
  lemma StopLine(s: string, i: nat, d: Cmd<Span>, j: nat)
    requires ExecIs(s, i, d, j) && Stop(s, j)
    ensures LineIs(s, i, d, j)
  {
    StopQuiet(s, j);
    EndPipe(s, i, d, j);
    EndLine(s, i, d, j);
  }

  lemma RedirAt(s: string, i: nat, mode: Mode, file: string, q: nat, j: nat)
    requires At(s, i, Op(mode) + file) && Legal(file) && q == i + |Op(mode)| && j == q + |file| && Stop(s, j)
    ensures i < |s| && s[i] == Op(mode)[0] && RedirsIs(s, i, [Target(Span(q, j), mode)], j)
    ensures s[q..j] == file && IsWord(s, Span(q, j))
  {
    AtSplit(s, i, Op(mode), file);
    assert s[i] == s[i..q][0];
    assert s[q] == s[q..j][0] && InWord(s[q]);
    OpToken(s, i, mode, q);
    StopQuiet(s, j);
    QuietPeek(s, j, "<>");
    WordAt(s, q, file);
    RedirStep(s, i, mode, q, j);
  }

  lemma OpToken(s: string, i: nat, mode: Mode, q: nat)
    requires At(s, i, Op(mode)) && q == i + |Op(mode)| && q < |s| && InWord(s[q])
    ensures GetToken(s, i) == Token(match mode case Input => '<' case Output => '>' case Append => '+', Span(i, q), q)
    ensures Peek(s, i, "<>")
  {
    assert s[i] == s[i..q][0];
    SkipNone(s, i);
    SkipNone(s, q);
    if mode == Append {
      assert s[i + 1] == s[i..q][1];
    }
  }

  lemma RedirStep(s: string, i: nat, mode: Mode, q: nat, j: nat)
    requires i <= q <= j <= |s| && Peek(s, i, "<>") && Quiet(s, j, "<>")
    requires GetToken(s, i) == Token(match mode case Input => '<' case Output => '>' case Append => '+', Span(i, q), q)
    requires GetToken(s, q) == Token('a', Span(q, j), j)
    ensures RedirsIs(s, i, [Target(Span(q, j), mode)], j)
  {
    QuietPeek(s, j, "<>");
    assert [] + [Target(Span(q, j), mode)] == [Target(Span(q, j), mode)];
    assert ParseRedirs(s, [Target(Span(q, j), mode)], j) == Files([Target(Span(q, j), mode)], j);
  }

  lemma RedirParse(s: string, i: nat, i1: nat, d: Cmd<Span>, m: nat, m1: nat, t: Target, j: nat)
    requires i1 == i + 1 < |s| && s[i] == '(' && !White(s[i1]) && LineIs(s, i1, d, m)
    requires m1 == m + 1 < |s| && s[m] == ')' && !White(s[m1]) && RedirsIs(s, m1, [t], j) && Stop(s, j)
    ensures LineIs(s, i, Redir(d, t.file, t.mode), j)
  {
    BlockAt(s, i, i1, d, m, m1, [t], j);
    assert [t][..0] == [] && Wrap(d, [t]) == Redir(d, t.file, t.mode);
    StopLine(s, i, Redir(d, t.file, t.mode), j);
  }

  /** A symbol at i, followed by something else than white space. */
  lemma SymbolNext(s: string, i: nat, c: char)
    requires i + 1 <= |s| && i < |s| && s[i] == c
    requires (c == '|' || c == ';' || c == '&') && (i + 1 < |s| ==> !White(s[i + 1]))
    ensures GetToken(s, i) == Token(c, Span(i, i + 1), i + 1) && Peek(s, i, [c]) && Skip(s, i) == i
  {
    SkipNone(s, i);
    SkipNone(s, i + 1);
  }

  lemma PipeParse(s: string, i: nat, d: Cmd<Span>, m: nat, m1: nat, e: Cmd<Span>, j: nat)
    requires ExecIs(s, i, d, m) && m1 == m + 1 < |s| && s[m] == '|' && s[m1] == '(' && PipeIs(s, m1, e, j)
    ensures PipeIs(s, i, Pipe(d, e), j)
  {
    assert Unfold(KEY);
    SymbolNext(s, m, '|');
    assert "|" == ['|'];
    assert ParseExec(s, i) == Ok(d, m) && Peek(s, m, "|") && GetToken(s, m).next == m1;
  }

  lemma ListParse(s: string, i: nat, d: Cmd<Span>, m: nat, m1: nat, e: Cmd<Span>, j: nat)
    requires PipeIs(s, i, d, m) && m1 == m + 1 < |s| && s[m] == ';' && s[m1] == '(' && LineIs(s, m1, e, j)
    ensures LineIs(s, i, List(d, e), j)
  {
    assert Unfold(KEY);
    SymbolNext(s, m, ';');
    assert ";" == [';'];
    NoBacks(s, d, m);
  }

  lemma BackParse(s: string, i: nat, d: Cmd<Span>, m: nat, j: nat)
    requires PipeIs(s, i, d, m) && m < |s| && s[m] == '&' && j == m + 1 && Stop(s, j)
    ensures LineIs(s, i, Back(d), j)
  {
    assert Unfold(KEY);
    SymbolNext(s, m, '&');
    assert "&" == ['&'];
    StopQuiet(s, j);
    NoBacks(s, Back(d), j);
    QuietPeek(s, j, ";");
    assert ParseBacks(s, d, m) == Ok(Back(d), j);
  }

  /** The first character of a printed command, or what follows an empty one, is no white space. */
  lemma PrintStart(s: string, i: nat, c: Cmd<string>)
    requires LegalCmd(c) && At(s, i, Print(c)) && (Print(c) == "" ==> i < |s| && s[i] == ')')
    ensures i < |s| && !White(s[i])
  {
    if Print(c) != "" {
      assert s[i] == s[i..i + |Print(c)|][0];
      if c.Exec? {
        StartsWord(s, i, c.args);
      }
    }
  }

  // ----- Every command -----

  /** What stands at i when "(" + Print(c) + ")" + tail does. */
  lemma Parens(s: string, i: nat, x: string, tail: string)
    requires At(s, i, "(" + x + ")" + tail)
    ensures var m := i + 1 + |x|; m < |s| && s[i] == '(' && At(s, i + 1, x) && s[m] == ')' && At(s, m + 1, tail)
  {
    assert "(" + x + ")" + tail == "(" + (x + (")" + tail));
    AtSplit(s, i, "(", x + (")" + tail));
    AtSplit(s, i + 1, x, ")" + tail);
    AtSplit(s, i + 1 + |x|, ")", tail);
  }

  /** The spans d spell the command c. */
  predicate Spells(s: string, d: Cmd<Span>, c: Cmd<string>) { WordsOk(s, d) && Text(s, d) == c }

  lemma {:induction false} RoundTripAt(s: string, i: nat, c: Cmd<string>, j: nat) returns (d: Cmd<Span>)
    requires LegalCmd(c) && At(s, i, Print(c)) && j == i + |Print(c)| && Stop(s, j)
    ensures LineIs(s, i, d, j) && Spells(s, d, c)
    decreases c, 2
  {
    match c
    case Exec(args) => d := ExecTrip(s, i, args, j);
    case Redir(_, _, _) => d := RedirTrip(s, i, c, j);
    case Pipe(_, _) => d := PipeTrip(s, i, c, j);
    case List(_, _) => d := ListTrip(s, i, c, j);
    case Back(_) => d := BackTrip(s, i, c, j);
  }

  lemma ExecTrip(s: string, i: nat, args: seq<string>, j: nat) returns (d: Cmd<Span>)
    requires LegalCmd(Exec(args)) && At(s, i, Join(args)) && j == i + |Join(args)| && Stop(s, j)
    ensures LineIs(s, i, d, j) && Spells(s, d, Exec(args))
  {
    var ws := ArgsAt(s, i, args, [], j);
    if args == [] {
      StopQuiet(s, i);
    } else {
      StartsWord(s, i, args);
      WordQuiet(s, i);
    }
    WordsExec(s, i, ws, j);
    d := Exec(ws);
    StopLine(s, i, d, j);
    assert Texts(s, []) + args == args;
  }

  lemma {:induction false} RedirTrip(s: string, i: nat, c: Cmd<string>, j: nat) returns (d: Cmd<Span>)
    requires c.Redir? && LegalCmd(c) && At(s, i, Print(c)) && j == i + |Print(c)| && Stop(s, j)
    ensures LineIs(s, i, d, j) && Spells(s, d, c)
    decreases c, 0
  {
    var x, y := Print(c.cmd), Op(c.mode) + c.file;
    var m := i + 1 + |x|;
    assert Print(c) == "(" + x + ")" + y;
    Parens(s, i, x, y);
    var i1, m1 := i + 1, m + 1;
    var a := RoundTripAt(s, i1, c.cmd, m);
    PrintStart(s, i1, c.cmd);
    var q := m1 + |Op(c.mode)|;
    RedirAt(s, m1, c.mode, c.file, q, j);
    var t := Target(Span(q, j), c.mode);
    RedirParse(s, i, i1, a, m, m1, t, j);
    d := Redir(a, t.file, t.mode);
  }

  lemma {:induction false} PipeTrip(s: string, i: nat, c: Cmd<string>, j: nat) returns (d: Cmd<Span>)
    requires c.Pipe? && LegalCmd(c) && At(s, i, Print(c)) && j == i + |Print(c)| && Stop(s, j)
    ensures LineIs(s, i, d, j) && Spells(s, d, c)
    decreases c, 1
  {
    var m := i + 1 + |Print(c.left)|;
    var m1, m2 := m + 1, m + 2;
    TwoBlocks(s, i, Print(c.left), '|', Print(c.right), m, j);
    var a, b := PairTrip(s, i, c, c.left, '|', c.right, m, m1, m2, j);
    StopQuiet(s, j);
    EndPipe(s, m2, b, j);
    PipeParse(s, i, a, m1, m2, b, j);
    d := Pipe(a, b);
    EndLine(s, i, d, j);
  }

  lemma {:induction false} ListTrip(s: string, i: nat, c: Cmd<string>, j: nat) returns (d: Cmd<Span>)
    requires c.List? && LegalCmd(c) && At(s, i, Print(c)) && j == i + |Print(c)| && Stop(s, j)
    ensures LineIs(s, i, d, j) && Spells(s, d, c)
    decreases c, 1
  {
    var m := i + 1 + |Print(c.left)|;
    var m1, m2 := m + 1, m + 2;
    TwoBlocks(s, i, Print(c.left), ';', Print(c.right), m, j);
    var a, b := PairTrip(s, i, c, c.left, ';', c.right, m, m1, m2, j);
    EndPipe(s, i, a, m1);
    StopLine(s, m2, b, j);
    ListParse(s, i, a, m1, m2, b, j);
    d := List(a, b);
  }

  /** x and y in parentheses, with a symbol between them. */
  predicate PairAt(s: string, i: nat, x: string, op: char, y: string, m: nat, j: nat) {
    && m == i + 1 + |x| && j == m + 4 + |y| && j - 1 < |s|
    && s[i] == '(' && At(s, i + 1, x) && s[m] == ')' && s[m + 1] == op && s[m + 2] == '('
    && At(s, m + 3, y) && s[j - 1] == ')'
  }

  /** Two parenthesised commands with a symbol between them. */
  lemma {:induction false} PairTrip(s: string, i: nat, c: Cmd<string>, l: Cmd<string>, op: char, r: Cmd<string>, m: nat,
                                    m1: nat, m2: nat, j: nat)
    returns (a: Cmd<Span>, b: Cmd<Span>)
    requires (c == Pipe(l, r) || c == List(l, r)) && LegalCmd(l) && LegalCmd(r)
    requires Stop(s, j) && (op == '|' || op == ';')
    requires PairAt(s, i, Print(l), op, Print(r), m, j) && m1 == m + 1 && m2 == m + 2
    ensures ExecIs(s, i, a, m1) && Spells(s, a, l) && ExecIs(s, m2, b, j) && Spells(s, b, r)
    decreases c, 0
  {
    var i1, m3, n := i + 1, m + 3, j - 1;
    a := RoundTripAt(s, i1, l, m);
    b := RoundTripAt(s, m3, r, n);
    PrintStart(s, i1, l);
    PrintStart(s, m3, r);
    StopQuiet(s, j);
    PlainBlock(s, i, i1, a, m, m1);
    PlainBlock(s, m2, m3, b, n, j);
  }

  lemma {:induction false} BackTrip(s: string, i: nat, c: Cmd<string>, j: nat) returns (d: Cmd<Span>)
    requires c.Back? && LegalCmd(c) && At(s, i, Print(c)) && j == i + |Print(c)| && Stop(s, j)
    ensures LineIs(s, i, d, j) && Spells(s, d, c)
    decreases c, 0
  {
    var x := Print(c.cmd);
    var i1, m := i + 1, i + 1 + |x|;
    var m1 := m + 1;
    assert Print(c) == "(" + x + ")" + "&";
    Parens(s, i, x, "&");
    assert s[m1] == s[m1..m1 + 1][0] == '&';
    var a := RoundTripAt(s, i1, c.cmd, m);
    PrintStart(s, i1, c.cmd);
    PlainBlock(s, i, i1, a, m, m1);
    EndPipe(s, i, a, m1);
    BackParse(s, i, a, m1, j);
    d := Back(a);
  }

  lemma TwoBlocks(s: string, i: nat, x: string, op: char, y: string, m: nat, j: nat)
    requires At(s, i, "(" + x + [')', op, '('] + y + ")") && m == i + 1 + |x| && j == m + 4 + |y|
    ensures PairAt(s, i, x, op, y, m, j)
  {
    var tail := [op] + ("(" + y + ")" + "");
    assert "(" + x + [')', op, '('] + y + ")" == "(" + x + ")" + tail;
    Parens(s, i, x, tail);
    AtSplit(s, m + 1, [op], "(" + y + ")" + "");
    Parens(s, m + 2, y, "");
  }

  /** Parsing a print gives back the command, for every command with legal words. */
  lemma RoundTrip(c: Cmd<string>)
    requires LegalCmd(c)
    ensures var s := Print(c); var r := ParseCmd(s); r.Ok? && WordsOk(s, r.cmd) && Text(s, r.cmd) == c
  {
    var s := Print(c);
    assert s[0..0 + |s|] == s;
    var d := RoundTripAt(s, 0, c, |s|);
    assert Unfold(KEY);
    SkipNone(s, |s|);
  }
}
