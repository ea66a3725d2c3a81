/**
 The shell's tokens and grammar (user/sh.c), as functions of a line and a cursor into it.  The line
 holds no NUL; its end plays the part of the terminating one.
 */
module ShellGrammar {

  const WHITESPACE: string := " \t\r\n\U{0B}"
  const SYMBOLS: string := "<|>&;()"
  const MAXARGS: nat := 10

  predicate White(c: char) { c in WHITESPACE }

  predicate Symbol(c: char) { c in SYMBOLS }

  predicate InWord(c: char) { !White(c) && !Symbol(c) }

  /** Past white space. */
  function Skip(s: string, i: nat): (j: nat)
    requires i <= |s|
    ensures i <= j <= |s| && (j < |s| ==> !White(s[j]))
    decreases |s| - i
  {
    if i < |s| && White(s[i]) then Skip(s, i + 1) else i
  }

  function WordEnd(s: string, i: nat): (j: nat)
    requires i <= |s|
    ensures i <= j <= |s| && (forall k :: i <= k < j ==> InWord(s[k])) && (j < |s| ==> !InWord(s[j]))
    decreases |s| - i
  {
    if i < |s| && InWord(s[i]) then WordEnd(s, i + 1) else i
  }

  /** A stretch of the line. */
  datatype Span = Span(q: nat, eq: nat)

  /** Its kind: '\0' for the end of the line, 'a' for a word, '+' for ">>", a symbol otherwise. */
  datatype Token = Token(kind: char, span: Span, next: nat)

  /** gettoken */
  function GetToken(s: string, i: nat): (t: Token)
    requires i <= |s|
    ensures i <= t.next <= |s| && (t.kind != '\0' ==> i < t.next)
    ensures t.kind == 'a' ==> IsWord(s, t.span)
  {
    var q := Skip(s, i);
    if q == |s| then Token('\0', Span(q, q), q)
    else if s[q] == '>' && q + 1 < |s| && s[q + 1] == '>' then Token('+', Span(q, q + 2), Skip(s, q + 2))
    else if Symbol(s[q]) then Token(s[q], Span(q, q + 1), Skip(s, q + 1))
    else
      var eq := WordEnd(s, q);
      Token('a', Span(q, eq), Skip(s, eq))
  }

  /** A whole word: it ends at white space, at a symbol, or at the end of the line. */
  predicate IsWord(s: string, w: Span) {
    w.q < w.eq <= |s| && (forall k :: w.q <= k < w.eq ==> InWord(s[k])) && (w.eq < |s| ==> !InWord(s[w.eq]))
  }

  /** peek: whether the next character past white space is one of toks. */
  predicate Peek(s: string, i: nat, toks: string)
    requires i <= |s|
  {
    var j := Skip(s, i);
    j < |s| && s[j] in toks
  }

  // ----- Commands -----

  datatype Mode = Input | Output | Append

  datatype Cmd<W> =
    | Exec(args: seq<W>)
    | Redir(cmd: Cmd<W>, file: W, mode: Mode)
    | Pipe(left: Cmd<W>, right: Cmd<W>)
    | List(left: Cmd<W>, right: Cmd<W>)
    | Back(cmd: Cmd<W>)

  datatype Result = Ok(cmd: Cmd<Span>, next: nat) | Err(message: string)

  datatype Target = Target(file: Span, mode: Mode)

  datatype Targets = Files(targets: seq<Target>, next: nat) | Bad(message: string)

  /** Redirections around a command, the first innermost. */
  function Wrap(c: Cmd<Span>, ts: seq<Target>): Cmd<Span> {
    if ts == [] then c
    else Redir(Wrap(c, ts[..|ts| - 1]), ts[|ts| - 1].file, ts[|ts| - 1].mode)
  }

  function ModeOf(kind: char): Mode { if kind == '<' then Input else if kind == '>' then Output else Append }

  predicate Parsed(s: string, i: nat, r: Result) {
    r.Ok? ==> i <= r.next <= |s| && WordsOk(s, r.cmd)
  }

  /** Every argument and file name is a whole word of the line. */
  predicate WordsOk(s: string, c: Cmd<Span>) {
    match c
    case Exec(args) => forall i :: 0 <= i < |args| ==> IsWord(s, args[i])
    case Redir(d, file, _) => WordsOk(s, d) && IsWord(s, file)
    case Pipe(l, r) => WordsOk(s, l) && WordsOk(s, r)
    case List(l, r) => WordsOk(s, l) && WordsOk(s, r)
    case Back(d) => WordsOk(s, d)
  }

  predicate TargetsOk(s: string, ts: seq<Target>) {
    forall i :: 0 <= i < |ts| ==> IsWord(s, ts[i].file)
  }

  lemma WrapOk(s: string, c: Cmd<Span>, ts: seq<Target>)
    requires WordsOk(s, c) && TargetsOk(s, ts)
    ensures WordsOk(s, Wrap(c, ts))
  {
    if ts != [] {
      WrapOk(s, c, ts[..|ts| - 1]);
    }
  }

  /** parseredirs, after the redirections ts. */
  function ParseRedirs(s: string, ts: seq<Target>, i: nat): (r: Targets)
    requires i <= |s| && TargetsOk(s, ts)
    ensures r.Files? ==> i <= r.next <= |s| && TargetsOk(s, r.targets)
    decreases |s| - i
  {
    if !Peek(s, i, "<>") then Files(ts, Skip(s, i))
    else
      var t := GetToken(s, i);
      var f := GetToken(s, t.next);
      if f.kind != 'a' then Bad("missing file for redirection")
      else ParseRedirs(s, ts + [Target(f.span, ModeOf(t.kind))], f.next)
  }

  /** The loop of parseexec, after the arguments args and the redirections ts. */
  function ParseArgs(s: string, args: seq<Span>, ts: seq<Target>, i: nat): (r: Result)
    requires i <= |s| && TargetsOk(s, ts) && WordsOk(s, Exec(args))
    ensures Parsed(s, i, r)
    decreases |s| - i
  {
    if Peek(s, i, "|)&;") then
      WrapOk(s, Exec(args), ts);
      Ok(Wrap(Exec(args), ts), Skip(s, i))
    else
      var t := GetToken(s, i);
      if t.kind == '\0' then
        WrapOk(s, Exec(args), ts);
        Ok(Wrap(Exec(args), ts), t.next)
      else if t.kind != 'a' then Err("syntax")
      else if |args| + 1 >= MAXARGS then Err("too many args")
      else
        match ParseRedirs(s, ts, t.next)
        case Bad(m) => Err(m)
        case Files(ts', next) => ParseArgs(s, args + [t.span], ts', next)
  }

  function ParseExec(s: string, i: nat): (r: Result)
    requires i <= |s|
    ensures Parsed(s, i, r)
    decreases |s| - i, 1
  {
    if Peek(s, i, "(") then ParseBlock(s, i)
    else
      match ParseRedirs(s, [], i)
      case Bad(m) => Err(m)
      case Files(ts, next) => ParseArgs(s, [], ts, next)
  }

  function ParseBlock(s: string, i: nat): (r: Result)
    requires i <= |s|
    ensures Parsed(s, i, r)
    decreases |s| - i, 0
  {
    if !Peek(s, i, "(") then Err("parseblock")
    else
      match ParseLine(s, GetToken(s, i).next)
      case Err(m) => Err(m)
      case Ok(c, j) =>
        if !Peek(s, j, ")") then Err("syntax - missing )")
        else
          match ParseRedirs(s, [], GetToken(s, j).next)
          case Bad(m) => Err(m)
          case Files(ts, next) =>
            WrapOk(s, c, ts);
            Ok(Wrap(c, ts), next)
  }

  function ParsePipe(s: string, i: nat): (r: Result)
    requires i <= |s|
    ensures Parsed(s, i, r)
    decreases |s| - i, 2
  {
    match ParseExec(s, i)
    case Err(m) => Err(m)
    case Ok(c, j) =>
      if !Peek(s, j, "|") then Ok(c, Skip(s, j))
      else
        match ParsePipe(s, GetToken(s, j).next)
        case Err(m) => Err(m)
        case Ok(d, k) => Ok(Pipe(c, d), k)
  }

  /** The '&'s after a command. */
  function ParseBacks(s: string, c: Cmd<Span>, i: nat): (r: Result)
    requires i <= |s| && WordsOk(s, c)
    ensures r.Ok? && Parsed(s, i, r)
    decreases |s| - i
  {
    if !Peek(s, i, "&") then Ok(c, Skip(s, i)) else ParseBacks(s, Back(c), GetToken(s, i).next)
  }

  function ParseLine(s: string, i: nat): (r: Result)
    requires i <= |s|
    ensures Parsed(s, i, r)
    decreases |s| - i, 3
  {
    match ParsePipe(s, i)
    case Err(m) => Err(m)
    case Ok(c, j) =>
      var b := ParseBacks(s, c, j);
      if !Peek(s, b.next, ";") then Ok(b.cmd, Skip(s, b.next))
      else
        match ParseLine(s, GetToken(s, b.next).next)
        case Err(m) => Err(m)
        case Ok(d, k) => Ok(List(b.cmd, d), k)
  }

  /** parsecmd, up to its nulterminate. */
  function ParseCmd(s: string): (r: Result)
    ensures r.Ok? ==> r.next == |s| && WordsOk(s, r.cmd)
  {
    match ParseLine(s, 0)
    case Err(m) => Err(m)
    case Ok(c, i) => if Skip(s, i) != |s| then Err("syntax") else Ok(c, |s|)
  }
}
