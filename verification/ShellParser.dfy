/**
 The shell's parser as it runs (user/sh.c): a cursor moved by loops, and strings ended in place.
 */
module ShellParser {
  import opened ShellGrammar
  import Language = ShellLanguage

  lemma SkipAgain(s: string, i: nat)
    requires i <= |s|
    ensures Skip(s, Skip(s, i)) == Skip(s, i)
  {
  }

  method PastWhite(s: string, i: nat) returns (j: nat)
    requires i <= |s|
    ensures j == Skip(s, i)
  {
    j := i;
    while j < |s| && White(s[j])
      invariant i <= j <= |s| && Skip(s, j) == Skip(s, i)
    {
      j := j + 1;
    }
  }

  method Gettoken(s: string, i: nat) returns (t: Token)
    requires i <= |s|
    ensures t == GetToken(s, i)
  {
    var q := PastWhite(s, i);
    var kind, eq := '\0', q;
    if q < |s| {
      if Symbol(s[q]) {
        kind := s[q];
        eq := q + 1;
        if kind == '>' && eq < |s| && s[eq] == '>' {
          kind := '+';
          eq := eq + 1;
        }
      } else {
        kind := 'a';
        while eq < |s| && !White(s[eq]) && !Symbol(s[eq])
          invariant q <= eq <= |s| && WordEnd(s, eq) == WordEnd(s, q)
        {
          eq := eq + 1;
        }
      }
    }
    var next := PastWhite(s, eq);
    t := Token(kind, Span(q, eq), next);
  }

  method PeekAt(s: string, i: nat, toks: string) returns (found: bool, j: nat)
    requires i <= |s|
    ensures found == Peek(s, i, toks) && j == Skip(s, i)
  {
    j := PastWhite(s, i);
    found := j < |s| && s[j] in toks;
  }

  /** White space before the cursor makes no difference to what follows. */
  lemma SameAfterSkip(s: string, i: nat)
    requires i <= |s|
    ensures GetToken(s, Skip(s, i)) == GetToken(s, i)
    ensures forall toks :: Peek(s, Skip(s, i), toks) == Peek(s, i, toks)
  {
    SkipAgain(s, i);
  }

  method Parseredirs(s: string, ts0: seq<Target>, i: nat) returns (r: Targets)
    requires i <= |s| && TargetsOk(s, ts0)
    ensures r == ParseRedirs(s, ts0, i)
  {
    var ts, j := ts0, i;
    while true
      invariant i <= j <= |s| && TargetsOk(s, ts) && ParseRedirs(s, ts, j) == ParseRedirs(s, ts0, i)
      decreases |s| - j
    {
      var found, k := PeekAt(s, j, "<>");
      SameAfterSkip(s, j);
      if !found {
        return Files(ts, k);
      }
      var t := Gettoken(s, k);
      var f := Gettoken(s, t.next);
      if f.kind != 'a' {
        return Bad("missing file for redirection");
      }
      ts := ts + [Target(f.span, ModeOf(t.kind))];
      j := f.next;
    }
  }

  /** The loop of parseexec. */
  method Parseargs(s: string, ts0: seq<Target>, i: nat) returns (r: Result)
    requires i <= |s| && TargetsOk(s, ts0)
    ensures r == ParseArgs(s, [], ts0, i)
  {
    var args: seq<Span>, ts, j := [], ts0, i;
    while true
      invariant i <= j <= |s| && TargetsOk(s, ts) && WordsOk(s, Exec(args))
      invariant ParseArgs(s, args, ts, j) == ParseArgs(s, [], ts0, i)
      decreases |s| - j
    {
      var found, k := PeekAt(s, j, "|)&;");
      SameAfterSkip(s, j);
      if found {
        return Ok(Wrap(Exec(args), ts), k);
      }
      var t := Gettoken(s, k);
      if t.kind == '\0' {
        return Ok(Wrap(Exec(args), ts), t.next);
      }
      if t.kind != 'a' {
        return Err("syntax");
      }
      if |args| + 1 >= MAXARGS {
        return Err("too many args");
      }
      var rs := Parseredirs(s, ts, t.next);
      match rs {
        case Bad(m) => return Err(m);
        case Files(ts', next) => args, ts, j := args + [t.span], ts', next;
      }
    }
  }

  lemma RedirsAfterSkip(s: string, ts: seq<Target>, i: nat)
    requires i <= |s| && TargetsOk(s, ts)
    ensures ParseRedirs(s, ts, Skip(s, i)) == ParseRedirs(s, ts, i)
  {
    SkipAgain(s, i);
    SameAfterSkip(s, i);
  }

  method Parseexec(s: string, i: nat) returns (r: Result)
    requires i <= |s|
    ensures r == ParseExec(s, i)
    decreases |s| - i, 1
  {
    var found, j := PeekAt(s, i, "(");
    if found {
      r := Parseblock(s, i);
      return;
    }
    RedirsAfterSkip(s, [], i);
    var rs := Parseredirs(s, [], j);
    match rs {
      case Bad(m) => return Err(m);
      case Files(ts, next) => r := Parseargs(s, ts, next);
    }
  }

  method Parseblock(s: string, i: nat) returns (r: Result)
    requires i <= |s|
    ensures r == ParseBlock(s, i)
    decreases |s| - i, 0
  {
    var found, j := PeekAt(s, i, "(");
    SameAfterSkip(s, i);
    if !found {
      return Err("parseblock");
    }
    var t := Gettoken(s, j);
    var c := Parseline(s, t.next);
    if c.Err? {
      return Err(c.message);
    }
    var closed, k := PeekAt(s, c.next, ")");
    SameAfterSkip(s, c.next);
    if !closed {
      return Err("syntax - missing )");
    }
    var u := Gettoken(s, k);
    var rs := Parseredirs(s, [], u.next);
    match rs {
      case Bad(m) => return Err(m);
      case Files(ts, next) => return Ok(Wrap(c.cmd, ts), next);
    }
  }

  method Parsepipe(s: string, i: nat) returns (r: Result)
    requires i <= |s|
    ensures r == ParsePipe(s, i)
    decreases |s| - i, 2
  {
    var c := Parseexec(s, i);
    if c.Err? {
      return c;
    }
    var found, j := PeekAt(s, c.next, "|");
    SameAfterSkip(s, c.next);
    if !found {
      return Ok(c.cmd, j);
    }
    var t := Gettoken(s, j);
    var d := Parsepipe(s, t.next);
    if d.Err? {
      return d;
    }
    return Ok(Pipe(c.cmd, d.cmd), d.next);
  }

  method Parseline(s: string, i: nat) returns (r: Result)
    requires i <= |s|
    ensures r == ParseLine(s, i)
    decreases |s| - i, 3
  {
    var p := Parsepipe(s, i);
    if p.Err? {
      return p;
    }
    var c, j := p.cmd, p.next;
    while true
      invariant i <= j <= |s| && WordsOk(s, c) && ParseBacks(s, c, j) == ParseBacks(s, p.cmd, p.next)
      decreases |s| - j
    {
      var found, k := PeekAt(s, j, "&");
      SameAfterSkip(s, j);
      if !found {
        j := k;
        break;
      }
      var t := Gettoken(s, k);
      c, j := Back(c), t.next;
    }
    var found, k := PeekAt(s, j, ";");
    SameAfterSkip(s, j);
    if !found {
      return Ok(c, k);
    }
    var t := Gettoken(s, k);
    var d := Parseline(s, t.next);
    if d.Err? {
      return d;
    }
    return Ok(List(c, d.cmd), d.next);
  }

  // ----- Ending the strings in place -----

  /** The places where nulterminate writes. */
  ghost function Ends(c: Cmd<Span>): set<nat> {
    match c
    case Exec(args) => set i | 0 <= i < |args| :: args[i].eq
    case Redir(d, file, _) => Ends(d) + {file.eq}
    case Pipe(l, r) => Ends(l) + Ends(r)
    case List(l, r) => Ends(l) + Ends(r)
    case Back(d) => Ends(d)
  }

  method Nulterminate(buf: array<char>, c: Cmd<Span>, ghost s: string)
    requires buf.Length == |s| + 1 && WordsOk(s, c)
    modifies buf
    ensures forall k :: 0 <= k < buf.Length ==> buf[k] == if k in Ends(c) then '\0' else old(buf[k])
  {
    match c
    case Exec(args) =>
      var i := 0;
      while i < |args|
        invariant 0 <= i <= |args|
        invariant forall k :: 0 <= k < buf.Length ==> buf[k] == if k in Ends(Exec(args[..i])) then '\0' else old(buf[k])
      {
        assert IsWord(s, args[i]);
        buf[args[i].eq] := '\0';
        assert Ends(Exec(args[..i + 1])) == Ends(Exec(args[..i])) + {args[i].eq};
        i := i + 1;
      }
      assert args[..|args|] == args;
    case Redir(d, file, _) =>
      Nulterminate(buf, d, s);
      buf[file.eq] := '\0';
    case Pipe(l, r) =>
      Nulterminate(buf, l, s);
      Nulterminate(buf, r, s);
    case List(l, r) =>
      Nulterminate(buf, l, s);
      Nulterminate(buf, r, s);
    case Back(d) => Nulterminate(buf, d, s);
  }

  ghost function Words(c: Cmd<Span>): set<Span> {
    match c
    case Exec(args) => set i | 0 <= i < |args| :: args[i]
    case Redir(d, file, _) => Words(d) + {file}
    case Pipe(l, r) => Words(l) + Words(r)
    case List(l, r) => Words(l) + Words(r)
    case Back(d) => Words(d)
  }

  /** Words are whole words of the line, and nulterminate writes just past them. */
  lemma {:induction false} WordsEnd(s: string, c: Cmd<Span>)
    requires WordsOk(s, c)
    ensures forall w :: w in Words(c) ==> IsWord(s, w) && w.eq in Ends(c)
    ensures forall e :: e in Ends(c) ==> e <= |s| && (e < |s| ==> !InWord(s[e]))
  {
    match c
    case Exec(args) =>
      forall w | w in Words(c) ensures IsWord(s, w) && w.eq in Ends(c) {
        var i :| 0 <= i < |args| && args[i] == w;
      }
      forall e | e in Ends(c) ensures e <= |s| && (e < |s| ==> !InWord(s[e])) {
        var i :| 0 <= i < |args| && args[i].eq == e;
        assert IsWord(s, args[i]);
      }
    case Redir(d, file, _) => WordsEnd(s, d);
    case Pipe(l, r) =>
      WordsEnd(s, l);
      WordsEnd(s, r);
    case List(l, r) =>
      WordsEnd(s, l);
      WordsEnd(s, r);
    case Back(d) => WordsEnd(s, d);
  }

  /** As C strings in buf, the arguments and file names of c are their token texts. */
  ghost predicate Ended(buf: seq<char>, s: string, c: Cmd<Span>)
    requires |buf| == |s| + 1
  {
    forall w :: w in Words(c) ==> w.q < w.eq <= |s| && buf[w.q..w.eq] == s[w.q..w.eq] && buf[w.eq] == '\0'
  }

  /** No write of nulterminate is inside a word. */
  lemma EndedInPlace(b: seq<char>, s: string, c: Cmd<Span>)
    requires |b| == |s| + 1 && WordsOk(s, c)
    requires forall k :: 0 <= k < |b| ==> b[k] == if k in Ends(c) then '\0' else if k < |s| then s[k] else '\0'
    ensures Ended(b, s, c)
  {
    WordsEnd(s, c);
    forall w | w in Words(c)
      ensures w.q < w.eq <= |s| && b[w.q..w.eq] == s[w.q..w.eq] && b[w.eq] == '\0'
    {
      assert IsWord(s, w) && w.eq in Ends(c);
      assert forall k :: w.q <= k < w.eq ==> k !in Ends(c) && b[k] == s[k];
    }
  }

  /** parsecmd up to nulterminate: a line, and nothing after it. */
  method ParseWhole(s: string) returns (r: Result)
    ensures r == ParseCmd(s)
  {
    var c := Parseline(s, 0);
    if c.Err? {
      return c;
    }
    var _, i := PeekAt(s, c.next, "");
    if i != |s| {
      return Err("syntax");
    }
    return Ok(c.cmd, |s|);
  }

  /**
   parsecmd on a line in buf: the command that the grammar derives for it, or an error if there is none; and every
   argument and file name ended in place without a write inside another.
   */
  method Parsecmd(buf: array<char>, s: string) returns (r: Result)
    requires buf.Length == |s| + 1 && buf[..|s|] == s && buf[|s|] == '\0'
    modifies buf
    ensures r == ParseCmd(s)
    ensures if r.Ok? then Language.Derives(s, r.cmd) else forall c :: !Language.Derives(s, c)
    ensures r.Ok? ==> Ended(buf[..], s, r.cmd)
    ensures r.Err? ==> buf[..] == old(buf[..])
  {
    r := ParseWhole(s);
    if r.Ok? {
      assert forall k :: 0 <= k < |s| ==> buf[k] == buf[..|s|][k];
      Nulterminate(buf, r.cmd, s);
      EndedInPlace(buf[..], s, r.cmd);
    }
    Language.ParseCmdMeans(s);
  }
}
