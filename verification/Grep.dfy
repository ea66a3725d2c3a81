/**
 grep's loop over its input (user/grep.c): lines are cut out of a fixed buffer that is refilled by reads of any
 size.
 */
module Grep {
  import opened Regex

  /** sizeof(buf) */
  const BUFSIZE: nat := 1024

  /** The place of the first newline; the length if there is none. */
  function NextLine(s: string): (i: nat)
    ensures i <= |s| && (i < |s| ==> s[i] == '\n') && forall k :: 0 <= k < i ==> s[k] != '\n'
  {
    if s == "" || s[0] == '\n' then 0 else 1 + NextLine(s[1..])
  }

  lemma NextLineIs(s: string, i: nat)
    requires i <= |s| && (i < |s| ==> s[i] == '\n') && forall k :: 0 <= k < i ==> s[k] != '\n'
    ensures NextLine(s) == i
  {
  }

  /** The newline-terminated lines of s that match, each with its newline. */
  ghost function Printed(re: string, s: string): string
    decreases |s|
  {
    var i := NextLine(s);
    if i == |s| then ""
    else (if Matches(re, s[..i]) then s[..i + 1] else "") + Printed(re, s[i + 1..])
  }

  /** The first line of s is complete, fits the buffer with room for a NUL, and has no NUL in it. */
  predicate Readable(s: string) {
    var i := NextLine(s);
    i < |s| && i + 1 < BUFSIZE && '\0' !in s[..i]
  }

  /** What follows the longest run of readable lines: grep gets no further. */
  function Rest(s: string): (t: string)
    ensures !Readable(t)
    decreases |s|
  {
    if Readable(s) then Rest(s[NextLine(s) + 1..]) else s
  }

  /** The matching lines of that run. */
  ghost function Output(re: string, s: string): string
    decreases |s|
  {
    if !Readable(s) then ""
    else
      var i := NextLine(s);
      (if Matches(re, s[..i]) then s[..i + 1] else "") + Output(re, s[i + 1..])
  }

  lemma Append(a: string, b: string, c: string)
    ensures (a + b) + c == a + (b + c)
  {
  }

  /** What grep prints is what it should, but for the lines that it does not get to. */
  lemma {:induction false} OutputThenRest(re: string, s: string)
    ensures Printed(re, s) == Output(re, s) + Printed(re, Rest(s))
    decreases |s|
  {
    if Readable(s) {
      var i := NextLine(s);
      var next := s[i + 1..];
      var line := if Matches(re, s[..i]) then s[..i + 1] else "";
      OutputThenRest(re, next);
      assert Printed(re, s) == line + Printed(re, next);
      assert Output(re, s) == line + Output(re, next) && Rest(s) == Rest(next);
      Append(line, Output(re, next), Printed(re, Rest(next)));
    } else {
      assert Output(re, s) == "" && Rest(s) == s;
    }
  }

  /** All matching lines are printed if and only if none is left from the first line that cannot be read. */
  lemma PrintsAll(re: string, s: string)
    ensures Output(re, s) == Printed(re, s) <==> Printed(re, Rest(s)) == ""
  {
    OutputThenRest(re, s);
    assert |Printed(re, s)| == |Output(re, s)| + |Printed(re, Rest(s))|;
  }

  /** Every complete line fits the buffer and has no NUL. */
  predicate AllReadable(s: string)
    decreases |s|
  {
    NextLine(s) == |s| || (Readable(s) && AllReadable(s[NextLine(s) + 1..]))
  }

  /** For such input every matching line is printed, whatever the pattern. */
  lemma {:induction false} ReadablePrintsAll(re: string, s: string)
    requires AllReadable(s)
    ensures Output(re, s) == Printed(re, s)
    decreases |s|
  {
    if Readable(s) {
      ReadablePrintsAll(re, s[NextLine(s) + 1..]);
    } else {
      assert NextLine(s) == |s|;
    }
  }

  /** The empty pattern matches everywhere. */
  lemma EmptyMatches(text: string)
    ensures Matches("", text)
  {
    EmptyPattern(text[0..]);
  }

  /** A line with a NUL hides the lines after it: of two lines that match, none is printed. */
  lemma NulHides()
    ensures Output("", "\0\nb\n") == "" && Printed("", "\0\nb\n") == "\0\nb\n"
  {
    var s, t := "\0\nb\n", "b\n";
    NextLineIs(s, 1);
    NextLineIs(t, 1);
    assert s[..1][0] == '\0' && s[2..] == t && s[..2] == "\0\n";
    assert t[..2] == t && t[2..] == "" && Printed("", "") == "";
    EmptyMatches(s[..1]);
    EmptyMatches(t[..1]);
    assert Printed("", t) == t[..2] + Printed("", "");
    assert Printed("", s) == s[..2] + Printed("", t);
  }

  /** No line is complete up to the first NUL. */
  predicate Blocked(x: string) {
    var i := NextLine(x);
    i == |x| || '\0' in x[..i]
  }

  /** strchr(buf + p, '\n'), the place of the newline, or of the NUL if that comes first. */
  method Strchr(buf: array<char>, p: nat, m: nat) returns (q: nat)
    requires p <= m < buf.Length && buf[m] == '\0'
    ensures p <= q <= m && (buf[q] == '\n' || buf[q] == '\0')
    ensures forall k :: p <= k < q ==> buf[k] != '\n' && buf[k] != '\0'
  {
    q := p;
    while buf[q] != '\n' && buf[q] != '\0'
      invariant p <= q <= m && forall k :: p <= k < q ==> buf[k] != '\n' && buf[k] != '\0'
      decreases m - q
    {
      q := q + 1;
    }
  }

  /** What the line of s from p to its newline at q adds to the output. */
  ghost function LineOut(re: string, s: string, p: nat, q: nat): string
    requires p <= q < |s|
  {
    if Matches(re, s[p..q]) then s[p..q + 1] else ""
  }

  lemma OutputFirst(re: string, y: string, i: nat)
    requires i < |y| && i + 1 < BUFSIZE && y[i] == '\n' && '\0' !in y[..i] && forall k :: 0 <= k < i ==> y[k] != '\n'
    ensures Output(re, y) == (if Matches(re, y[..i]) then y[..i + 1] else "") + Output(re, y[i + 1..])
  {
    NextLineIs(y, i);
  }

  lemma LineStep(re: string, s: string, p: nat, q: nat, rest: string)
    requires p <= q < |s| < BUFSIZE && s[q] == '\n' && forall k :: p <= k < q ==> s[k] != '\n' && s[k] != '\0'
    ensures Output(re, s[p..] + rest) == LineOut(re, s, p, q) + Output(re, s[q + 1..] + rest)
  {
    var y, i := s[p..] + rest, q - p;
    assert y[..i] == s[p..q] && y[..i + 1] == s[p..q + 1] && y[i + 1..] == s[q + 1..] + rest;
    assert forall k :: 0 <= k < i ==> y[k] == s[p + k];
    OutputFirst(re, y, i);
  }

  /** The search stopped at a NUL: of the text, or after it. */
  lemma SearchEnds(x: string, i: nat)
    requires i <= |x| && (i < |x| ==> x[i] == '\0') && forall k :: 0 <= k < i ==> x[k] != '\n'
    ensures Blocked(x)
  {
    var j := NextLine(x);
    assert j >= i;
    if i < j {
      assert x[..j][i] == '\0';
    }
  }

  /** Print the line from p to the newline at q if it matches. */
  method OneLine(re: string, buf: array<char>, p: nat, q: nat, ghost s: string) returns (out: string)
    requires p <= q < |s| <= buf.Length && buf[q] == s[q] == '\n' && buf[p..q] == s[p..q]
    modifies buf
    ensures out == LineOut(re, s, p, q)
    ensures forall k :: 0 <= k < buf.Length && k != q ==> buf[k] == old(buf[k])
  {
    buf[q] := '\0';
    assert buf[p..q] == s[p..q];
    var ok := Match(re, buf[p..q]);
    out := "";
    if ok {
      buf[q] := '\n';
      out := buf[p..q + 1];
      assert out == s[p..q] + ['\n'] == s[p..q + 1];
    }
  }

  /** The inner loop: print the matching lines that are complete in the buffer; p is where the rest starts. */
  method Lines(re: string, buf: array<char>, m: nat, ghost rest: string) returns (out: string, p: nat)
    requires m < buf.Length == BUFSIZE && buf[m] == '\0'
    modifies buf
    ensures p <= m && buf[p..m] == old(buf[p..m]) && Blocked(buf[p..m])
    ensures out + Output(re, buf[p..m] + rest) == Output(re, old(buf[..m]) + rest)
  {
    ghost var s := buf[..m];
    out, p := "", 0;
    assert s[0..] == s;
    ghost var all := Output(re, s + rest);
    while true
      invariant 0 <= p <= m && |s| == m && buf[m] == '\0'
      invariant out + Output(re, s[p..] + rest) == all
      invariant forall k :: p <= k < m ==> buf[k] == s[k]
      decreases m - p
    {
      var q := Strchr(buf, p, m);
      if buf[q] == '\0' {
        assert buf[p..m] == s[p..];
        SearchEnds(s[p..], q - p);
        return;
      }
      assert buf[p..q] == s[p..q];
      LineStep(re, s, p, q, rest);
      var more := OneLine(re, buf, p, q, s);
      Append(out, more, Output(re, s[q + 1..] + rest));
      out := out + more;
      p := q + 1;
    }
  }

  /** A blocked buffer that is full, or has no input left to come, holds nothing more to print. */
  lemma NothingMore(re: string, x: string, rest: string)
    requires Blocked(x) && (rest == "" || |x| + 1 == BUFSIZE)
    ensures Output(re, x + rest) == ""
  {
    var i, j := NextLine(x), NextLine(x + rest);
    assert forall k :: 0 <= k < |x| ==> (x + rest)[k] == x[k];
    assert j >= i;
    if i < |x| {
      assert j == i && (x + rest)[..i] == x[..i];
    }
  }

  /** read(fd, buf + m, room) returns any number of bytes, 0 only when there are none left or no room. */
  method Read(room: nat, left: nat) returns (n: nat)
    ensures n <= room && n <= left && (n == 0 <==> room == 0 || left == 0)
  {
    if room == 0 || left == 0 {
      return 0;
    }
    assert 0 < 1 <= room && 1 <= left;
    n :| 0 < n <= room && n <= left;
  }

  /**
   grep, for any pattern and input and however the reads are chunked: the matching lines are printed, in order, up to
   the first line that is not complete, has a NUL, or does not fit the buffer.
   */
  method Grep(re: string, input: string) returns (out: string)
    ensures out == Output(re, input)
  {
    var buf := new char[BUFSIZE];
    var m, left := 0, input;
    out := "";
    ghost var view, all := input, Output(re, input);
    assert buf[..0] + input == input;
    while true
      invariant 0 <= m < BUFSIZE && Blocked(buf[..m])
      invariant view == buf[..m] + left && out + Output(re, view) == all
      decreases |left|
    {
      var n := Read(BUFSIZE - m - 1, |left|);
      if n == 0 {
        NothingMore(re, buf[..m], left);
        assert out + "" == out;
        return;
      }
      var chunk, rest := left[..n], left[n..];
      Split(buf[..m], left, n);
      var more;
      more, m := Turn(re, buf, m, chunk, rest);
      assert more + Output(re, buf[..m] + rest) == Output(re, view);
      view := buf[..m] + rest;
      Append(out, more, Output(re, view));
      out := out + more;
      left := rest;
    }
  }

  /** One turn of the outer loop: new bytes, the lines they complete, and the rest moved to the front. */
  method Turn(re: string, buf: array<char>, m: nat, chunk: string, ghost rest: string) returns (out: string, m': nat)
    requires buf.Length == BUFSIZE && m + |chunk| < BUFSIZE
    modifies buf
    ensures m' < BUFSIZE && Blocked(buf[..m'])
    ensures out + Output(re, buf[..m'] + rest) == Output(re, old(buf[..m]) + chunk + rest)
  {
    var end := Refill(buf, m, chunk);
    ghost var all := buf[..end];
    var p;
    out, p := Lines(re, buf, end, rest);
    ghost var tail := buf[p..end];
    assert tail == all[p..];
    Shift(buf, p, end);
    m' := end - p;
    assert buf[..m'] == tail;
  }

  /** Bytes read move from the input to the buffer. */
  lemma Split(x: string, left: string, n: nat)
    requires n <= |left|
    ensures x + left[..n] + left[n..] == x + left
  {
    assert left == left[..n] + left[n..];
  }

  /** The read itself: the new bytes after the m already there, and a NUL after them. */
  method Refill(buf: array<char>, m: nat, chunk: string) returns (m': nat)
    requires m + |chunk| < buf.Length
    modifies buf
    ensures m' == m + |chunk| && buf[..m'] == old(buf[..m]) + chunk && buf[m'] == '\0'
  {
    m' := m + |chunk|;
    forall k | 0 <= k < |chunk| {
      buf[m + k] := chunk[k];
    }
    buf[m'] := '\0';
  }

  /** memmove(buf, buf + p, m - p) */
  method Shift(buf: array<char>, p: nat, m: nat)
    requires p <= m <= buf.Length
    modifies buf
    ensures buf[..m - p] == old(buf[p..m])
  {
    forall k | 0 <= k < m - p {
      buf[k] := buf[p + k];
    }
  }
}
