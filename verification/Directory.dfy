/**
 Directories as sequences of entries (dirlookup and dirlink of kernel/fs.c, isdirempty of
 kernel/sysfile.c) and the names in a path (skipelem).
 */
module Directory {

  const DIRSIZ: nat := 14

  datatype Dirent = Dirent(inum: nat, name: string)

  datatype Option = None | Some(value: nat)

  /** What a directory keeps of a name, and all that namecmp compares. */
  function Trunc(name: string): string {
    if |name| <= DIRSIZ then name else name[..DIRSIZ]
  }

  predicate Matches(de: Dirent, name: string) { de.inum != 0 && de.name == Trunc(name) }

  /** No two entries in use have the same name, and names are no longer than they are kept. */
  ghost predicate Unique(es: seq<Dirent>) {
    && (forall i, j :: 0 <= i < |es| && 0 <= j < |es| && i != j && es[i].inum != 0 ==> !Matches(es[j], es[i].name))
    && (forall i :: 0 <= i < |es| && es[i].inum != 0 ==> |es[i].name| <= DIRSIZ)
  }

  /** The place of the entry for name. */
  ghost predicate FoundAt(es: seq<Dirent>, name: string, r: Option) {
    match r
    case Some(off) => off < |es| && Matches(es[off], name)
    case None => forall i :: 0 <= i < |es| ==> !Matches(es[i], name)
  }

  method Dirlookup(es: seq<Dirent>, name: string) returns (r: Option)
    ensures FoundAt(es, name, r)
    ensures r.Some? ==> forall i :: 0 <= i < r.value ==> !Matches(es[i], name)
  {
    var off := 0;
    while off < |es|
      invariant 0 <= off <= |es| && forall i :: 0 <= i < off ==> !Matches(es[i], name)
    {
      if es[off].inum != 0 && es[off].name == Trunc(name) {
        return Some(off);
      }
      off := off + 1;
    }
    return None;
  }

  /** A slot for a new entry: unused, or just past the end. */
  predicate Slot(es: seq<Dirent>, off: nat) {
    off == |es| || (off < |es| && es[off].inum == 0)
  }

  function Put(es: seq<Dirent>, off: nat, de: Dirent): seq<Dirent>
    requires off <= |es|
  {
    if off < |es| then es[off := de] else es + [de]
  }

  /** dirlink: the new entries, or None if the name is taken or the directory cannot grow. */
  method Dirlink(es: seq<Dirent>, name: string, inum: nat, full: bool) returns (ok: bool, off: nat, es': seq<Dirent>)
    requires inum != 0 && Unique(es)
    ensures ok ==> FoundAt(es, name, None) && Slot(es, off) && es' == Put(es, off, Dirent(inum, Trunc(name)))
    ensures ok ==> forall i :: 0 <= i < off ==> es[i].inum != 0
    ensures !ok ==> es' == es
    ensures ok <==> FoundAt(es, name, None) && !(full && forall i :: 0 <= i < |es| ==> es[i].inum != 0)
    ensures Unique(es')
  {
    es', off := es, 0;
    var r := Dirlookup(es, name);
    if r.Some? {
      assert Matches(es[r.value], name);
      return false, 0, es;
    }
    while off < |es|
      invariant 0 <= off <= |es| && forall i :: 0 <= i < off ==> es[i].inum != 0
    {
      if es[off].inum == 0 {
        break;
      }
      off := off + 1;
    }
    if off == |es| && full {
      return false, off, es;
    }
    PutUnique(es, off, name, inum);
    return true, off, Put(es, off, Dirent(inum, Trunc(name)));
  }

  lemma PutUnique(es: seq<Dirent>, off: nat, name: string, inum: nat)
    requires Unique(es) && Slot(es, off) && FoundAt(es, name, None) && inum != 0
    ensures Unique(Put(es, off, Dirent(inum, Trunc(name))))
  {
    assert Trunc(Trunc(name)) == Trunc(name);
    var es' := Put(es, off, Dirent(inum, Trunc(name)));
    forall i, j | 0 <= i < |es'| && 0 <= j < |es'| && i != j && es'[i].inum != 0 ensures !Matches(es'[j], es'[i].name) {
      if i < |es| && i != off {
        assert es'[i] == es[i] && |es[i].name| <= DIRSIZ && !Matches(es[i], name);
      }
      if j < |es| && j != off {
        assert es'[j] == es[j] && !Matches(es[j], name);
      }
    }
  }

  lemma RemoveUnique(es: seq<Dirent>, off: nat)
    requires Unique(es) && off < |es|
    ensures Unique(es[off := Dirent(0, "")])
  {
    var es' := es[off := Dirent(0, "")];
    forall i, j | 0 <= i < |es'| && 0 <= j < |es'| && i != j && es'[i].inum != 0 ensures !Matches(es'[j], es'[i].name) {
      assert es'[i] == es[i];
      if j != off {
        assert es'[j] == es[j];
      }
    }
  }

  /** Nothing beyond the first two entries. */
  predicate Empty(es: seq<Dirent>) { forall i :: 2 <= i < |es| ==> es[i].inum == 0 }

  method Isdirempty(es: seq<Dirent>) returns (r: bool)
    ensures r <==> Empty(es)
  {
    var off := 2;
    while off < |es|
      invariant 2 <= off && forall i :: 2 <= i < off && i < |es| ==> es[i].inum == 0
    {
      if es[off].inum != 0 {
        return false;
      }
      off := off + 1;
    }
    return true;
  }

  // ----- Paths -----

  /** The elements of a path: what stands between slashes. */
  function Elements(path: string): (es: seq<string>)
    decreases |path|
  {
    if path == "" then []
    else if path[0] == '/' then Elements(path[1..])
    else [path[..Span(path)]] + Elements(path[Span(path)..])
  }

  /** The length of the run of characters other than a slash. */
  function Span(path: string): (n: nat)
    ensures n <= |path| && (path != "" && path[0] != '/' ==> n > 0)
    ensures forall i :: 0 <= i < n ==> path[i] != '/'
    ensures n < |path| ==> path[n] == '/'
  {
    if path == "" || path[0] == '/' then 0 else 1 + Span(path[1..])
  }

  lemma {:induction false} SpanIs(path: string, n: nat)
    requires n <= |path| && (forall i :: 0 <= i < n ==> path[i] != '/') && (n < |path| ==> path[n] == '/')
    ensures Span(path) == n
  {
    if n > 0 {
      SpanIs(path[1..], n - 1);
    }
  }

  lemma {:induction false} ElementsOfSlashes(path: string, k: nat)
    requires k <= |path| && forall i :: 0 <= i < k ==> path[i] == '/'
    ensures Elements(path) == Elements(path[k..])
  {
    if k == 0 {
      assert path[0..] == path;
    } else {
      ElementsOfSlashes(path[1..], k - 1);
      assert path[1..][k - 1..] == path[k..];
    }
  }

  predicate Slashes(path: string, i: nat, j: nat)
    requires i <= j <= |path|
  {
    forall k :: i <= k < j ==> path[k] == '/'
  }

  method PastSlashes(path: string, i: nat) returns (j: nat)
    requires i <= |path|
    ensures i <= j <= |path| && Slashes(path, i, j) && (j < |path| ==> path[j] != '/')
  {
    j := i;
    while j < |path| && path[j] == '/'
      invariant i <= j <= |path| && Slashes(path, i, j)
    {
      j := j + 1;
    }
  }

  /** Slashes up to s, an element up to e, slashes up to r. */
  lemma FirstElement(path: string, s: nat, e: nat, r: nat)
    requires s < e <= r <= |path| && Slashes(path, 0, s) && Slashes(path, e, r)
    requires (forall k :: s <= k < e ==> path[k] != '/') && (e < |path| ==> path[e] == '/')
    ensures Elements(path) == [path[s..e]] + Elements(path[r..])
  {
    ElementsOfSlashes(path, s);
    NameAt(path, s, e);
    SlashesAt(path, e, r);
  }

  lemma NameAt(path: string, s: nat, e: nat)
    requires s < e <= |path| && (forall k :: s <= k < e ==> path[k] != '/') && (e < |path| ==> path[e] == '/')
    ensures Elements(path[s..]) == [path[s..e]] + Elements(path[e..])
  {
    var p := path[s..];
    assert p[..e - s] == path[s..e];
    assert p[e - s..] == path[e..];
    ElementsOfName(p, e - s);
  }

  lemma SlashesAt(path: string, e: nat, r: nat)
    requires e <= r <= |path| && Slashes(path, e, r)
    ensures Elements(path[e..]) == Elements(path[r..])
  {
    var q := path[e..];
    assert q[r - e..] == path[r..];
    ElementsOfSlashes(q, r - e);
  }

  lemma ElementsOfName(path: string, n: nat)
    requires 0 < n <= |path| && (forall i :: 0 <= i < n ==> path[i] != '/') && (n < |path| ==> path[n] == '/')
    ensures Elements(path) == [path[..n]] + Elements(path[n..])
  {
    SpanIs(path, n);
  }

  lemma NoElements(path: string)
    requires Slashes(path, 0, |path|)
    ensures Elements(path) == []
  {
    ElementsOfSlashes(path, |path|);
    assert path[|path|..] == "";
  }

  /** skipelem: the first element, as a directory keeps it, and the rest of the path without leading slashes. */
  method Skipelem(path: string) returns (ok: bool, name: string, rest: string)
    ensures ok <==> Elements(path) != []
    ensures ok ==> Elements(path) == [Elements(path)[0]] + Elements(rest) && name == Trunc(Elements(path)[0])
    ensures ok ==> |rest| < |path| && (rest != "" ==> rest[0] != '/')
    ensures ok ==> (rest == "" <==> |Elements(path)| == 1)
  {
    var s := PastSlashes(path, 0);
    if s == |path| {
      NoElements(path);
      return false, "", "";
    }
    var e := s;
    while e < |path| && path[e] != '/'
      invariant s <= e <= |path| && forall k :: s <= k < e ==> path[k] != '/'
    {
      e := e + 1;
    }
    var r := PastSlashes(path, e);
    FirstElement(path, s, e, r);
    name := if e - s >= DIRSIZ then path[s..e][..DIRSIZ] else path[s..e];
    rest := path[r..];
    if rest != "" {
      NonEmpty(rest);
    }
    return true, name, rest;
  }

  lemma NonEmpty(path: string)
    requires path != "" && path[0] != '/'
    ensures Elements(path) != []
  {
  }
}
