/**
 What link, unlink, create and mkdir do (kernel/sysfile.c), in every run: a directory is a finite map from names to
 inodes, and each call changes that map in one place, the counts it should, and nothing else.
 */
module LinkCalls {
  import opened Directory
  import opened Links
  import opened LinkFloors

  /** The entries in use, as a map from names as they are kept to inode numbers. */
  ghost function NamesIn(es: seq<Dirent>): map<string, nat>
    requires Unique(es)
  {
    map i | 0 <= i < |es| && es[i].inum != 0 :: es[i].name := es[i].inum
  }

  /** Looking a name up is looking it up in the map. */
  lemma LookupIsMap(es: seq<Dirent>, name: string, r: Option)
    requires Unique(es) && FoundAt(es, name, r)
    ensures r.None? <==> Trunc(name) !in NamesIn(es)
    ensures r.Some? ==> NamesIn(es)[Trunc(name)] == es[r.value].inum
  {
  }

  lemma NameAt(es: seq<Dirent>, i: nat)
    requires Unique(es) && i < |es| && es[i].inum != 0
    ensures es[i].name in NamesIn(es) && NamesIn(es)[es[i].name] == es[i].inum
  {
  }

  /** A name of es other than the new one is a name of es', and the other way round. */
  lemma OtherName(es: seq<Dirent>, es': seq<Dirent>, off: nat, n: string)
    requires Unique(es) && Unique(es') && |es| <= |es'| <= |es| + 1 && (|es'| > |es| ==> off == |es|)
    requires forall i :: 0 <= i < |es| && i != off ==> es'[i] == es[i]
    requires (off < |es'| ==> es'[off].inum == 0 || es'[off].name != n)
    requires (off < |es| ==> es[off].inum == 0 || es[off].name != n)
    ensures n in NamesIn(es') <==> n in NamesIn(es)
    ensures n in NamesIn(es) ==> NamesIn(es')[n] == NamesIn(es)[n]
  {
    if n in NamesIn(es) {
      var i :| 0 <= i < |es| && es[i].inum != 0 && es[i].name == n;
      NameAt(es, i);
      NameAt(es', i);
    }
    if n in NamesIn(es') {
      var i :| 0 <= i < |es'| && es'[i].inum != 0 && es'[i].name == n;
      NameAt(es, i);
    }
  }

  lemma NamesPut(es: seq<Dirent>, off: nat, name: string, x: nat)
    requires Unique(es) && Slot(es, off) && FoundAt(es, name, None) && x != 0
    ensures Unique(Put(es, off, Dirent(x, Trunc(name))))
    ensures NamesIn(Put(es, off, Dirent(x, Trunc(name)))) == NamesIn(es)[Trunc(name) := x]
  {
    PutUnique(es, off, name, x);
    var es', m := Put(es, off, Dirent(x, Trunc(name))), NamesIn(es)[Trunc(name) := x];
    NameAt(es', off);
    forall n ensures (n in NamesIn(es') <==> n in m) && (n in m ==> NamesIn(es')[n] == m[n]) {
      if n != Trunc(name) {
        OtherName(es, es', off, n);
      }
    }
    assert NamesIn(es') == m;
  }

  lemma NamesRemove(es: seq<Dirent>, off: nat)
    requires Unique(es) && off < |es| && es[off].inum != 0
    ensures Unique(es[off := Dirent(0, "")])
    ensures NamesIn(es[off := Dirent(0, "")]) == NamesIn(es) - {es[off].name} && es[off].name in NamesIn(es)
    ensures NamesIn(es)[es[off].name] == es[off].inum
  {
    RemoveUnique(es, off);
    NameAt(es, off);
    var es', m := es[off := Dirent(0, "")], NamesIn(es) - {es[off].name};
    forall n ensures (n in NamesIn(es') <==> n in m) && (n in m ==> NamesIn(es')[n] == m[n]) {
      if n != es[off].name {
        OtherName(es, es', off, n);
      }
    }
    assert NamesIn(es') == m;
  }

  // ----- The directory that a call changes -----

  /** Only these inodes differ, and what differs is as given. */
  ghost predicate Only(s: State, s': State, changed: set<nat>) {
    && s'.nodes.Keys == s.nodes.Keys
    && forall y :: y in s.nodes && y !in changed ==> s'.nodes[y] == s.nodes[y]
  }

  /** d has the map given, and its count has moved by n. */
  ghost predicate NowNames(s: State, s': State, d: nat, names: map<string, nat>, n: int) {
    && d in s.nodes && d in s'.nodes && s'.nodes[d].kind == s.nodes[d].kind && s'.nodes[d].nlink == s.nodes[d].nlink + n
    && Unique(s'.nodes[d].entries) && NamesIn(s'.nodes[d].entries) == names
  }

  lemma DirUnique(s: State, d: nat)
    requires Floors(s) && d in s.nodes
    ensures Unique(s.nodes[d].entries) && d != 0
  {
    assert Covered(s, d);
  }

  /** sys_unlink takes the name away, and a link from what it named; from the directory too if that was one. */
  lemma Unlinks(s: State, d: nat, off: nat)
    requires Floors(s) && Enabled(s, Unlink(d, off))
    ensures Unique(s.nodes[d].entries)
    ensures var s', es := Step(s, Unlink(d, off)), s.nodes[d].entries; var x := es[off].inum;
      && Only(s, s', {d, x}) && s'.links == s.links && x in s'.nodes
      && es[off].name in NamesIn(es) && NamesIn(es)[es[off].name] == x
      && NowNames(s, s', d, NamesIn(es) - {es[off].name},
                  -(if s.nodes[x].kind == Dir then 1 else 0) - (if x == d then 1 else 0))
      && (x != d ==> s.nodes[x].nlink > 0 && s'.nodes[x] == s.nodes[x].(nlink := s.nodes[x].nlink - 1))
  {
    DirUnique(s, d);
    NamedHasLink(s, d, off);
    NamesRemove(s.nodes[d].entries, off);
  }

  /** The second half of sys_link enters the name, of the file whose count was raised. */
  lemma LinkEnters(s: State, h: nat, d: nat, name: string, off: nat)
    requires Floors(s) && Enabled(s, LinkEntry(h, d, name, off))
    ensures Unique(s.nodes[d].entries)
    ensures var s', x := Step(s, LinkEntry(h, d, name, off)), s.links[h];
      && Only(s, s', {d}) && s'.links == s.links - {h} && x in s.nodes && s.nodes[x].kind == File
      && Trunc(name) !in NamesIn(s.nodes[d].entries)
      && NowNames(s, s', d, NamesIn(s.nodes[d].entries)[Trunc(name) := x], 0)
  {
    DirUnique(s, d);
    DirUnique(s, s.links[h]);
    LookupIsMap(s.nodes[d].entries, name, None);
    NamesPut(s.nodes[d].entries, off, name, s.links[h]);
  }

  /** The first half raises the count of a file; if it fails later, the count is as before. */
  lemma LinkRaises(s: State, h: nat, x: nat)
    requires Floors(s) && Enabled(s, LinkBegin(h, x))
    ensures var s' := Step(s, LinkBegin(h, x));
      && Only(s, s', {x}) && x in s'.nodes && s'.nodes[x] == s.nodes[x].(nlink := s.nodes[x].nlink + 1)
      && Enabled(s', LinkUndo(h)) && Step(s', LinkUndo(h)) == s
  {
    var s' := Step(s, LinkBegin(h, x));
    var s2 := Step(s', LinkUndo(h));
    assert s2.nodes == s.nodes && s2.links == s.links;
  }

  /** create makes an empty file with one link, and enters its name. */
  lemma Creates(s: State, d: nat, name: string, off: nat, x: nat)
    requires Floors(s) && Enabled(s, Create(d, name, off, x))
    ensures Unique(s.nodes[d].entries)
    ensures var s' := Step(s, Create(d, name, off, x));
      && x != d && s.nodes[x].kind == FreeNode && Only(s, s', {d, x}) && s'.links == s.links
      && x in s'.nodes && s'.nodes[x] == Node(File, 1, [])
      && Trunc(name) !in NamesIn(s.nodes[d].entries)
      && NowNames(s, s', d, NamesIn(s.nodes[d].entries)[Trunc(name) := x], 0)
  {
    DirUnique(s, d);
    LookupIsMap(s.nodes[d].entries, name, None);
    NamesPut(s.nodes[d].entries, off, name, x);
  }

  /** mkdir makes a directory with one link that names itself and d, enters its name, and raises d's count. */
  lemma Mkdirs(s: State, d: nat, name: string, off: nat, x: nat)
    requires Floors(s) && Enabled(s, Mkdir(d, name, off, x))
    ensures Unique(s.nodes[d].entries)
    ensures var s' := Step(s, Mkdir(d, name, off, x));
      && x != d && s.nodes[x].kind == FreeNode && Only(s, s', {d, x}) && s'.links == s.links
      && x in s'.nodes && s'.nodes[x].kind == Dir && s'.nodes[x].nlink == 1
      && Unique(s'.nodes[x].entries) && NamesIn(s'.nodes[x].entries) == map["." := x, ".." := d]
      && Trunc(name) !in NamesIn(s.nodes[d].entries)
      && NowNames(s, s', d, NamesIn(s.nodes[d].entries)[Trunc(name) := x], 1)
  {
    DirUnique(s, d);
    DirUnique(s, x);
    LookupIsMap(s.nodes[d].entries, name, None);
    NamesPut(s.nodes[d].entries, off, name, x);
    DotsNames(x, d);
  }

  lemma DotsNames(x: nat, d: nat)
    requires x != 0 && d != 0
    ensures Unique(Dots(x, d)) && NamesIn(Dots(x, d)) == map["." := x, ".." := d]
  {
    var es := Dots(x, d);
    assert es[0] == Dirent(x, ".") && es[1] == Dirent(d, "..");
  }

  /** The last iput of an inode without links frees it, and nothing else. */
  lemma Reclaims(s: State, x: nat)
    requires Floors(s) && Enabled(s, Reclaim(x))
    ensures var s' := Step(s, Reclaim(x));
      && Only(s, s', {x}) && s'.links == s.links && x in s'.nodes && IsFree(s', x) && s'.nodes[x].nlink == 0
      && s'.nodes[x].entries == []
  {
    DirUnique(s, x);
  }

  /** A call that fails after ialloc leaves an inode without links, and no name anywhere. */
  lemma FailsCleanly(s: State, d: nat, x: nat, kind: Kind, n: nat)
    requires Floors(s) && Enabled(s, CreateFails(d, x, kind, n))
    ensures var s' := Step(s, CreateFails(d, x, kind, n));
      && Only(s, s', {x}) && s'.links == s.links && x in s'.nodes && s'.nodes[x].nlink == 0
      && Enabled(s', Reclaim(x)) && Step(s', Reclaim(x)) == s
  {
    var s' := Step(s, CreateFails(d, x, kind, n));
    assert Covered(s, x);
    assert Step(s', Reclaim(x)).nodes == s.nodes;
  }

  /** Every state of a run has what these need. */
  lemma RunFloors(s: State, es: seq<Event>)
    requires Init(s) && Runs(s, es)
    ensures Floors(Final(s, es))
  {
    InitFloors(s);
    RunKeeps(s, es);
  }
}
