/**
 Three-level page tables as pages of memory (kernel/vm.c, section 4.4 of the RISC-V privileged
 architecture, version 1.12).

 A page is referred to through a slot: as a root table, through an entry of a root, through an
 entry of a middle table, or through a leaf entry.  `own` gives every page of the allocator
 its one role, so that no page is lost or used twice.
 */
module PageTables {

  /** A page-table entry, as the physical page number and the low ten flag bits. */
  datatype Pte = Pte(frame: nat, flags: nat)

  const NPTE: nat := 512

  const NONE := Pte(0, 0)

  /** PTE_V */
  predicate V(e: Pte) { e.flags % 2 == 1 }

  /** Any of PTE_R, PTE_W, PTE_X */
  predicate Rwx(e: Pte) { e.flags / 2 % 8 != 0 }

  datatype Slot =
    | Root(r: nat)
    | Mid(r: nat, i2: nat)
    | Leaf(r: nat, i2: nat, i1: nat)
    | User(r: nat, i2: nat, i1: nat, i0: nat)

  /** Free, allocated and in the hands of running code, or referred to by a slot. */
  datatype Owner = Free | Busy | In(s: Slot)

  /** Pages lo to hi - 1 belong to the allocator; pt is what they hold, read as table entries. */
  datatype Vm = Vm(lo: nat, hi: nat, pt: seq<seq<Pte>>)

  ghost predicate Shaped(vm: Vm) {
    match vm case Vm(lo, hi, pt) =>
      1 <= lo <= hi && |pt| == hi && forall p :: 0 <= p < hi ==> |pt[p]| == NPTE
  }

  function ZeroPage(): (z: seq<Pte>)
    ensures |z| == NPTE && forall k :: 0 <= k < NPTE ==> z[k] == NONE
  {
    seq(NPTE, _ => NONE)
  }

  /** Entry k of the table in page p; page 0 stands for no table. */
  ghost function EntryAt(vm: Vm, p: nat, k: nat): Pte
    requires Shaped(vm)
  {
    if 0 < p < vm.hi && k < NPTE then vm.pt[p][k] else NONE
  }

  ghost function Next(vm: Vm, p: nat, k: nat): nat
    requires Shaped(vm)
  {
    var e := EntryAt(vm, p, k);
    if V(e) then e.frame else 0
  }

  /** The trampoline and trapframe pages, mapped at the top of every user address space. */
  predicate Special(s: Slot) {
    s.User? && s.i2 == 255 && s.i1 == 511 && 510 <= s.i0 <= 511
  }

  /** The page that a slot refers to, 0 for none.  The special pages are not the table's to free. */
  ghost function Ref(vm: Vm, s: Slot): nat
    requires Shaped(vm)
  {
    match s
    case Root(r) => r
    case Mid(r, i2) => Next(vm, r, i2)
    case Leaf(r, i2, i1) => Next(vm, Next(vm, r, i2), i1)
    case User(r, i2, i1, i0) => if Special(s) then 0 else Next(vm, Next(vm, Next(vm, r, i2), i1), i0)
  }

  function Parent(s: Slot): Slot
    requires !s.Root?
  {
    match s
    case Mid(r, i2) => Root(r)
    case Leaf(r, i2, i1) => Mid(r, i2)
    case User(r, i2, i1, i0) => Leaf(r, i2, i1)
  }

  function Index(s: Slot): nat
    requires !s.Root?
  {
    match s
    case Mid(r, i2) => i2
    case Leaf(r, i2, i1) => i1
    case User(r, i2, i1, i0) => i0
  }

  /** The entry through which a slot refers to its page. */
  ghost function Entry(vm: Vm, s: Slot): Pte
    requires Shaped(vm) && !s.Root?
  {
    EntryAt(vm, Ref(vm, Parent(s)), Index(s))
  }

  ghost predicate SlotOk(roots: set<nat>, s: Slot) {
    s.r in roots && (s.Root? || (s.i2 < NPTE && (s.Mid? || (s.i1 < NPTE && (s.Leaf? || s.i0 < NPTE)))))
  }

  /** Each allocator page has exactly the role that the tables in memory give it. */
  ghost predicate Owns(vm: Vm, roots: set<nat>, own: map<nat, Owner>)
    requires Shaped(vm)
  {
    match vm case Vm(lo, hi, _) =>
      && (forall p :: p in own <==> lo <= p < hi)
      && (forall s :: SlotOk(roots, s) && Ref(vm, s) != 0 ==> Ref(vm, s) in own && own[Ref(vm, s)] == In(s))
      && (forall p :: p in own && own[p].In? ==> SlotOk(roots, own[p].s) && Ref(vm, own[p].s) == p)
  }

  /** Empty, or in use: interior entries carry PTE_V alone, leaf entries a permission. */
  ghost predicate EntryOk(s: Slot, e: Pte) {
    e == NONE || (V(e) && e.frame > 0 && if s.User? then Rwx(e) else e.flags == 1)
  }

  ghost predicate FlagsOk(vm: Vm, roots: set<nat>)
    requires Shaped(vm)
  {
    match vm case Vm(_, hi, pt) =>
      hi == |pt| && forall s :: SlotOk(roots, s) && !s.Root? ==> EntryOk(s, Entry(vm, s))
  }

  ghost predicate Valid(vm: Vm, roots: set<nat>, own: map<nat, Owner>) {
    match vm case Vm(lo, hi, _) =>
      lo <= hi && 0 !in roots && Shaped(vm) && Owns(vm, roots, own) && FlagsOk(vm, roots)
  }

  // ----- Writing one entry -----

  ghost function Put(vm: Vm, p: nat, k: nat, e: Pte): Vm
    requires Shaped(vm) && p < vm.hi && k < NPTE
  {
    vm.(pt := vm.pt[p := vm.pt[p][k := e]])
  }

  function Depth(s: Slot): nat {
    match s case Root(_) => 0 case Mid(_, _) => 1 case Leaf(_, _, _) => 2 case User(_, _, _, _) => 3
  }

  /** Slot t is s or is reached through s. */
  predicate Under(s: Slot, t: Slot) {
    match s
    case Root(r) => t.r == r
    case Mid(r, i2) => t.r == r && !t.Root? && t.i2 == i2
    case Leaf(r, i2, i1) => t.r == r && (t.Leaf? || t.User?) && t.i2 == i2 && t.i1 == i1
    case User(_, _, _, _) => t == s
  }

  /** Tables in distinct slots are distinct pages. */
  lemma DistinctPages(vm: Vm, roots: set<nat>, own: map<nat, Owner>, s: Slot, t: Slot)
    requires Shaped(vm) && Owns(vm, roots, own) && SlotOk(roots, s) && SlotOk(roots, t)
    requires Ref(vm, s) != 0 && Ref(vm, s) == Ref(vm, t)
    ensures s == t
  {
  }

  /** Writing the entry of slot s changes nothing outside what is reached through s. */
  lemma PutFrame(vm: Vm, roots: set<nat>, own: map<nat, Owner>, s: Slot, e: Pte, t: Slot)
    requires Shaped(vm) && Owns(vm, roots, own) && SlotOk(roots, s) && !s.Root? && SlotOk(roots, t)
    requires 0 < Ref(vm, Parent(s)) < vm.hi && !Under(s, t)
    ensures Shaped(Put(vm, Ref(vm, Parent(s)), Index(s), e))
    ensures Ref(Put(vm, Ref(vm, Parent(s)), Index(s), e), t) == Ref(vm, t)
    ensures !t.Root? ==> Entry(Put(vm, Ref(vm, Parent(s)), Index(s), e), t) == Entry(vm, t)
    decreases Depth(t)
  {
    var q, k := Ref(vm, Parent(s)), Index(s);
    var vm' := Put(vm, q, k, e);
    if !t.Root? {
      PutFrame(vm, roots, own, s, e, Parent(t));
      if Ref(vm, Parent(t)) == q {
        DistinctPages(vm, roots, own, Parent(s), Parent(t));
        assert Index(t) != k;
      }
      assert EntryAt(vm', Ref(vm, Parent(t)), Index(t)) == EntryAt(vm, Ref(vm, Parent(t)), Index(t));
    }
  }

  /** Ownership is exact again once the written slot and those under it are accounted for. */
  lemma PutOwns(vm: Vm, vm': Vm, roots: set<nat>, own: map<nat, Owner>, own': map<nat, Owner>, s: Slot)
    requires Valid(vm, roots, own) && Shaped(vm') && vm'.lo == vm.lo && vm'.hi == vm.hi
    requires forall t :: SlotOk(roots, t) && !Under(s, t) ==>
      Ref(vm', t) == Ref(vm, t) && (!t.Root? ==> Entry(vm', t) == Entry(vm, t))
    requires forall t :: SlotOk(roots, t) && Under(s, t) ==>
      !t.Root? && EntryOk(t, Entry(vm', t)) && RefOwned(vm', own', t)
    requires own'.Keys == own.Keys
    requires forall p :: p in own && own[p].In? && !Under(s, own[p].s) ==> own'[p] == own[p]
    requires forall p :: p in own' && own'[p].In? ==>
      (own'[p] == own[p] && !Under(s, own[p].s)) || (SlotOk(roots, own'[p].s) && Ref(vm', own'[p].s) == p)
    ensures Valid(vm', roots, own')
  {
    forall t | SlotOk(roots, t) ensures RefOwned(vm', own', t) {
    }
    forall p | p in own' && own'[p].In? ensures SlotOk(roots, own'[p].s) && Ref(vm', own'[p].s) == p {
    }
    assert Owns(vm', roots, own');
  }

  ghost predicate RefOwned(vm: Vm, own: map<nat, Owner>, s: Slot)
    requires Shaped(vm)
  {
    Ref(vm, s) != 0 ==> Ref(vm, s) in own && own[Ref(vm, s)] == In(s)
  }

  /** No leaf entry of any table differs. */
  ghost predicate SameLeaves(vm: Vm, vm': Vm, roots: set<nat>) {
    && Shaped(vm) && Shaped(vm')
    && forall t :: SlotOk(roots, t) && t.User? ==> Entry(vm', t) == Entry(vm, t)
  }

  /** walk hangs a zeroed page into an empty interior slot: no leaf entry changes anywhere. */
  lemma InsertTable(vm: Vm, roots: set<nat>, own: map<nat, Owner>, s: Slot, p: nat)
    requires Valid(vm, roots, own) && SlotOk(roots, s) && (s.Mid? || s.Leaf?)
    requires 0 < Ref(vm, Parent(s)) < vm.hi && !V(Entry(vm, s))
    requires p in own && own[p] == Busy && vm.pt[p] == ZeroPage()
    ensures var vm' := Put(vm, Ref(vm, Parent(s)), Index(s), Pte(p, 1));
      Valid(vm', roots, own[p := In(s)]) && Ref(vm', s) == p && SameLeaves(vm, vm', roots)
  {
    var q := Ref(vm, Parent(s));
    var vm' := Put(vm, q, Index(s), Pte(p, 1));
    assert own[q] == In(Parent(s)) && q != p;
    forall t | SlotOk(roots, t) && !Under(s, t)
      ensures Ref(vm', t) == Ref(vm, t) && (!t.Root? ==> Entry(vm', t) == Entry(vm, t))
    {
      PutFrame(vm, roots, own, s, Pte(p, 1), t);
    }
    PutFrame(vm, roots, own, s, Pte(p, 1), Parent(s));
    forall t | SlotOk(roots, t) && Under(s, t)
      ensures !t.Root? && Ref(vm, t) == 0
      ensures t == s ==> Ref(vm', t) == p && Entry(vm', t) == Pte(p, 1)
      ensures t != s ==> Ref(vm', t) == 0 && Entry(vm', t) == Entry(vm, t) == NONE
    {
      InsertedBelow(vm, vm', s, p, t);
    }
    PutOwns(vm, vm', roots, own, own[p := In(s)], s);
  }

  lemma InsertedBelow(vm: Vm, vm': Vm, s: Slot, p: nat, t: Slot)
    requires Shaped(vm) && Shaped(vm') && vm'.hi == vm.hi && (s.Mid? || s.Leaf?) && Under(s, t)
    requires 0 < p < vm.hi && vm'.pt[p] == ZeroPage() && !V(Entry(vm, s))
    requires Ref(vm', Parent(s)) == Ref(vm, Parent(s)) && Entry(vm', s) == Pte(p, 1)
    ensures Ref(vm, t) == 0
    ensures t == s ==> Ref(vm', t) == p
    ensures t != s ==> Ref(vm', t) == 0 && Entry(vm', t) == Entry(vm, t) == NONE
  {
  }

  /** Only leaf entry s differs, and is e. */
  ghost predicate OneLeaf(vm: Vm, vm': Vm, roots: set<nat>, s: Slot, e: Pte) {
    && Shaped(vm) && Shaped(vm') && s.User? && Entry(vm', s) == e
    && forall t :: SlotOk(roots, t) && t.User? && t != s ==> Entry(vm', t) == Entry(vm, t)
  }

  /** Writing a leaf entry: the page it names moves from the caller to the slot, or back. */
  lemma PutLeaf(vm: Vm, roots: set<nat>, own: map<nat, Owner>, s: Slot, e: Pte)
    requires Valid(vm, roots, own) && SlotOk(roots, s) && s.User? && 0 < Ref(vm, Parent(s)) < vm.hi
    requires EntryOk(s, e) && (V(e) ==> !V(Entry(vm, s)))
    requires V(e) && !Special(s) ==> e.frame in own && own[e.frame] == Busy
    ensures var vm' := Put(vm, Ref(vm, Parent(s)), Index(s), e);
      && OneLeaf(vm, vm', roots, s, e)
      && (Special(s) ==> Valid(vm', roots, own))
      && (!Special(s) && V(e) ==> Valid(vm', roots, own[e.frame := In(s)]))
      && (!Special(s) && e == NONE && V(Entry(vm, s)) ==>
            Entry(vm, s).frame in own && Valid(vm', roots, own[Entry(vm, s).frame := Busy]))
  {
    var q := Ref(vm, Parent(s));
    var vm' := Put(vm, q, Index(s), e);
    forall t | SlotOk(roots, t) && !Under(s, t)
      ensures Ref(vm', t) == Ref(vm, t) && (!t.Root? ==> Entry(vm', t) == Entry(vm, t))
    {
      PutFrame(vm, roots, own, s, e, t);
    }
    PutFrame(vm, roots, own, s, e, Parent(s));
    assert Entry(vm', s) == e;
    if Special(s) {
      PutOwns(vm, vm', roots, own, own, s);
    } else if V(e) {
      assert Ref(vm', s) == e.frame;
      PutOwns(vm, vm', roots, own, own[e.frame := In(s)], s);
    } else if V(Entry(vm, s)) {
      var old_ := Entry(vm, s).frame;
      assert Ref(vm, s) == old_ && Ref(vm', s) == 0;
      PutOwns(vm, vm', roots, own, own[old_ := Busy], s);
    }
  }

  /** The content of a page that no slot refers to does not matter. */
  lemma LoosePage(vm: Vm, roots: set<nat>, own: map<nat, Owner>, p: nat, page: seq<Pte>, o: Owner)
    requires Valid(vm, roots, own) && p in own && !own[p].In? && !o.In? && |page| == NPTE
    ensures var vm' := vm.(pt := vm.pt[p := page]);
      Valid(vm', roots, own[p := o]) && SameLeaves(vm, vm', roots)
  {
    var vm' := vm.(pt := vm.pt[p := page]);
    forall t | SlotOk(roots, t)
      ensures Ref(vm', t) == Ref(vm, t) && (!t.Root? ==> Entry(vm', t) == Entry(vm, t))
    {
      LooseRef(vm, vm', roots, own, p, t);
    }
    assert Owns(vm', roots, own[p := o]);
  }

  lemma LooseRef(vm: Vm, vm': Vm, roots: set<nat>, own: map<nat, Owner>, p: nat, t: Slot)
    requires Valid(vm, roots, own) && p in own && !own[p].In? && SlotOk(roots, t) && Shaped(vm')
    requires vm'.hi == vm.hi && forall x :: 0 <= x < vm.hi && x != p ==> vm'.pt[x] == vm.pt[x]
    ensures Ref(vm', t) == Ref(vm, t) && (!t.Root? ==> Entry(vm', t) == Entry(vm, t))
    decreases Depth(t)
  {
    if !t.Root? {
      LooseRef(vm, vm', roots, own, p, Parent(t));
      assert Ref(vm, Parent(t)) != p;
    }
  }

  /** A zeroed page becomes the root of a new, empty table. */
  lemma NewRoot(vm: Vm, roots: set<nat>, own: map<nat, Owner>, p: nat)
    requires Valid(vm, roots, own) && p in own && own[p] == Busy && vm.pt[p] == ZeroPage()
    ensures p !in roots && Valid(vm, roots + {p}, own[p := In(Root(p))])
    ensures forall t :: SlotOk(roots + {p}, t) && t.r == p && !t.Root? ==> Entry(vm, t) == NONE && Ref(vm, t) == 0
  {
    assert Ref(vm, Root(p)) == p;
    var own' := own[p := In(Root(p))];
    forall t | SlotOk(roots + {p}, t) && t.r == p && !t.Root? ensures Entry(vm, t) == NONE && Ref(vm, t) == 0 {
    }
    forall t | SlotOk(roots + {p}, t) ensures RefOwned(vm, own', t) {
      if t.r != p {
        assert SlotOk(roots, t);
      }
    }
    assert Owns(vm, roots + {p}, own');
  }

  // ----- Freeing a table and all below it -----

  /** Every page reached through s is free, the others keep their role. */
  ghost function FreedUnder(own: map<nat, Owner>, s: Slot): map<nat, Owner> {
    map p | p in own :: if own[p].In? && Under(s, own[p].s) then Free else own[p]
  }

  /** Page p is not reached through s. */
  ghost predicate Outside(own: map<nat, Owner>, s: Slot, p: nat) {
    p in own && own[p].In? ==> !Under(s, own[p].s)
  }

  /** Entry k of page p is the one through which s refers to its page. */
  ghost predicate EntryOf(vm: Vm, s: Slot, p: nat, k: nat)
    requires Shaped(vm)
  {
    !s.Root? && p == Ref(vm, Parent(s)) && k == Index(s)
  }

  /** The pages not reached through s hold what they held, but for the entry of s itself. */
  ghost predicate Pruned(vm: Vm, vm': Vm, own: map<nat, Owner>, s: Slot)
    requires Shaped(vm)
  {
    && Shaped(vm') && vm'.lo == vm.lo && vm'.hi == vm.hi
    && (forall p, k :: 0 < p < vm.hi && 0 <= k < NPTE && Outside(own, s, p) && !EntryOf(vm, s, p, k) ==>
          vm'.pt[p][k] == vm.pt[p][k])
    && (!s.Root? ==> EntryAt(vm', Ref(vm, Parent(s)), Index(s)) == NONE)
  }

  lemma PrunedRef(vm: Vm, vm': Vm, roots: set<nat>, own: map<nat, Owner>, s: Slot, t: Slot)
    requires Valid(vm, roots, own) && SlotOk(roots, s) && SlotOk(roots, t) && Pruned(vm, vm', own, s) && !Under(s, t)
    ensures Ref(vm', t) == Ref(vm, t) && (!t.Root? ==> Entry(vm', t) == Entry(vm, t))
    decreases Depth(t)
  {
    if !t.Root? {
      PrunedRef(vm, vm', roots, own, s, Parent(t));
      var q := Ref(vm, Parent(t));
      if q != 0 {
        assert own[q] == In(Parent(t)) && Outside(own, s, q);
        if !s.Root? && q == Ref(vm, Parent(s)) {
          DistinctPages(vm, roots, own, Parent(s), Parent(t));
          assert Index(t) != Index(s);
        }
      }
    }
  }

  /** What is left after a table and all below it are freed is exact again. */
  lemma PruneValid(vm: Vm, vm': Vm, roots: set<nat>, own: map<nat, Owner>, s: Slot)
    requires Valid(vm, roots, own) && SlotOk(roots, s) && !s.User? && Pruned(vm, vm', own, s)
    ensures Valid(vm', if s.Root? then roots - {s.r} else roots, FreedUnder(own, s))
    ensures forall t :: SlotOk(roots, t) && t.User? && !Under(s, t) ==> Entry(vm', t) == Entry(vm, t)
    ensures !s.Root? ==> forall t :: SlotOk(roots, t) && t.User? && Under(s, t) ==> Entry(vm', t) == NONE
  {
    var roots' := if s.Root? then roots - {s.r} else roots;
    var own' := FreedUnder(own, s);
    forall t | SlotOk(roots, t) && !Under(s, t)
      ensures Ref(vm', t) == Ref(vm, t) && (!t.Root? ==> Entry(vm', t) == Entry(vm, t))
    {
      PrunedRef(vm, vm', roots, own, s, t);
    }
    forall t | SlotOk(roots', t) ensures RefOwned(vm', own', t) && (!t.Root? ==> EntryOk(t, Entry(vm', t))) {
      assert SlotOk(roots, t);
      if Under(s, t) {
        PrunedRef(vm, vm', roots, own, s, Parent(s));
        PrunedBelow(vm', s, t);
      }
    }
    if !s.Root? {
      forall t | SlotOk(roots, t) && t.User? && Under(s, t) ensures Entry(vm', t) == NONE {
        PrunedRef(vm, vm', roots, own, s, Parent(s));
        PrunedBelow(vm', s, t);
      }
    }
    forall p | p in own' && own'[p].In? ensures SlotOk(roots', own'[p].s) && Ref(vm', own'[p].s) == p {
    }
    assert Owns(vm', roots', own');
  }

  lemma PrunedBelow(vm: Vm, s: Slot, t: Slot)
    requires Shaped(vm) && !s.Root? && Under(s, t) && Entry(vm, s) == NONE
    ensures Ref(vm, t) == 0 && Entry(vm, t) == NONE
  {
  }
}
