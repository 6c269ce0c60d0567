/** User address spaces: mapping and unmapping ranges of pages, growing, shrinking, copying and freeing. */
module UserMemory {
  import opened Basics
  import opened PageTable

  datatype MapOutcome = Mapped | NoMemory | Remap

  const PTE_WXRU: int := 30  // PTE_W | PTE_X | PTE_R | PTE_U

  // ---- mappages, for pages v up to hi ----

  function MapLoop(vm: Vm, root: int, v: int, hi: int, ppn: int, perm: int): (r: (Vm, MapOutcome))
    decreases hi - v, 0
  {
    if v >= hi then (vm, Mapped) else
      var (vm1, g) := Walk(vm, root, v, true);
      if g == 0 then (vm1, NoMemory)
      else if Valid(Word(vm1.mem, g, Px(0, v))) then (vm1, Remap)
      else Mappages(vm1.(mem := Put(vm1.mem, g, Px(0, v), MakePte(ppn, perm))), root, v + 1, hi, ppn + 1, perm)
  }

  function Mappages(vm: Vm, root: int, v: int, hi: int, ppn: int, perm: int): (r: (Vm, MapOutcome))
    decreases hi - v, 1
  {
    MapLoop(vm, root, v, hi, ppn, perm)
  }

  /** What mappages does once walk has found table g for page v. */
  function MapRest(vm: Vm, g: int, root: int, v: int, hi: int, ppn: int, perm: int): (r: (Vm, MapOutcome))
    requires v < hi
  {
    if g == 0 then (vm, NoMemory)
    else if Valid(Word(vm.mem, g, Px(0, v))) then (vm, Remap)
    else Mappages(vm.(mem := Put(vm.mem, g, Px(0, v), MakePte(ppn, perm))), root, v + 1, hi, ppn + 1, perm)
  }

  /** mappages is nothing, or its first page and then the rest. */
  lemma MapNext(vm: Vm, root: int, v: int, hi: int, ppn: int, perm: int, w: (Vm, int))
    requires v < hi ==> w == Walk(vm, root, v, true)
    ensures v >= hi ==> Mappages(vm, root, v, hi, ppn, perm) == (vm, Mapped)
    ensures v < hi ==> Mappages(vm, root, v, hi, ppn, perm) == MapRest(w.0, w.1, root, v, hi, ppn, perm)
  {
    assert Mappages(vm, root, v, hi, ppn, perm) == MapLoop(vm, root, v, hi, ppn, perm);
  }

  // ---- uvmunmap, for pages v up to hi; false if it would panic ----

  function UnmapLoop(vm: Vm, root: int, v: int, hi: int, doFree: bool): (r: (Vm, bool))
    decreases hi - v
  {
    if v >= hi then (vm, true) else
      var g := Walk(vm, root, v, false).1;
      var pte := Word(vm.mem, g, Px(0, v));
      if g == 0 || !Valid(pte) || Flags(pte) == 1 then (vm, false)
      else
        var vm1 := if doFree then Kfree(vm, Ppn(pte)) else vm;
        UnmapLoop(vm1.(mem := Put(vm1.mem, g, Px(0, v), ZERO)), root, v + 1, hi, doFree)
  }

  function Unmap(vm: Vm, root: int, v: int, hi: int, doFree: bool): (r: (Vm, bool)) {
    UnmapLoop(vm, root, v, hi, doFree)
  }

  /** The tree u in vm' maps as t in vm does, except where f says otherwise; its table pages are those of t and
      the pages that have left the free list; memory outside its table pages is as before. */
  ghost predicate Updated(vm: Vm, t: Tree, vm': Vm, u: Tree, f: map<int, W>) {
    && WF(vm'.mem, u) && FreeOk(vm', u) && u.root == t.root
    && (forall p | p in vm'.free :: p in vm.free)
    && (forall p {:trigger IsTable(u, p)} {:trigger IsTable(t, p)} ::
         IsTable(u, p) <==> IsTable(t, p) || (p in vm.free && p !in vm'.free))
    && (forall w | 0 <= w < MAXVPN :: Pte(vm'.mem, u, w) == if w in f then f[w] else Pte(vm.mem, t, w))
    && (forall p | p in vm.mem && !IsTable(u, p) :: p in vm'.mem && vm'.mem[p] == vm.mem[p])
  }

  /** One entry written after a walk. */
  lemma UpdateOne(vm: Vm, t: Tree, vm1: Vm, u: Tree, v: int, w: W, vm2: Vm)
    requires Grown(vm, t, vm1, u) && 0 <= v < MAXVPN && v / 512 in u.low
    requires vm2 == vm1.(mem := Put(vm1.mem, u.low[v / 512], v % 512, w))
    ensures Updated(vm, t, vm2, u, map[v := w])
  {
    SetLeaf(vm1.mem, u, v, w);
    PutChangesOne(vm1.mem, u.low[v / 512], v % 512, w);
    assert IsTable(u, u.low[v / 512]);
  }

  lemma UpdatedTrans(vm: Vm, t: Tree, vm1: Vm, t1: Tree, f: map<int, W>, vm2: Vm, t2: Tree, g: map<int, W>)
    requires Updated(vm, t, vm1, t1, f) && Updated(vm1, t1, vm2, t2, g)
    ensures Updated(vm, t, vm2, t2, f + g)
  {
  }

  /** The entries mappages writes for m pages. */
  ghost function Range(v: int, m: nat, ppn: int, perm: int): (f: map<int, W>)
    ensures forall w :: w in f <==> v <= w < v + m
    ensures forall w | w in f :: f[w] == MakePte(ppn + (w - v), perm)
  {
    if m == 0 then map[] else Range(v, m - 1, ppn, perm)[v + m - 1 := MakePte(ppn + (m - 1), perm)]
  }

  /** mappages maps the first m pages of v..hi and changes no other entry: all of them unless the free list runs
      out first, or page v + m is already mapped. */
  ghost predicate MapSpec(vm: Vm, t: Tree, v: int, hi: int, ppn: int, perm: int, r: (Vm, MapOutcome), u: Tree, m: nat) {
    && v + m <= hi && Updated(vm, t, r.0, u, Range(v, m, ppn, perm))
    && match r.1
       case Mapped => v + m == hi
       case NoMemory => v + m < hi && r.0.free == []
       case Remap => v + m < hi && Valid(Pte(vm.mem, t, v + m))
  }

  lemma MapNothing(vm: Vm, t: Tree, vm1: Vm, u: Tree, v: int, ppn: int, perm: int)
    requires Grown(vm, t, vm1, u)
    ensures Updated(vm, t, vm1, u, Range(v, 0, ppn, perm))
  {
  }

  /** mappages giving up at the first page. */
  lemma MapStops(vm: Vm, t: Tree, v: int, hi: int, ppn: int, perm: int, u: Tree)
    requires 0 <= v < MAXVPN && v < hi && WalkSpec(vm, t, v, Walk(vm, t.root, v, true), u)
    requires var (vm1, g) := Walk(vm, t.root, v, true); g == 0 || Valid(Word(vm1.mem, g, Px(0, v)))
    ensures MapSpec(vm, t, v, hi, ppn, perm, Mappages(vm, t.root, v, hi, ppn, perm), u, 0)
  {
    var (vm1, g) := Walk(vm, t.root, v, true);
    MapNext(vm, t.root, v, hi, ppn, perm, (vm1, g));
    MapNothing(vm, t, vm1, u, v, ppn, perm);
    assert g != 0 ==> Pte(vm1.mem, u, v) == Word(vm1.mem, g, Px(0, v));
  }

  /** One more page in front of a range. */
  lemma MapFirst(vm: Vm, t: Tree, vm1: Vm, t1: Tree, v: int, m: nat, ppn: int, perm: int, vm2: Vm, t2: Tree)
    requires Updated(vm, t, vm1, t1, map[v := MakePte(ppn, perm)])
    requires Updated(vm1, t1, vm2, t2, Range(v + 1, m, ppn + 1, perm))
    ensures Updated(vm, t, vm2, t2, Range(v, m + 1, ppn, perm))
  {
    UpdatedTrans(vm, t, vm1, t1, map[v := MakePte(ppn, perm)], vm2, t2, Range(v + 1, m, ppn + 1, perm));
    RangeCons(v, m, ppn, perm);
  }

  lemma RangeCons(v: int, m: nat, ppn: int, perm: int)
    ensures map[v := MakePte(ppn, perm)] + Range(v + 1, m, ppn + 1, perm) == Range(v, m + 1, ppn, perm)
  {
    var f, g := map[v := MakePte(ppn, perm)] + Range(v + 1, m, ppn + 1, perm), Range(v, m + 1, ppn, perm);
    assert f.Keys == g.Keys;
    forall w | w in f ensures f[w] == g[w] {}
  }

  predicate IsMappages(vm: Vm, root: int, v: int, hi: int, ppn: int, perm: int, r: (Vm, MapOutcome)) {
    r == Mappages(vm, root, v, hi, ppn, perm)
  }

  /** mappages getting past the first page, or not. */
  lemma MapStep(vm: Vm, t: Tree, v: int, hi: int, ppn: int, perm: int, r: (Vm, MapOutcome))
      returns (go: bool, vm1: Vm, u: Tree)
    requires WF(vm.mem, t) && FreeOk(vm, t) && 0 <= v < MAXVPN && v < hi && IsMappages(vm, t.root, v, hi, ppn, perm, r)
    ensures !go ==> MapSpec(vm, t, v, hi, ppn, perm, r, u, 0)
    ensures go ==>
              Updated(vm, t, vm1, u, map[v := MakePte(ppn, perm)])
              && IsMappages(vm1, u.root, v + 1, hi, ppn + 1, perm, r)
  {
    u := WalkGrows(vm, t, v);
    var w := Walk(vm, t.root, v, true);
    MapNext(vm, t.root, v, hi, ppn, perm, w);
    var g := w.1;
    vm1 := w.0;
    go := g != 0 && !Valid(Word(vm1.mem, g, Px(0, v)));
    if go {
      var vm2 := vm1.(mem := Put(vm1.mem, g, Px(0, v), MakePte(ppn, perm)));
      UpdateOne(vm, t, vm1, u, v, MakePte(ppn, perm), vm2);
      vm1 := vm2;
    } else {
      MapStops(vm, t, v, hi, ppn, perm, u);
    }
  }

  /** mappages of no pages. */
  lemma MapNone(vm: Vm, t: Tree, v: int, ppn: int, perm: int, r: (Vm, MapOutcome))
    requires WF(vm.mem, t) && FreeOk(vm, t) && IsMappages(vm, t.root, v, v, ppn, perm, r)
    ensures MapSpec(vm, t, v, v, ppn, perm, r, t, 0)
  {
    GrownSelf(vm, t);
    MapNext(vm, t.root, v, v, ppn, perm, (vm, 0));
    MapNothing(vm, t, vm, t, v, ppn, perm);
  }

  lemma {:induction false} MapAll(vm: Vm, t: Tree, v: int, hi: int, ppn: int, perm: int, r: (Vm, MapOutcome))
      returns (u: Tree, m: nat)
    requires WF(vm.mem, t) && FreeOk(vm, t) && 0 <= v <= hi <= MAXVPN && IsMappages(vm, t.root, v, hi, ppn, perm, r)
    ensures MapSpec(vm, t, v, hi, ppn, perm, r, u, m)
    decreases hi - v
  {
    u, m := t, 0;
    if v == hi {
      MapNone(vm, t, v, ppn, perm, r);
    } else {
      var go, vm1, u1 := MapStep(vm, t, v, hi, ppn, perm, r);
      u := u1;
      if go {
        u, m := MapAll(vm1, u1, v + 1, hi, ppn + 1, perm, r);
        MapMore(vm, t, vm1, u1, v, hi, ppn, perm, r, u, m);
        m := m + 1;
      }
    }
  }

  lemma MappagesMaps(vm: Vm, t: Tree, v: int, hi: int, ppn: int, perm: int) returns (u: Tree, m: nat)
    requires WF(vm.mem, t) && FreeOk(vm, t) && 0 <= v <= hi <= MAXVPN
    ensures MapSpec(vm, t, v, hi, ppn, perm, Mappages(vm, t.root, v, hi, ppn, perm), u, m)
  {
    u, m := MapAll(vm, t, v, hi, ppn, perm, Mappages(vm, t.root, v, hi, ppn, perm));
  }

  lemma MapMore(vm: Vm, t: Tree, vm1: Vm, t1: Tree, v: int, hi: int, ppn: int, perm: int, r: (Vm, MapOutcome), u: Tree,
                m: nat)
    requires 0 <= v < hi <= MAXVPN
    requires Updated(vm, t, vm1, t1, map[v := MakePte(ppn, perm)])
    requires MapSpec(vm1, t1, v + 1, hi, ppn + 1, perm, r, u, m)
    ensures MapSpec(vm, t, v, hi, ppn, perm, r, u, m + 1)
  {
    MapFirst(vm, t, vm1, t1, v, m, ppn, perm, r.0, u);
    if r.1 == Remap { assert Pte(vm1.mem, t1, v + 1 + m) == Pte(vm.mem, t, v + 1 + m); }
  }

  // ---- pages of user data ----

  ghost predicate DataAt(vm: Vm, t: Tree, w: int) {
    var pte := Pte(vm.mem, t, w);
    Valid(pte) && Flags(pte) > 1 && Page(vm.mem, Ppn(pte)) && !IsTable(t, Ppn(pte)) && Ppn(pte) !in vm.free
  }

  /** Pages lo..hi are mapped, each to a page of its own that is neither free nor a table. */
  ghost predicate Data(vm: Vm, t: Tree, lo: int, hi: int) {
    && (forall w {:trigger DataAt(vm, t, w)} | lo <= w < hi :: DataAt(vm, t, w))
    && (forall w, x {:trigger Pte(vm.mem, t, w), Pte(vm.mem, t, x)} | lo <= w < x < hi ::
         Ppn(Pte(vm.mem, t, w)) != Ppn(Pte(vm.mem, t, x)))
  }

  /** p is the physical page of one of the virtual pages lo..hi. */
  ghost predicate IsData(vm: Vm, t: Tree, lo: int, hi: int, p: int) {
    exists w | lo <= w < hi :: Ppn(Pte(vm.mem, t, w)) == p
  }

  // ---- uvmunmap ----

  /** Pages lo..hi are unmapped and their physical pages freed; nothing else has changed. */
  ghost predicate Unmapped(vm: Vm, t: Tree, vm': Vm, lo: int, hi: int) {
    && WF(vm'.mem, t) && FreeOk(vm', t)
    && (forall w | 0 <= w < MAXVPN :: Pte(vm'.mem, t, w) == if lo <= w < hi then ZERO else Pte(vm.mem, t, w))
    && (forall p :: p in vm'.free <==> p in vm.free || IsData(vm, t, lo, hi, p))
    && |vm'.free| == |vm.free| + (hi - lo)
    && (forall p | p in vm.mem && !IsTable(t, p) && p !in vm'.free :: p in vm'.mem && vm'.mem[p] == vm.mem[p])
  }

  lemma UnmapOne(vm: Vm, t: Tree, v: int, hi: int, vm1: Vm)
    requires WF(vm.mem, t) && FreeOk(vm, t) && 0 <= v < hi <= MAXVPN && Data(vm, t, v, hi) && v / 512 in t.low
    requires vm1 == Vm(Put(Kfree(vm, Ppn(Pte(vm.mem, t, v))).mem, t.low[v / 512], v % 512, ZERO),
               [Ppn(Pte(vm.mem, t, v))] + vm.free)
    ensures Unmapped(vm, t, vm1, v, v + 1) && Data(vm1, t, v + 1, hi)
  {
    var g := Ppn(Pte(vm.mem, t, v));
    assert DataAt(vm, t, v);
    var m := vm.mem[g := Filled(ONES)];
    forall p | IsTable(t, p) ensures p in vm.mem && p in m && m[p] == vm.mem[p] { TablesArePages(vm.mem, t, p); }
    Untouched(vm.mem, m, t);
    SetLeaf(m, t, v, ZERO);
    PutChangesOne(m, t.low[v / 512], v % 512, ZERO);
    assert IsTable(t, t.low[v / 512]);
    var h := v + 1;
    forall p ensures IsData(vm, t, v, h, p) <==> p == g {}
    forall w | v + 1 <= w < hi ensures DataAt(vm1, t, w) { assert DataAt(vm, t, w); }
  }

  lemma UnmappedTrans(vm: Vm, t: Tree, vm1: Vm, vm2: Vm, lo: int, hi: int)
    requires 0 <= lo < hi <= MAXVPN && Unmapped(vm, t, vm1, lo, lo + 1) && Unmapped(vm1, t, vm2, lo + 1, hi)
    ensures Unmapped(vm, t, vm2, lo, hi)
  {
    forall p ensures IsData(vm, t, lo, hi, p) <==> IsData(vm, t, lo, lo + 1, p) || IsData(vm1, t, lo + 1, hi, p) {
      if w :| lo <= w < hi && Ppn(Pte(vm.mem, t, w)) == p {
        if w > lo { assert Ppn(Pte(vm1.mem, t, w)) == p; }
      }
      if w :| lo + 1 <= w < hi && Ppn(Pte(vm1.mem, t, w)) == p { assert Ppn(Pte(vm.mem, t, w)) == p; }
    }
  }

  lemma UnmapStep(vm: Vm, t: Tree, lo: int, hi: int) returns (vm1: Vm)
    requires WF(vm.mem, t) && FreeOk(vm, t) && 0 <= lo < hi <= MAXVPN && Data(vm, t, lo, hi)
    ensures Unmapped(vm, t, vm1, lo, lo + 1) && Data(vm1, t, lo + 1, hi)
    ensures Unmap(vm, t.root, lo, hi, true) == Unmap(vm1, t.root, lo + 1, hi, true)
  {
    WalkFinds(vm, t, lo);
    assert DataAt(vm, t, lo);
    var g := Ppn(Pte(vm.mem, t, lo));
    assert MidOk(vm.mem, t, lo / 512);
    vm1 := Vm(Put(Kfree(vm, g).mem, t.low[lo / 512], lo % 512, ZERO), [g] + vm.free);
    UnmapOne(vm, t, lo, hi, vm1);
  }

  /** uvmunmap with do_free does not panic on mapped pages, and frees each of them once. */
  lemma {:induction false} UnmapFrees(vm: Vm, t: Tree, lo: int, hi: int, r: (Vm, bool))
    requires WF(vm.mem, t) && FreeOk(vm, t) && 0 <= lo <= hi <= MAXVPN && Data(vm, t, lo, hi)
    requires r == Unmap(vm, t.root, lo, hi, true)
    ensures r.1 && Unmapped(vm, t, r.0, lo, hi)
    decreases hi - lo
  {
    if lo < hi {
      var vm1 := UnmapStep(vm, t, lo, hi);
      UnmapFrees(vm1, t, lo + 1, hi, r);
      UnmappedTrans(vm, t, vm1, r.0, lo, hi);
    } else {
      NothingUnmapped(vm, t, lo, hi);
    }
  }

  lemma NothingUnmapped(vm: Vm, t: Tree, lo: int, hi: int)
    requires WF(vm.mem, t) && FreeOk(vm, t) && lo == hi
    ensures Unmapped(vm, t, vm, lo, hi)
  {
  }

  predicate LeafAt(m: Mem, t: Tree, w: int) {
    Valid(Pte(m, t, w)) && Flags(Pte(m, t, w)) != 1
  }

  /** Pages lo..hi are unmapped, and nothing else has changed. */
  ghost predicate Kept(vm: Vm, t: Tree, vm': Vm, lo: int, hi: int) {
    && WF(vm'.mem, t) && FreeOk(vm', t) && vm'.free == vm.free && vm'.mem.Keys == vm.mem.Keys
    && (forall w | 0 <= w < MAXVPN :: Pte(vm'.mem, t, w) == if lo <= w < hi then ZERO else Pte(vm.mem, t, w))
    && (forall p | p in vm.mem && !IsTable(t, p) :: vm'.mem[p] == vm.mem[p])
  }

  lemma KeepOne(vm: Vm, t: Tree, v: int, vm1: Vm)
    requires WF(vm.mem, t) && FreeOk(vm, t) && 0 <= v < MAXVPN && v / 512 in t.low
    requires vm1 == vm.(mem := Put(vm.mem, t.low[v / 512], v % 512, ZERO))
    ensures Kept(vm, t, vm1, v, v + 1)
  {
    SetLeaf(vm.mem, t, v, ZERO);
    PutChangesOne(vm.mem, t.low[v / 512], v % 512, ZERO);
    assert IsTable(t, t.low[v / 512]);
  }

  lemma KeepStep(vm: Vm, t: Tree, lo: int, hi: int) returns (vm1: Vm)
    requires WF(vm.mem, t) && FreeOk(vm, t) && 0 <= lo < hi <= MAXVPN && LeafAt(vm.mem, t, lo)
    ensures Kept(vm, t, vm1, lo, lo + 1)
    ensures Unmap(vm, t.root, lo, hi, false) == Unmap(vm1, t.root, lo + 1, hi, false)
  {
    WalkFinds(vm, t, lo);
    assert MidOk(vm.mem, t, lo / 512);
    vm1 := vm.(mem := Put(vm.mem, t.low[lo / 512], lo % 512, ZERO));
    KeepOne(vm, t, lo, vm1);
  }

  /** uvmunmap without do_free, as for the trampoline and the trap frame, does not panic on mapped pages, and takes
      away the mappings alone. */
  lemma {:induction false} UnmapKeeps(vm: Vm, t: Tree, lo: int, hi: int, r: (Vm, bool))
    requires WF(vm.mem, t) && FreeOk(vm, t) && 0 <= lo <= hi <= MAXVPN
             && (forall w | lo <= w < hi :: LeafAt(vm.mem, t, w))
    requires r == Unmap(vm, t.root, lo, hi, false)
    ensures r.1 && Kept(vm, t, r.0, lo, hi)
    decreases hi - lo
  {
    if lo < hi {
      assert LeafAt(vm.mem, t, lo);
      var vm1 := KeepStep(vm, t, lo, hi);
      forall w | lo + 1 <= w < hi ensures LeafAt(vm1.mem, t, w) { assert LeafAt(vm.mem, t, w); }
      UnmapKeeps(vm1, t, lo + 1, hi, r);
      KeptTrans(vm, t, vm1, r.0, lo, hi);
    }
  }

  lemma KeptTrans(vm: Vm, t: Tree, vm1: Vm, vm2: Vm, lo: int, hi: int)
    requires 0 <= lo < hi <= MAXVPN && Kept(vm, t, vm1, lo, lo + 1) && Kept(vm1, t, vm2, lo + 1, hi)
    ensures Kept(vm, t, vm2, lo, hi)
  {
  }

  /** Those of the pages lo..hi that are mapped have pages of their own. */
  ghost predicate Private(vm: Vm, t: Tree, lo: int, hi: int) {
    && (forall w {:trigger DataAt(vm, t, w)} | lo <= w < hi && LeafAt(vm.mem, t, w) :: DataAt(vm, t, w))
    && (forall w, x {:trigger Pte(vm.mem, t, w), Pte(vm.mem, t, x)} |
          lo <= w < x < hi && LeafAt(vm.mem, t, w) && LeafAt(vm.mem, t, x) ::
            Ppn(Pte(vm.mem, t, w)) != Ppn(Pte(vm.mem, t, x)))
  }

  /** Freeing page lo leaves the others of the range as they were. */
  lemma PrivateRest(vm: Vm, t: Tree, vm1: Vm, lo: int, hi: int)
    requires WF(vm.mem, t) && FreeOk(vm, t) && 0 <= lo < hi <= MAXVPN && Private(vm, t, lo, hi) && LeafAt(vm.mem, t, lo)
    requires Unmapped(vm, t, vm1, lo, lo + 1)
    ensures Private(vm1, t, lo + 1, hi)
  {
    var h := lo + 1;
    forall p ensures IsData(vm, t, lo, h, p) <==> p == Ppn(Pte(vm.mem, t, lo)) {}
    forall w | lo + 1 <= w < hi && LeafAt(vm1.mem, t, w)
      ensures DataAt(vm1, t, w)
    {
      assert LeafAt(vm.mem, t, w) && DataAt(vm, t, w);
    }
    forall w, x | lo + 1 <= w < x < hi && LeafAt(vm1.mem, t, w) && LeafAt(vm1.mem, t, x)
      ensures Ppn(Pte(vm1.mem, t, w)) != Ppn(Pte(vm1.mem, t, x))
    {
      assert LeafAt(vm.mem, t, w) && LeafAt(vm.mem, t, x);
    }
  }

  /** uvmunmap goes through without panic if and only if every page of the range is a mapped leaf. */
  lemma {:induction false} UnmapPanicsIff(vm: Vm, t: Tree, lo: int, hi: int, doFree: bool)
    requires WF(vm.mem, t) && FreeOk(vm, t) && 0 <= lo <= hi <= MAXVPN && (doFree ==> Private(vm, t, lo, hi))
    ensures Unmap(vm, t.root, lo, hi, doFree).1 <==> forall w | lo <= w < hi :: LeafAt(vm.mem, t, w)
    decreases hi - lo
  {
    if lo < hi {
      if LeafAt(vm.mem, t, lo) {
        var vm1 := PastLeaf(vm, t, lo, hi, doFree);
        UnmapPanicsIff(vm1, t, lo + 1, hi, doFree);
        assert forall w | lo + 1 <= w < hi :: LeafAt(vm1.mem, t, w) <==> LeafAt(vm.mem, t, w);
      } else {
        WalkFinds(vm, t, lo);
      }
    }
  }

  lemma PastLeaf(vm: Vm, t: Tree, lo: int, hi: int, doFree: bool) returns (vm1: Vm)
    requires WF(vm.mem, t) && FreeOk(vm, t) && 0 <= lo < hi <= MAXVPN && (doFree ==> Private(vm, t, lo, hi))
             && LeafAt(vm.mem, t, lo)
    ensures WF(vm1.mem, t) && FreeOk(vm1, t) && (doFree ==> Private(vm1, t, lo + 1, hi))
    ensures forall w | lo + 1 <= w < hi :: Pte(vm1.mem, t, w) == Pte(vm.mem, t, w)
    ensures Unmap(vm, t.root, lo, hi, doFree) == Unmap(vm1, t.root, lo + 1, hi, doFree)
  {
    if doFree {
      assert DataAt(vm, t, lo) && Data(vm, t, lo, lo + 1);
      var g := Ppn(Pte(vm.mem, t, lo));
      WalkFinds(vm, t, lo);
      assert MidOk(vm.mem, t, lo / 512);
      vm1 := Vm(Put(Kfree(vm, g).mem, t.low[lo / 512], lo % 512, ZERO), [g] + vm.free);
      UnmapOne(vm, t, lo, lo + 1, vm1);
      PrivateRest(vm, t, vm1, lo, hi);
    } else {
      vm1 := KeepStep(vm, t, lo, hi);
    }
  }

  // ---- uvmalloc and uvmdealloc ----

  /** uvmdealloc between page-aligned sizes, as uvmalloc calls it. */
  function Dealloc(vm: Vm, root: int, hi: int, lo: int): (r: Vm) {
    if lo >= hi then vm else Unmap(vm, root, lo, hi, true).0
  }

  /** uvmdealloc. */
  function Uvmdealloc(vm: Vm, root: int, oldsz: nat, newsz: nat): (r: (Vm, nat)) {
    if newsz >= oldsz then (vm, oldsz) else (Dealloc(vm, root, PageCount(oldsz), PageCount(newsz)), newsz)
  }

  /** uvmdealloc, for sizes aligned or not, frees exactly the pages that the new size has no byte in, keeps the others,
      and does nothing if the new size is not smaller. */
  lemma UvmdeallocShrinks(vm: Vm, t: Tree, oldsz: nat, newsz: nat)
    requires WF(vm.mem, t) && FreeOk(vm, t) && PageCount(oldsz) <= MAXVPN && Data(vm, t, 0, PageCount(oldsz))
    ensures var (vm', sz) := Uvmdealloc(vm, t.root, oldsz, newsz);
            && sz == (if newsz < oldsz then newsz else oldsz)
            && Unmapped(vm, t, vm', PageCount(sz), PageCount(oldsz)) && Data(vm', t, 0, PageCount(sz))
  {
    var lo, hi := PageCount(newsz), PageCount(oldsz);
    if newsz < oldsz {
      forall w | lo <= w < hi ensures DataAt(vm, t, w) {}
      if lo < hi {
        UnmapFrees(vm, t, lo, hi, Unmap(vm, t.root, lo, hi, true));
      } else {
        NothingUnmapped(vm, t, lo, hi);
      }
      DataStays(vm, t, Dealloc(vm, t.root, hi, lo), lo, hi);
    } else {
      NothingUnmapped(vm, t, hi, hi);
    }
  }

  lemma DataStays(vm: Vm, t: Tree, vm': Vm, lo: int, hi: int)
    requires 0 <= lo <= hi <= MAXVPN && Data(vm, t, 0, hi) && Unmapped(vm, t, vm', lo, hi)
    ensures Data(vm', t, 0, lo)
  {
    forall w | 0 <= w < lo ensures DataAt(vm', t, w) {
      assert DataAt(vm, t, w);
      assert !IsData(vm, t, lo, hi, Ppn(Pte(vm.mem, t, w)));
    }
  }

  /** The loop of uvmalloc at page v, having started at lo. */
  function AllocFrom(vm: Vm, root: int, lo: int, v: int, end: int): (r: (Vm, bool))
    decreases end - v
  {
    if v >= end then (vm, true) else
      var (vm1, g) := Kalloc(vm);
      if g == 0 then (Dealloc(vm1, root, v, lo), false)
      else
        var (vm2, o) := Mappages(vm1.(mem := vm1.mem[g := Filled(ZERO)]), root, v, v + 1, g, PTE_WXRU);
        if o != Mapped then (Dealloc(Kfree(vm2, g), root, v, lo), false)
        else AllocFrom(vm2, root, lo, v + 1, end)
  }

  function AllocLoop(vm: Vm, root: int, lo: int, v: int, end: int): (r: (Vm, bool)) {
    AllocFrom(vm, root, lo, v, end)
  }

  /** uvmalloc; 0 is failure. */
  function Uvmalloc(vm: Vm, root: int, oldsz: nat, newsz: nat): (r: (Vm, nat)) {
    if newsz < oldsz then (vm, oldsz)
    else
      var (vm1, ok) := AllocLoop(vm, root, PageCount(oldsz), PageCount(oldsz), PageCount(newsz));
      (vm1, if ok then newsz else 0)
  }

  /** Since vm0 and t0, pages lo..hi have been given physical pages of their own and those in `hand` have been
      allocated; the map is otherwise the same, every page is accounted for, and nobody else's page has changed. */
  ghost predicate Took(vm0: Vm, t0: Tree, vm: Vm, u: Tree, lo: int, hi: int, hand: set<int>) {
    && WF(vm.mem, u) && FreeOk(vm, u) && u.root == t0.root && 0 <= lo <= hi <= MAXVPN
    && (forall w | 0 <= w < MAXVPN && !(lo <= w < hi) :: Pte(vm.mem, u, w) == Pte(vm0.mem, t0, w))
    && Data(vm, u, lo, hi)
    && (forall p | p in hand :: Page(vm.mem, p) && p !in vm.free && !IsTable(u, p) && !IsData(vm, u, lo, hi, p))
    && (forall p :: (p in vm.free || IsTable(u, p) || IsData(vm, u, lo, hi, p) || p in hand) <==>
         p in vm0.free || IsTable(t0, p))
    && (forall p | IsTable(t0, p) :: IsTable(u, p))
    && (forall p | p in vm0.mem && p !in vm0.free && !IsTable(t0, p) :: p in vm.mem && vm.mem[p] == vm0.mem[p])
  }

  /** kalloc, then filling the page. */
  lemma TookAlloc(vm0: Vm, t0: Tree, vm: Vm, u: Tree, lo: int, hi: int, c: seq<W>, vm1: Vm)
    requires Took(vm0, t0, vm, u, lo, hi, {}) && vm.free != [] && |c| == 512
    requires vm1 == Vm(vm.mem[vm.free[0] := c], vm.free[1..])
    ensures Took(vm0, t0, vm1, u, lo, hi, {vm.free[0]})
    ensures forall w | 0 <= w < MAXVPN :: Pte(vm1.mem, u, w) == Pte(vm.mem, u, w)
  {
    var g := vm.free[0];
    Head(vm.free);
    forall p | IsTable(u, p)
      ensures p in vm.mem && p in vm1.mem && vm1.mem[p] == vm.mem[p]
    {
      TablesArePages(vm.mem, u, p);
    }
    Untouched(vm.mem, vm1.mem, u);
    SameData(vm, u, vm1, u, lo, hi);
    forall w | lo <= w < hi ensures DataAt(vm1, u, w) { assert DataAt(vm, u, w); }
    if IsData(vm, u, lo, hi, g) { DataIsApart(vm, u, lo, hi, g); }
  }

  lemma SameData(vm: Vm, t: Tree, vm1: Vm, u: Tree, lo: int, hi: int)
    requires 0 <= lo <= hi <= MAXVPN && forall w | lo <= w < hi :: Pte(vm1.mem, u, w) == Pte(vm.mem, t, w)
    ensures forall p :: IsData(vm1, u, lo, hi, p) <==> IsData(vm, t, lo, hi, p)
  {
    forall p ensures IsData(vm1, u, lo, hi, p) <==> IsData(vm, t, lo, hi, p) {
      if w :| lo <= w < hi && Ppn(Pte(vm.mem, t, w)) == p { assert Ppn(Pte(vm1.mem, u, w)) == p; }
      if w :| lo <= w < hi && Ppn(Pte(vm1.mem, u, w)) == p { assert Ppn(Pte(vm.mem, t, w)) == p; }
    }
  }

  lemma DataIsApart(vm: Vm, t: Tree, lo: int, hi: int, p: int)
    requires Data(vm, t, lo, hi) && IsData(vm, t, lo, hi, p)
    ensures Page(vm.mem, p) && !IsTable(t, p) && p !in vm.free
  {
    var w :| lo <= w < hi && Ppn(Pte(vm.mem, t, w)) == p;
    assert DataAt(vm, t, w);
  }

  /** One more page of data after lo..v. */
  lemma DataSnoc(vm: Vm, u: Tree, lo: int, v: int, g: int, vm1: Vm, u1: Tree)
    requires 0 <= lo <= v < MAXVPN && Data(vm, u, lo, v) && !IsData(vm, u, lo, v, g)
    requires DataAt(vm1, u1, v) && Ppn(Pte(vm1.mem, u1, v)) == g
    requires forall w | lo <= w < v :: Pte(vm1.mem, u1, w) == Pte(vm.mem, u, w) && DataAt(vm1, u1, w)
    ensures Data(vm1, u1, lo, v + 1)
    ensures forall p {:trigger IsData(vm, u, lo, v, p)} ::
              IsData(vm1, u1, lo, v + 1, p) <==> IsData(vm, u, lo, v, p) || p == g
  {
    var h := v + 1;
    forall p ensures IsData(vm1, u1, lo, h, p) <==> IsData(vm, u, lo, v, p) || p == g {
      if w :| lo <= w < h && Ppn(Pte(vm1.mem, u1, w)) == p { assert w < v ==> Ppn(Pte(vm.mem, u, w)) == p; }
      if w :| lo <= w < v && Ppn(Pte(vm.mem, u, w)) == p { assert Ppn(Pte(vm1.mem, u1, w)) == p; }
      assert Ppn(Pte(vm1.mem, u1, v)) == g;
    }
    forall w, x | lo <= w < x < h ensures Ppn(Pte(vm1.mem, u1, w)) != Ppn(Pte(vm1.mem, u1, x)) {
      assert Pte(vm1.mem, u1, w) == Pte(vm.mem, u, w);
      assert x < v ==> Pte(vm1.mem, u1, x) == Pte(vm.mem, u, x);
    }
  }

  lemma MappedData(vm: Vm, u: Tree, lo: int, v: int, g: int, pte: W, vm1: Vm, u1: Tree)
    requires 0 <= lo <= v < MAXVPN && Data(vm, u, lo, v) && !IsData(vm, u, lo, v, g) && Page(vm.mem, g)
             && g !in vm.free && !IsTable(u, g)
    requires Valid(pte) && Flags(pte) > 1 && Ppn(pte) == g && Updated(vm, u, vm1, u1, map[v := pte])
    ensures Data(vm1, u1, lo, v + 1)
    ensures forall p {:trigger IsData(vm, u, lo, v, p)} ::
              IsData(vm1, u1, lo, v + 1, p) <==> IsData(vm, u, lo, v, p) || p == g
  {
    assert Pte(vm1.mem, u1, v) == pte;
    forall w | lo <= w < v
      ensures Pte(vm1.mem, u1, w) == Pte(vm.mem, u, w) && DataAt(vm1, u1, w)
    {
      assert DataAt(vm, u, w);
    }
    DataSnoc(vm, u, lo, v, g, vm1, u1);
  }

  /** mappages putting the page in hand at v. */
  lemma TookMap(vm0: Vm, t0: Tree, vm: Vm, u: Tree, lo: int, v: int, g: int, pte: W, vm1: Vm, u1: Tree)
    requires Took(vm0, t0, vm, u, lo, v, {g}) && v < MAXVPN && Valid(pte) && Flags(pte) > 1 && Ppn(pte) == g
    requires Updated(vm, u, vm1, u1, map[v := pte])
    ensures Took(vm0, t0, vm1, u1, lo, v + 1, {})
  {
    MappedData(vm, u, lo, v, g, pte, vm1, u1);
    forall p ensures (p in vm1.free || IsTable(u1, p) || IsData(vm1, u1, lo, v + 1, p)) <==>
             p in vm0.free || IsTable(t0, p) {
      assert IsData(vm1, u1, lo, v + 1, p) <==> IsData(vm, u, lo, v, p) || p == g;
    }
  }

  /** mappages failing after growing the tree. */
  lemma TookGrow(vm0: Vm, t0: Tree, vm: Vm, u: Tree, lo: int, v: int, g: int, vm1: Vm, u1: Tree)
    requires Took(vm0, t0, vm, u, lo, v, {g}) && Updated(vm, u, vm1, u1, map[])
    ensures Took(vm0, t0, vm1, u1, lo, v, {g})
  {
    SameData(vm, u, vm1, u1, lo, v);
    forall w | lo <= w < v ensures DataAt(vm1, u1, w) { assert DataAt(vm, u, w); }
  }

  /** kfree of the page in hand. */
  lemma TookDrop(vm0: Vm, t0: Tree, vm: Vm, u: Tree, lo: int, v: int, g: int)
    requires Took(vm0, t0, vm, u, lo, v, {g})
    ensures Took(vm0, t0, Kfree(vm, g), u, lo, v, {})
  {
    var vm1 := Kfree(vm, g);
    forall p | IsTable(u, p)
      ensures p in vm.mem && p in vm1.mem && vm1.mem[p] == vm.mem[p]
    {
      TablesArePages(vm.mem, u, p);
    }
    Untouched(vm.mem, vm1.mem, u);
    SameData(vm, u, vm1, u, lo, v);
    forall w | lo <= w < v
      ensures DataAt(vm1, u, w)
    {
      assert DataAt(vm, u, w) && IsData(vm, u, lo, v, Ppn(Pte(vm.mem, u, w)));
    }
  }

  /** The roll-back: freeing what was taken restores the map. */
  lemma TookUndo(vm0: Vm, t0: Tree, vm: Vm, u: Tree, lo: int, v: int)
    requires Took(vm0, t0, vm, u, lo, v, {}) && forall w | lo <= w < v :: Pte(vm0.mem, t0, w) == ZERO
    ensures Took(vm0, t0, Dealloc(vm, u.root, v, lo), u, lo, lo, {})
  {
    var vm1 := Dealloc(vm, u.root, v, lo);
    if lo < v { UnmapFrees(vm, u, lo, v, Unmap(vm, u.root, lo, v, true)); } else { NothingUnmapped(vm, u, lo, v); }
    forall p ensures !IsData(vm1, u, lo, lo, p) {}
  }

  /** Each of the pages lo..hi holds what c says. */
  ghost predicate Contents(vm: Vm, u: Tree, lo: int, hi: int, c: int -> seq<W>) {
    forall w {:trigger Pte(vm.mem, u, w)} | lo <= w < hi ::
             Ppn(Pte(vm.mem, u, w)) in vm.mem && vm.mem[Ppn(Pte(vm.mem, u, w))] == c(w)
  }

  /** mappages of a single page: it is mapped, or nothing is. */
  lemma MapOnePage(vm: Vm, t: Tree, v: int, g: int, perm: int, r: (Vm, MapOutcome)) returns (u: Tree)
    requires WF(vm.mem, t) && FreeOk(vm, t) && 0 <= v < MAXVPN && IsMappages(vm, t.root, v, v + 1, g, perm, r)
    ensures Updated(vm, t, r.0, u, if r.1 == Mapped then map[v := MakePte(g, perm)] else map[])
  {
    var m;
    u, m := MapAll(vm, t, v, v + 1, g, perm, r);
    assert Range(v, 1, g, perm) == map[v := MakePte(g, perm)];
    assert Range(v, 0, g, perm) == map[];
  }

  /** One round of uvmalloc or uvmcopy: kalloc, fill, mappages; on failure the page is freed again. */
  lemma TakeStep(vm0: Vm, t0: Tree, vm: Vm, u: Tree, lo: int, v: int, c: int -> seq<W>, perm: int, r: (Vm, MapOutcome))
      returns (u1: Tree)
    requires Took(vm0, t0, vm, u, lo, v, {}) && Contents(vm, u, lo, v, c) && v < MAXVPN && vm.free != []
             && |c(v)| == 512
    requires Pte(vm0.mem, t0, v) == ZERO && 2 <= perm
    requires IsMappages(Vm(vm.mem[vm.free[0] := c(v)], vm.free[1..]), u.root, v, v + 1, vm.free[0], perm, r)
    ensures r.1 == Mapped ==> Took(vm0, t0, r.0, u1, lo, v + 1, {}) && Contents(r.0, u1, lo, v + 1, c)
    ensures r.1 == Mapped ==>
              Pte(r.0.mem, u1, v) == MakePte(vm.free[0], perm)
              && forall w | lo <= w < v :: Pte(r.0.mem, u1, w) == Pte(vm.mem, u, w)
    ensures r.1 != Mapped ==> Took(vm0, t0, Kfree(r.0, vm.free[0]), u1, lo, v, {})
  {
    var g := vm.free[0];
    var vm1 := Vm(vm.mem[g := c(v)], vm.free[1..]);
    TookAlloc(vm0, t0, vm, u, lo, v, c(v), vm1);
    u1 := MapOnePage(vm1, u, v, g, perm, r);
    if r.1 == Mapped {
      TakeMapped(vm0, t0, vm, u, lo, v, c, vm1, MakePte(g, perm), r.0, u1);
    } else {
      TookGrow(vm0, t0, vm1, u, lo, v, g, r.0, u1);
      TookDrop(vm0, t0, r.0, u1, lo, v, g);
    }
  }

  lemma TakeMapped(vm0: Vm, t0: Tree, vm: Vm, u: Tree, lo: int, v: int, c: int -> seq<W>, vm1: Vm, pte: W, vm2: Vm,
                   u1: Tree)
    requires 0 <= lo <= v < MAXVPN && Data(vm, u, lo, v) && Contents(vm, u, lo, v, c) && vm.free != []
    requires vm1.mem == vm.mem[vm.free[0] := c(v)] && Took(vm0, t0, vm1, u, lo, v, {vm.free[0]})
    requires forall w | 0 <= w < MAXVPN :: Pte(vm1.mem, u, w) == Pte(vm.mem, u, w)
    requires Updated(vm1, u, vm2, u1, map[v := pte]) && Valid(pte) && Flags(pte) > 1 && Ppn(pte) == vm.free[0]
    ensures Took(vm0, t0, vm2, u1, lo, v + 1, {}) && Contents(vm2, u1, lo, v + 1, c)
    ensures Pte(vm2.mem, u1, v) == pte && forall w | lo <= w < v :: Pte(vm2.mem, u1, w) == Pte(vm.mem, u, w)
  {
    TookMap(vm0, t0, vm1, u, lo, v, vm.free[0], pte, vm2, u1);
    TakenContents(vm, u, lo, v, c, vm1, vm2, u1, pte);
  }

  lemma TakenContents(vm: Vm, u: Tree, lo: int, v: int, c: int -> seq<W>, vm1: Vm, vm2: Vm, u1: Tree, pte: W)
    requires 0 <= lo <= v < MAXVPN && Data(vm, u, lo, v) && Contents(vm, u, lo, v, c) && vm.free != []
    requires vm1.mem == vm.mem[vm.free[0] := c(v)] && Ppn(pte) == vm.free[0]
    requires forall w | 0 <= w < MAXVPN :: Pte(vm1.mem, u, w) == Pte(vm.mem, u, w)
    requires Updated(vm1, u, vm2, u1, map[v := pte]) && Data(vm2, u1, lo, v + 1)
    ensures Contents(vm2, u1, lo, v + 1, c)
  {
    forall w | lo <= w < v + 1
      ensures Ppn(Pte(vm2.mem, u1, w)) in vm2.mem && vm2.mem[Ppn(Pte(vm2.mem, u1, w))] == c(w)
    {
      assert DataAt(vm2, u1, w);
      if w < v { assert DataAt(vm, u, w) && Pte(vm2.mem, u1, w) == Pte(vm.mem, u, w); }
    }
  }

  function ZeroPage(w: int): (c: seq<W>) { Filled(ZERO) }

  ghost predicate Granted(vm: Vm, u: Tree, lo: int, hi: int) {
    Contents(vm, u, lo, hi, ZeroPage) && forall w | lo <= w < hi :: Flags(Pte(vm.mem, u, w)) == PTE_WXRU + 1
  }

  predicate IsAllocLoop(vm: Vm, root: int, lo: int, v: int, end: int, r: (Vm, bool)) {
    r == AllocLoop(vm, root, lo, v, end)
  }

  lemma AllocUnfold(vm: Vm, root: int, lo: int, v: int, end: int, r: (Vm, bool))
    requires IsAllocLoop(vm, root, lo, v, end, r) && v < end && (vm.free != [] ==> vm.free[0] != 0)
    ensures vm.free == [] ==> r == (Dealloc(vm, root, v, lo), false)
    ensures vm.free != [] ==>
              var m := Mappages(Vm(vm.mem[vm.free[0] := ZeroPage(v)], vm.free[1..]), root, v, v + 1, vm.free[0],
                PTE_WXRU);
              if m.1 == Mapped then IsAllocLoop(m.0, root, lo, v + 1, end, r)
              else r == (Dealloc(Kfree(m.0, vm.free[0]), root, v, lo), false)
  {
    if vm.free != [] {
      var g := vm.free[0];
      assert vm.mem[g := Filled(FIVES)][g := Filled(ZERO)] == vm.mem[g := Filled(ZERO)];
    }
  }

  lemma GrantMore(vm: Vm, u: Tree, lo: int, v: int, vm1: Vm, u1: Tree, g: int)
    requires lo <= v && Granted(vm, u, lo, v) && Contents(vm1, u1, lo, v + 1, ZeroPage)
    requires Pte(vm1.mem, u1, v) == MakePte(g, PTE_WXRU)
             && forall w | lo <= w < v :: Pte(vm1.mem, u1, w) == Pte(vm.mem, u, w)
    ensures Granted(vm1, u1, lo, v + 1)
  {
  }

  /** One round of uvmalloc: on to the next page, or all the way back. */
  lemma AllocStep(vm0: Vm, t0: Tree, vm: Vm, u: Tree, lo: int, v: int, end: int, r: (Vm, bool))
      returns (go: bool, vm1: Vm, u1: Tree)
    requires Took(vm0, t0, vm, u, lo, v, {}) && Granted(vm, u, lo, v) && v < end <= MAXVPN
    requires forall w | lo <= w < end :: Pte(vm0.mem, t0, w) == ZERO
    requires IsAllocLoop(vm, u.root, lo, v, end, r)
    ensures go ==>
              Took(vm0, t0, vm1, u1, lo, v + 1, {}) && Granted(vm1, u1, lo, v + 1)
              && IsAllocLoop(vm1, u1.root, lo, v + 1, end, r)
    ensures !go ==> Took(vm0, t0, r.0, u1, lo, lo, {}) && !r.1
  {
    u1, vm1, go := u, vm, false;
    assert vm.free != [] ==> vm.free[0] in vm.free;
    AllocUnfold(vm, u.root, lo, v, end, r);
    if vm.free == [] {
      TookUndo(vm0, t0, vm, u, lo, v);
    } else {
      var m := Mappages(Vm(vm.mem[vm.free[0] := ZeroPage(v)], vm.free[1..]), u.root, v, v + 1, vm.free[0], PTE_WXRU);
      u1 := TakeStep(vm0, t0, vm, u, lo, v, ZeroPage, PTE_WXRU, m);
      go, vm1 := m.1 == Mapped, m.0;
      if go {
        GrantMore(vm, u, lo, v, vm1, u1, vm.free[0]);
      } else {
        TookUndo(vm0, t0, Kfree(m.0, vm.free[0]), u1, lo, v);
      }
    }
  }

  lemma {:induction false} AllocTakes(vm0: Vm, t0: Tree, vm: Vm, u: Tree, lo: int, v: int, end: int, r: (Vm, bool))
      returns (u1: Tree)
    requires Took(vm0, t0, vm, u, lo, v, {}) && Granted(vm, u, lo, v) && v <= end <= MAXVPN
    requires forall w | lo <= w < end :: Pte(vm0.mem, t0, w) == ZERO
    requires IsAllocLoop(vm, u.root, lo, v, end, r)
    ensures if r.1 then Took(vm0, t0, r.0, u1, lo, end, {}) && Granted(r.0, u1, lo, end)
            else Took(vm0, t0, r.0, u1, lo, lo, {})
    decreases end - v
  {
    u1 := u;
    if v < end {
      var go, vm2, u2 := AllocStep(vm0, t0, vm, u, lo, v, end, r);
      u1 := u2;
      if go { u1 := AllocTakes(vm0, t0, vm2, u2, lo, v + 1, end, r); }
    }
  }

  lemma TookNothing(vm: Vm, t: Tree, lo: int)
    requires WF(vm.mem, t) && FreeOk(vm, t) && 0 <= lo <= MAXVPN
    ensures Took(vm, t, vm, t, lo, lo, {})
  {
    forall p ensures !IsData(vm, t, lo, lo, p) {}
  }

  /** uvmalloc grows the process by zeroed pages with all permissions, or fails having given back every data page it
      took: the map is as it was, and the only pages not free again are table pages now part of the tree. */
  lemma UvmallocGrowsOrRestores(vm: Vm, t: Tree, oldsz: nat, newsz: nat) returns (u: Tree)
    requires WF(vm.mem, t) && FreeOk(vm, t) && oldsz <= newsz && 0 < newsz && PageCount(newsz) <= MAXVPN
    requires forall w | PageCount(oldsz) <= w < PageCount(newsz) :: Pte(vm.mem, t, w) == ZERO
    ensures var (vm', sz) := Uvmalloc(vm, t.root, oldsz, newsz);
            var lo, hi := PageCount(oldsz), PageCount(newsz);
            if sz == newsz then Took(vm, t, vm', u, lo, hi, {}) && Granted(vm', u, lo, hi)
            else sz == 0 && Took(vm, t, vm', u, lo, lo, {})
  {
    var lo := PageCount(oldsz);
    TookNothing(vm, t, lo);
    u := AllocTakes(vm, t, vm, t, lo, lo, PageCount(newsz), AllocLoop(vm, t.root, lo, lo, PageCount(newsz)));
  }

  // ---- uvmcopy ----

  datatype CopyOutcome = Copied | CopyFailed | CopyPanic

  function PageOf(m: Mem, p: int): (c: seq<W>) {
    if p in m then m[p] else []
  }

  /** The loop of uvmcopy at page v; `par` and `kid` are the roots of the parent's and the child's tables. */
  function CopyFrom(vm: Vm, par: int, kid: int, v: int, end: int): (r: (Vm, CopyOutcome))
    decreases end - v
  {
    if v >= end then (vm, Copied) else
      var table := Walk(vm, par, v, false).1;
      var pte := Word(vm.mem, table, Px(0, v));
      if table == 0 || !Valid(pte) then (vm, CopyPanic) else
        var (vm1, g) := Kalloc(vm);
        if g == 0 then (Unmap(vm1, kid, 0, v, true).0, CopyFailed)
        else
          var (vm2, o) := Mappages(vm1.(mem := vm1.mem[g := PageOf(vm1.mem, Ppn(pte))]), kid, v, v + 1, g, Flags(pte));
          if o != Mapped then (Unmap(Kfree(vm2, g), kid, 0, v, true).0, CopyFailed)
          else CopyFrom(vm2, par, kid, v + 1, end)
  }

  function CopyLoop(vm: Vm, par: int, kid: int, v: int, end: int): (r: (Vm, CopyOutcome)) {
    CopyFrom(vm, par, kid, v, end)
  }

  /** The parent: a tree apart from the child's and from the free pages, mapping 0..end to data pages that are too. */
  ghost predicate Parent(vm: Vm, par: Tree, t: Tree, end: int) {
    && WF(vm.mem, par) && Data(vm, par, 0, end)
    && (forall p | IsTable(par, p) :: p !in vm.free && !IsTable(t, p))
    && (forall w {:trigger Pte(vm.mem, par, w)} | 0 <= w < end :: !IsTable(t, Ppn(Pte(vm.mem, par, w))))
  }

  /** While the child takes pages, nothing of the parent changes. */
  lemma ParentKept(vm0: Vm, par: Tree, t0: Tree, vm: Vm, u: Tree, hi: int, end: int)
    requires Took(vm0, t0, vm, u, 0, hi, {}) && Parent(vm0, par, t0, end) && end <= MAXVPN
    ensures WF(vm.mem, par) && forall w | 0 <= w < MAXVPN :: Pte(vm.mem, par, w) == Pte(vm0.mem, par, w)
    ensures forall w | 0 <= w < end ::
              PageOf(vm.mem, Ppn(Pte(vm0.mem, par, w))) == PageOf(vm0.mem, Ppn(Pte(vm0.mem, par, w)))
    ensures forall w | 0 <= w < end :: Ppn(Pte(vm0.mem, par, w)) !in vm.free
  {
    forall p | IsTable(par, p)
      ensures p in vm0.mem && p in vm.mem && vm.mem[p] == vm0.mem[p]
    {
      TablesArePages(vm0.mem, par, p);
    }
    Untouched(vm0.mem, vm.mem, par);
    forall w | 0 <= w < end
      ensures PageOf(vm.mem, Ppn(Pte(vm0.mem, par, w))) == PageOf(vm0.mem, Ppn(Pte(vm0.mem, par, w)))
      ensures Ppn(Pte(vm0.mem, par, w)) !in vm.free
    {
      assert DataAt(vm0, par, w);
    }
  }

  /** Pages 0..hi of the child hold copies of the parent's, with the same flags. */
  ghost predicate IsCopy(vm0: Vm, par: Tree, vm: Vm, u: Tree, hi: int, c: int -> seq<W>) {
    Contents(vm, u, 0, hi, c) && forall w | 0 <= w < hi :: Flags(Pte(vm.mem, u, w)) == Flags(Pte(vm0.mem, par, w))
  }

  predicate IsCopyLoop(vm: Vm, par: int, kid: int, v: int, end: int, r: (Vm, CopyOutcome)) {
    r == CopyLoop(vm, par, kid, v, end)
  }

  lemma CopyUnfold(par: Tree, vm: Vm, kid: int, v: int, end: int, c: seq<W>, pte: W, r: (Vm, CopyOutcome))
    requires WF(vm.mem, par) && 0 <= v < end <= MAXVPN && (vm.free != [] ==> vm.free[0] != 0)
    requires pte == Pte(vm.mem, par, v) && Valid(pte) && Ppn(pte) !in vm.free && c == PageOf(vm.mem, Ppn(pte))
    requires IsCopyLoop(vm, par.root, kid, v, end, r)
    ensures vm.free == [] ==> r == (Dealloc(vm, kid, v, 0), CopyFailed)
    ensures vm.free != [] ==>
              var m := Mappages(Vm(vm.mem[vm.free[0] := c], vm.free[1..]), kid, v, v + 1, vm.free[0], Flags(pte));
              if m.1 == Mapped then IsCopyLoop(m.0, par.root, kid, v + 1, end, r)
              else r == (Dealloc(Kfree(m.0, vm.free[0]), kid, v, 0), CopyFailed)
  {
    WalkFinds(vm, par, v);
    assert v / 512 in par.low && MidOk(vm.mem, par, v / 512);
    if vm.free != [] {
      var g := vm.free[0];
      assert g in vm.free;
      assert PageOf(vm.mem[g := Filled(FIVES)], Ppn(pte)) == c;
      assert vm.mem[g := Filled(FIVES)][g := c] == vm.mem[g := c];
    }
  }

  /** The parent's page v as the child's loop finds it. */
  lemma ParentAt(vm0: Vm, par: Tree, t0: Tree, vm: Vm, u: Tree, v: int, end: int, pte: W)
    requires Took(vm0, t0, vm, u, 0, v, {}) && Parent(vm0, par, t0, end) && v < end <= MAXVPN
             && pte == Pte(vm0.mem, par, v)
    ensures WF(vm.mem, par) && FreeOk(vm, u) && pte == Pte(vm.mem, par, v) && Valid(pte) && Ppn(pte) !in vm.free
    ensures PageOf(vm.mem, Ppn(pte)) == PageOf(vm0.mem, Ppn(pte)) && |PageOf(vm0.mem, Ppn(pte))| == 512
    ensures 2 <= Flags(pte) && Flags(pte) % 2 == 1
  {
    ParentKept(vm0, par, t0, vm, u, v, end);
    assert DataAt(vm0, par, v);
  }

  lemma CopyMore(vm0: Vm, par: Tree, vm: Vm, u: Tree, v: int, c: int -> seq<W>, vm1: Vm, u1: Tree, g: int)
    requires 0 <= v && IsCopy(vm0, par, vm, u, v, c) && Contents(vm1, u1, 0, v + 1, c)
             && Flags(Pte(vm0.mem, par, v)) % 2 == 1
    requires Pte(vm1.mem, u1, v) == MakePte(g, Flags(Pte(vm0.mem, par, v)))
             && forall w | 0 <= w < v :: Pte(vm1.mem, u1, w) == Pte(vm.mem, u, w)
    ensures IsCopy(vm0, par, vm1, u1, v + 1, c)
  {
  }

  lemma CopyStep(vm0: Vm, par: Tree, t0: Tree, vm: Vm, u: Tree, v: int, end: int, c: int -> seq<W>,
                 r: (Vm, CopyOutcome)) returns (go: bool, vm1: Vm, u1: Tree)
    requires Took(vm0, t0, vm, u, 0, v, {}) && Parent(vm0, par, t0, end) && IsCopy(vm0, par, vm, u, v, c)
             && v < end <= MAXVPN
    requires c(v) == PageOf(vm0.mem, Ppn(Pte(vm0.mem, par, v))) && IsCopyLoop(vm, par.root, u.root, v, end, r)
    requires forall w | 0 <= w < end :: Pte(vm0.mem, t0, w) == ZERO
    ensures go ==>
              Took(vm0, t0, vm1, u1, 0, v + 1, {}) && IsCopy(vm0, par, vm1, u1, v + 1, c)
              && IsCopyLoop(vm1, par.root, u1.root, v + 1, end, r)
    ensures !go ==> Took(vm0, t0, r.0, u1, 0, 0, {}) && r.1 == CopyFailed
  {
    u1, vm1, go := u, vm, false;
    var pte := Pte(vm0.mem, par, v);
    ParentAt(vm0, par, t0, vm, u, v, end, pte);
    assert vm.free != [] ==> vm.free[0] in vm.free;
    CopyUnfold(par, vm, u.root, v, end, c(v), pte, r);
    if vm.free == [] {
      TookUndo(vm0, t0, vm, u, 0, v);
    } else {
      var m := Mappages(Vm(vm.mem[vm.free[0] := c(v)], vm.free[1..]), u.root, v, v + 1, vm.free[0], Flags(pte));
      u1 := CopyTake(vm0, par, t0, vm, u, v, c, pte, m);
      go, vm1 := m.1 == Mapped, m.0;
    }
  }

  lemma CopyTake(vm0: Vm, par: Tree, t0: Tree, vm: Vm, u: Tree, v: int, c: int -> seq<W>, pte: W, m: (Vm, MapOutcome))
      returns (u1: Tree)
    requires Took(vm0, t0, vm, u, 0, v, {}) && IsCopy(vm0, par, vm, u, v, c) && v < MAXVPN && vm.free != []
    requires pte == Pte(vm0.mem, par, v) && |c(v)| == 512 && 2 <= Flags(pte) && Flags(pte) % 2 == 1
    requires forall w | 0 <= w <= v :: Pte(vm0.mem, t0, w) == ZERO
    requires IsMappages(Vm(vm.mem[vm.free[0] := c(v)], vm.free[1..]), u.root, v, v + 1, vm.free[0], Flags(pte), m)
    ensures m.1 == Mapped ==> Took(vm0, t0, m.0, u1, 0, v + 1, {}) && IsCopy(vm0, par, m.0, u1, v + 1, c)
    ensures m.1 != Mapped ==> Took(vm0, t0, Dealloc(Kfree(m.0, vm.free[0]), u.root, v, 0), u1, 0, 0, {})
  {
    u1 := TakeStep(vm0, t0, vm, u, 0, v, c, Flags(pte), m);
    if m.1 == Mapped {
      CopyMore(vm0, par, vm, u, v, c, m.0, u1, vm.free[0]);
    } else {
      TookUndo(vm0, t0, Kfree(m.0, vm.free[0]), u1, 0, v);
    }
  }

  lemma {:induction false} CopyTakes(vm0: Vm, par: Tree, t0: Tree, vm: Vm, u: Tree, v: int, end: int, c: int -> seq<W>,
                                     r: (Vm, CopyOutcome)) returns (u1: Tree)
    requires Took(vm0, t0, vm, u, 0, v, {}) && Parent(vm0, par, t0, end) && IsCopy(vm0, par, vm, u, v, c)
             && v <= end <= MAXVPN
    requires forall w | 0 <= w < end ::
               Pte(vm0.mem, t0, w) == ZERO && c(w) == PageOf(vm0.mem, Ppn(Pte(vm0.mem, par, w)))
    requires IsCopyLoop(vm, par.root, u.root, v, end, r)
    ensures if r.1 == Copied then Took(vm0, t0, r.0, u1, 0, end, {}) && IsCopy(vm0, par, r.0, u1, end, c)
            else r.1 == CopyFailed && Took(vm0, t0, r.0, u1, 0, 0, {})
    decreases end - v
  {
    u1 := u;
    if v < end {
      var go, vm2, u2 := CopyStep(vm0, par, t0, vm, u, v, end, c, r);
      u1 := u2;
      if go { u1 := CopyTakes(vm0, par, t0, vm2, u2, v + 1, end, c, r); }
    }
  }

  /** uvmcopy gives the child pages of its own with the parent's contents and flags, or fails having given back every
      data page; it does not panic; and either way nothing of the parent has changed. */
  lemma UvmcopyCopiesOrRestores(vm: Vm, par: Tree, t: Tree, end: int, c: int -> seq<W>) returns (u: Tree)
    requires WF(vm.mem, t) && FreeOk(vm, t) && 0 <= end <= MAXVPN && Parent(vm, par, t, end)
    requires forall w | 0 <= w < end :: Pte(vm.mem, t, w) == ZERO && c(w) == PageOf(vm.mem, Ppn(Pte(vm.mem, par, w)))
    ensures var (vm', o) := CopyLoop(vm, par.root, t.root, 0, end);
            && (if o == Copied then Took(vm, t, vm', u, 0, end, {}) && IsCopy(vm, par, vm', u, end, c)
                else o == CopyFailed && Took(vm, t, vm', u, 0, 0, {}))
            && WF(vm'.mem, par) && forall w | 0 <= w < MAXVPN :: Pte(vm'.mem, par, w) == Pte(vm.mem, par, w)
  {
    TookNothing(vm, t, 0);
    var r := CopyLoop(vm, par.root, t.root, 0, end);
    u := CopyTakes(vm, par, t, vm, t, 0, end, c, r);
    ParentKept(vm, par, t, r.0, u, if r.1 == Copied then end else 0, end);
  }
}
