/** Giving up an address space: freewalk returns every table page, once. */
module FreeWalk {
  import opened Basics
  import opened PageTable
  import opened UserMemory

  /** freewalk at entry i of a table page; false if it would panic. `depth` bounds the recursion: a tree
      has three levels. */
  function FreewalkFrom(vm: Vm, table: int, depth: nat, i: int): (r: (Vm, bool))
    decreases depth, 512 - i
  {
    if i >= 512 then (Kfree(vm, table), true) else
      var pte := Word(vm.mem, table, i);
      if !Valid(pte) then FreewalkFrom(vm, table, depth, i + 1)
      else if HasRWX(pte) || depth == 0 then (vm, false)
      else
        var (vm1, ok) := FreewalkFrom(vm, Ppn(pte), depth - 1, 0);
        if ok then FreewalkFrom(vm1.(mem := Put(vm1.mem, table, i, ZERO)), table, depth, i + 1) else (vm1, false)
  }

  function Freewalk(vm: Vm, table: int, depth: nat, i: int): (r: (Vm, bool)) {
    FreewalkFrom(vm, table, depth, i)
  }

  /** The pages ps, and no others, have been added to the free list, once each; other pages are unchanged. */
  ghost predicate Freed(vm: Vm, vm': Vm, ps: set<int>) {
    && (forall p :: p in vm'.free <==> p in vm.free || p in ps)
    && (forall p | p in ps :: p !in vm.free)
    && (Distinct(vm.free) ==> Distinct(vm'.free)) && |vm'.free| == |vm.free| + |ps|
    && (forall p | p !in ps :: (p in vm'.mem <==> p in vm.mem) && (p in vm.mem ==> vm'.mem[p] == vm.mem[p]))
  }

  // ---- a tree of table pages of any depth ----

  datatype Node = NoNode | Node(page: int, kids: seq<Node>)

  /** The pages of a node's subtrees from entry i on, and its own. */
  ghost function Pages(n: Node, i: int): (ps: set<int>)
    requires n.Node?
    decreases n, 512 - i
  {
    if i >= |n.kids| || i >= 512 || i < 0 then {n.page}
    else if n.kids[i].NoNode? then Pages(n, i + 1)
    else Pages(n.kids[i], 0) + Pages(n, i + 1)
  }

  /** From entry i on, the memory holds the subtrees of n and no leaf entries, and no page occurs twice or is free. */
  ghost predicate Holds(vm: Vm, n: Node, depth: nat, i: int)
    decreases n, 512 - i
  {
    n.Node? && |n.kids| == 512 && 0 <= i &&
    if i >= 512 then n.page !in vm.free
    else if n.kids[i].NoNode? then !Valid(Word(vm.mem, n.page, i)) && Holds(vm, n, depth, i + 1)
    else
      && Word(vm.mem, n.page, i) == MakePte(n.kids[i].page, 0)
      && depth > 0 && Holds(vm, n.kids[i], depth - 1, 0) && Holds(vm, n, depth, i + 1)
      && Pages(n.kids[i], 0) !! Pages(n, i + 1)
  }

  /** Holding survives changes to pages outside the node, and to entries of its own page before i. */
  lemma {:induction false} HoldsFrame(vm: Vm, vm': Vm, n: Node, depth: nat, i: int)
    requires Holds(vm, n, depth, i)
    requires forall j | i <= j < 512 :: Word(vm'.mem, n.page, j) == Word(vm.mem, n.page, j)
    requires forall p | p in Pages(n, i) :: p !in vm'.free
    requires forall p, j {:trigger Word(vm'.mem, p, j)} | p in Pages(n, i) && p != n.page ::
               Word(vm'.mem, p, j) == Word(vm.mem, p, j)
    ensures Holds(vm', n, depth, i)
    decreases n, 512 - i
  {
    if i < 512 {
      if n.kids[i].Node? {
        OwnPage(n.kids[i], 0);
        OwnPage(n, i + 1);
        HoldsFrame(vm, vm', n.kids[i], depth - 1, 0);
      }
      HoldsFrame(vm, vm', n, depth, i + 1);
    } else {
      assert n.page in Pages(n, i);
    }
  }

  lemma {:induction false} OwnPage(n: Node, i: int)
    requires n.Node?
    ensures n.page in Pages(n, i)
    decreases 512 - i
  {
    if !(i >= |n.kids| || i >= 512 || i < 0) { OwnPage(n, i + 1); }
  }

  lemma FreedTrans(vm: Vm, vm1: Vm, vm2: Vm, vm3: Vm, ps: set<int>, qs: set<int>, x: int)
    requires Freed(vm, vm1, ps) && Freed(vm2, vm3, qs) && x in qs
    requires vm2.free == vm1.free && vm2.mem.Keys == vm1.mem.Keys
             && forall p | p in vm1.mem && p != x :: vm2.mem[p] == vm1.mem[p]
    ensures Freed(vm, vm3, ps + qs)
  {
    forall p | p in ps ensures p !in qs { assert p in vm1.free; }
    assert |ps + qs| == |ps| + |qs|;
  }

  /** freewalk frees every page of the node it is given, once, and does not panic. */
  lemma {:induction false} FreewalkFrees(vm: Vm, n: Node, depth: nat, i: int, r: (Vm, bool))
    requires Holds(vm, n, depth, i) && (forall p | p in Pages(n, i) :: p !in vm.free)
             && r == Freewalk(vm, n.page, depth, i)
    ensures r.1 && Freed(vm, r.0, Pages(n, i))
    decreases n, 512 - i
  {
    if i >= 512 {
      assert Pages(n, i) == {n.page};
    } else if n.kids[i].NoNode? {
      FreewalkFrees(vm, n, depth, i + 1, r);
    } else {
      var r1 := Freewalk(vm, n.kids[i].page, depth - 1, 0);
      FreewalkFrees(vm, n.kids[i], depth - 1, 0, r1);
      var vm2 := r1.0.(mem := Put(r1.0.mem, n.page, i, ZERO));
      AfterKid(vm, n, depth, i, r1.0, vm2);
      FreewalkFrees(vm2, n, depth, i + 1, r);
      KidFreed(vm, n, i, r1.0, vm2, r.0);
    }
  }

  lemma KidFreed(vm: Vm, n: Node, i: int, vm1: Vm, vm2: Vm, vm3: Vm)
    requires n.Node? && 0 <= i < 512 && i < |n.kids| && n.kids[i].Node?
    requires Freed(vm, vm1, Pages(n.kids[i], 0)) && vm2 == vm1.(mem := Put(vm1.mem, n.page, i, ZERO))
             && Freed(vm2, vm3, Pages(n, i + 1))
    ensures Freed(vm, vm3, Pages(n, i))
  {
    OwnPage(n, i + 1);
    PutChangesOne(vm1.mem, n.page, i, ZERO);
    FreedTrans(vm, vm1, vm2, vm3, Pages(n.kids[i], 0), Pages(n, i + 1), n.page);
  }

  lemma AfterKid(vm: Vm, n: Node, depth: nat, i: int, vm1: Vm, vm2: Vm)
    requires Holds(vm, n, depth, i) && i < 512 && n.kids[i].Node? && Freed(vm, vm1, Pages(n.kids[i], 0))
    requires vm2 == vm1.(mem := Put(vm1.mem, n.page, i, ZERO))
    requires forall p | p in Pages(n, i) :: p !in vm.free
    ensures Holds(vm2, n, depth, i + 1) && forall p | p in Pages(n, i + 1) :: p !in vm2.free
  {
    var ps := Pages(n, i + 1);
    PutChangesOne(vm1.mem, n.page, i, ZERO);
    OwnPage(n, i + 1);
    forall p, j | p in ps && !(p == n.page && j == i) ensures Word(vm2.mem, p, j) == Word(vm.mem, p, j) {
      assert Word(vm2.mem, p, j) == Word(vm1.mem, p, j);
    }
    HoldsFrame(vm, vm2, n, depth, i + 1);
  }

  // ---- an Sv39 tree as such a node ----

  ghost function LowNode(p: int): (n: Node) {
    Node(p, seq(512, _ => NoNode))
  }

  ghost function MidNode(t: Tree, a: int): (n: Node)
    requires a in t.mid
  {
    Node(t.mid[a], seq(512, i => if a * 512 + i in t.low then LowNode(t.low[a * 512 + i]) else NoNode))
  }

  ghost function RootNode(t: Tree): (n: Node) {
    Node(t.root, seq(512, a => if a in t.mid then MidNode(t, a) else NoNode))
  }

  /** No virtual page is mapped. */
  ghost predicate Empty(m: Mem, t: Tree) {
    forall v | 0 <= v < MAXVPN :: !Valid(Pte(m, t, v))
  }

  lemma {:induction false} LowHolds(vm: Vm, t: Tree, b: int, i: int)
    requires WF(vm.mem, t) && FreeOk(vm, t) && Empty(vm.mem, t) && b in t.low && 0 <= i <= 512
    ensures Holds(vm, LowNode(t.low[b]), 0, i) && Pages(LowNode(t.low[b]), i) == {t.low[b]}
    decreases 512 - i
  {
    assert IsTable(t, t.low[b]);
    if i < 512 {
      LowHolds(vm, t, b, i + 1);
      var v := b * 512 + i;
      assert v / 512 == b && v % 512 == i && 0 <= v < MAXVPN;
      assert !Valid(Pte(vm.mem, t, v));
    }
  }

  /** The table pages below entry a of the root from entry i on, with the page of that entry. */
  ghost predicate MidPage(t: Tree, a: int, i: int, p: int)
    requires a in t.mid
  {
    p == t.mid[a] || exists b :: b in t.low && t.low[b] == p && a * 512 + i <= b < a * 512 + 512
  }

  /** The table pages from entry i of the root on, with the root. */
  ghost predicate RootPage(t: Tree, i: int, p: int) {
    || p == t.root
    || (exists a :: a in t.mid && t.mid[a] == p && i <= a)
    || (exists b :: b in t.low && t.low[b] == p && i * 512 <= b)
  }

  lemma {:induction false} MidHolds(vm: Vm, t: Tree, a: int, i: int)
    requires WF(vm.mem, t) && FreeOk(vm, t) && Empty(vm.mem, t) && a in t.mid && 0 <= i <= 512
    ensures Holds(vm, MidNode(t, a), 1, i)
    ensures forall p :: p in Pages(MidNode(t, a), i) <==> MidPage(t, a, i, p)
    decreases 512 - i
  {
    var n := MidNode(t, a);
    assert IsTable(t, t.mid[a]);
    if i < 512 {
      MidHolds(vm, t, a, i + 1);
      var b := a * 512 + i;
      assert b / 512 == a && b % 512 == i;
      assert MidOk(vm.mem, t, b);
      if b in t.low {
        LowHolds(vm, t, b, 0);
        assert n.kids[i] == LowNode(t.low[b]);
        assert !MidPage(t, a, i + 1, t.low[b]);
        assert Pages(n, i) == {t.low[b]} + Pages(n, i + 1);
      } else {
        assert Pages(n, i) == Pages(n, i + 1);
      }
    }
  }

  /** Entry i of the root has its pages to itself. */
  lemma RootPageStep(m: Mem, t: Tree, i: int, p: int)
    requires WF(m, t) && 0 <= i < 512
    ensures RootPage(t, i, p) <==> (i in t.mid && MidPage(t, i, 0, p)) || RootPage(t, i + 1, p)
    ensures i in t.mid && MidPage(t, i, 0, p) ==> !RootPage(t, i + 1, p)
  {
    if b :| b in t.low && t.low[b] == p { assert MidOk(m, t, b); }
    if i in t.mid { assert RootOk(m, t, i); }
  }

  lemma RootPageEnd(m: Mem, t: Tree, p: int)
    requires WF(m, t)
    ensures RootPage(t, 512, p) <==> p == t.root
  {
  }

  lemma RootKid(vm: Vm, t: Tree, i: int, j: int)
    requires WF(vm.mem, t) && FreeOk(vm, t) && Empty(vm.mem, t) && 0 <= i < j == i + 1 <= 512 && i in t.mid
    requires Holds(vm, RootNode(t), 2, j) && forall p :: p in Pages(RootNode(t), j) <==> RootPage(t, j, p)
    ensures Holds(vm, RootNode(t), 2, i)
    ensures forall p :: p in Pages(RootNode(t), i) <==> MidPage(t, i, 0, p) || p in Pages(RootNode(t), j)
  {
    var n, k := RootNode(t), MidNode(t, i);
    assert RootOk(vm.mem, t, i) && n.kids[i] == k;
    MidHolds(vm, t, i, 0);
    var ps, qs := Pages(k, 0), Pages(n, j);
    forall p | p in ps ensures p !in qs { RootPageStep(vm.mem, t, i, p); }
    assert ps !! qs && Pages(n, i) == ps + qs;
  }

  lemma {:induction false} RootHolds(vm: Vm, t: Tree, i: int)
    requires WF(vm.mem, t) && FreeOk(vm, t) && Empty(vm.mem, t) && 0 <= i <= 512
    ensures Holds(vm, RootNode(t), 2, i)
    ensures forall p :: p in Pages(RootNode(t), i) <==> RootPage(t, i, p)
    decreases 512 - i
  {
    var n := RootNode(t);
    if i < 512 {
      RootHolds(vm, t, i + 1);
      assert RootOk(vm.mem, t, i);
      if i in t.mid { RootKid(vm, t, i, i + 1); }
      forall p ensures p in Pages(n, i) <==> RootPage(t, i, p) { RootPageStep(vm.mem, t, i, p); }
    } else {
      forall p ensures RootPage(t, i, p) <==> p == t.root { RootPageEnd(vm.mem, t, p); }
    }
  }

  // ---- uvmfree ----

  function Uvmfree(vm: Vm, root: int, npages: int): (r: (Vm, bool)) {
    var (vm1, ok) := Unmap(vm, root, 0, npages, true);
    if ok then Freewalk(vm1, root, 2, 0) else (vm1, false)
  }

  /** uvmfree returns exactly the data pages and the table pages of the process, each once, and does not panic. */
  lemma UvmfreeFreesAll(vm: Vm, t: Tree, n: int, r: (Vm, bool))
    requires WF(vm.mem, t) && FreeOk(vm, t) && 0 <= n <= MAXVPN && Data(vm, t, 0, n)
    requires forall v | n <= v < MAXVPN :: !Valid(Pte(vm.mem, t, v))
    requires r == Uvmfree(vm, t.root, n)
    ensures r.1 && Distinct(r.0.free)
    ensures forall p :: p in r.0.free <==> p in vm.free || IsTable(t, p) || IsData(vm, t, 0, n, p)
  {
    var u := Unmap(vm, t.root, 0, n, true);
    UnmapFrees(vm, t, 0, n, u);
    RootHolds(u.0, t, 0);
    forall p ensures p in Pages(RootNode(t), 0) <==> IsTable(t, p) {}
    FreewalkFrees(u.0, RootNode(t), 2, 0, r);
  }
}
