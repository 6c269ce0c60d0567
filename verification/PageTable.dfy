/** Sv39 page tables held in physical pages, and the page allocator they share with user memory.

    A virtual or physical page is named by its page number; a page is 512 words. The functions follow the C code
    word by word. A Tree names the table pages reachable from a root, and the finite map that the tree implements
    is Pte.
 */
module PageTable {
  import opened Basics

  const MAXVPN: int := 67108864  // MAXVA / PGSIZE

  /** A 64-bit word, seen as its upper 54 and its lower 10 bits: the two fields of a page table entry. */
  datatype W = W(hi: int, lo: int)

  const ZERO: W := W(0, 0)
  const ONES: W := W(70644700037184, 257)    // every byte 1, from kfree's memset
  const FIVES: W := W(353223500185921, 261)  // every byte 5, from kalloc's memset

  type Mem = map<int, seq<W>>

  /** Physical memory and kmem.freelist, first page first. */
  datatype Vm = Vm(mem: Mem, free: seq<int>)

  // ---- page table entries; V, R, W, X, U are 1, 2, 4, 8, 16 ----

  function Ppn(pte: W): (p: int) { pte.hi }
  function Flags(pte: W): (f: int) { pte.lo }
  predicate Valid(pte: W) { pte.lo % 2 == 1 }
  predicate HasRWX(pte: W) { pte.lo % 16 >= 2 }

  /** PA2PTE(pa) | perm | PTE_V. */
  function MakePte(ppn: int, perm: int): (pte: W)
    ensures Valid(pte)
  {
    W(ppn, perm / 2 * 2 + 1)
  }

  /** PX(level, va) for virtual page v. */
  function Px(level: int, v: int): (i: int) {
    if level == 2 then v / 262144 % 512 else if level == 1 then v / 512 % 512 else v % 512
  }

  function Word(m: Mem, p: int, i: int): (w: W) {
    if p in m && 0 <= i < |m[p]| then m[p][i] else ZERO
  }

  function Put(m: Mem, p: int, i: int, w: W): (r: Mem) {
    if p in m && 0 <= i < |m[p]| then m[p := m[p][i := w]] else m
  }

  lemma PutChangesOne(m: Mem, p: int, i: int, w: W)
    ensures forall q, j {:trigger Word(Put(m, p, i, w), q, j)} | !(q == p && j == i) ::
              Word(Put(m, p, i, w), q, j) == Word(m, q, j)
    ensures p in m && 0 <= i < |m[p]| ==> Word(Put(m, p, i, w), p, i) == w
    ensures Put(m, p, i, w).Keys == m.Keys
    ensures forall q {:trigger Put(m, p, i, w)[q]} | q in m ::
              |Put(m, p, i, w)[q]| == |m[q]| && (q != p ==> Put(m, p, i, w)[q] == m[q])
  {
  }

  function Filled(w: W): (r: seq<W>)
    ensures |r| == 512 && forall i | 0 <= i < 512 :: r[i] == w
  {
    seq(512, _ => w)
  }

  // ---- kalloc and kfree; 0 is the null page ----

  function Kalloc(vm: Vm): (r: (Vm, int)) {
    if vm.free == [] then (vm, 0) else (Vm(vm.mem[vm.free[0] := Filled(FIVES)], vm.free[1..]), vm.free[0])
  }

  function Kfree(vm: Vm, p: int): (r: Vm) {
    Vm(vm.mem[p := Filled(ONES)], [p] + vm.free)
  }

  // ---- walk: the level-0 table page holding the entry of v, or 0 ----

  function WalkFrom(vm: Vm, table: int, level: nat, v: int, alloc: bool): (r: (Vm, int))
    decreases level
  {
    if level == 0 then (vm, table) else
      var pte := Word(vm.mem, table, Px(level, v));
      if Valid(pte) then WalkFrom(vm, Ppn(pte), level - 1, v, alloc)
      else if !alloc then (vm, 0)
      else
        var (vm1, g) := Kalloc(vm);
        if g == 0 then (vm1, 0)
        else WalkFrom(vm1.(mem := Put(vm1.mem[g := Filled(ZERO)], table, Px(level, v), MakePte(g, 0))), g, level - 1,
               v, alloc)
  }

  function Walk(vm: Vm, root: int, v: int, alloc: bool): (r: (Vm, int)) {
    WalkFrom(vm, root, 2, v, alloc)
  }

  // ---- what the table pages stand for ----

  /** root; mid[a] is the level-1 table under root entry a; low[b] the level-0 table under entry b % 512 of
      mid[b / 512]. */
  datatype Tree = Tree(root: int, mid: map<int, int>, low: map<int, int>)

  predicate Page(m: Mem, p: int) { p > 0 && p in m && |m[p]| == 512 }

  /** Table page p holds, at i, a pointer to table page q and nothing else. */
  predicate Points(m: Mem, p: int, i: int, q: int) { Word(m, p, i) == MakePte(q, 0) && Page(m, q) }

  ghost predicate RootOk(m: Mem, t: Tree, a: int) {
    if a in t.mid then Points(m, t.root, a, t.mid[a]) && t.mid[a] != t.root else !Valid(Word(m, t.root, a))
  }

  ghost predicate MidOk(m: Mem, t: Tree, b: int) {
    if b in t.low then
      b / 512 in t.mid && Points(m, t.mid[b / 512], b % 512, t.low[b]) && t.low[b] != t.root
    else
      b / 512 in t.mid ==> !Valid(Word(m, t.mid[b / 512], b % 512))
  }

  /** The tree is what the memory holds, and no table page is used twice in it. */
  ghost predicate WF(m: Mem, t: Tree) {
    && Page(m, t.root)
    && (forall a | a in t.mid :: 0 <= a < 256)
    && (forall b | b in t.low :: 0 <= b < 131072)
    && (forall a {:trigger RootOk(m, t, a)} | 0 <= a < 512 :: RootOk(m, t, a))
    && (forall b {:trigger MidOk(m, t, b)} | 0 <= b < 131072 :: MidOk(m, t, b))
    && (forall a, c | a in t.mid && c in t.mid && t.mid[a] == t.mid[c] :: a == c)
    && (forall b, d | b in t.low && d in t.low && t.low[b] == t.low[d] :: b == d)
    && (forall a, b | a in t.mid && b in t.low :: t.mid[a] != t.low[b])
  }

  ghost predicate IsTable(t: Tree, p: int) {
    p == t.root || (exists a :: a in t.mid && t.mid[a] == p) || (exists b :: b in t.low && t.low[b] == p)
  }

  /** The entry of virtual page v, zero if there is no table for it. */
  function Pte(m: Mem, t: Tree, v: int): (pte: W) {
    if v / 512 in t.low then Word(m, t.low[v / 512], v % 512) else ZERO
  }

  /** Free pages are real, listed once, and no part of the tree. */
  ghost predicate FreeOk(vm: Vm, t: Tree) {
    && (forall p | p in vm.free :: Page(vm.mem, p) && !IsTable(t, p))
    && Distinct(vm.free)
  }

  // ---- memory changes that a tree survives ----

  /** Writing outside the table pages changes nothing. */
  lemma Untouched(m: Mem, n: Mem, t: Tree)
    requires WF(m, t)
    requires forall p | IsTable(t, p) :: p in m && p in n && n[p] == m[p]
    ensures WF(n, t)
    ensures forall v | 0 <= v < MAXVPN :: Pte(n, t, v) == Pte(m, t, v)
  {
    forall a | 0 <= a < 512 ensures RootOk(n, t, a) { assert RootOk(m, t, a); }
    forall b | 0 <= b < 131072 ensures MidOk(n, t, b) {
      assert MidOk(m, t, b);
      if b in t.low { assert RootOk(m, t, b / 512); }
      if b / 512 in t.mid { assert IsTable(t, t.mid[b / 512]); }
    }
    forall v | 0 <= v < MAXVPN ensures Pte(n, t, v) == Pte(m, t, v) {
      if v / 512 in t.low { assert IsTable(t, t.low[v / 512]); }
    }
  }

  /** Writing one level-0 entry changes that entry of the map and no other. */
  lemma SetLeaf(m: Mem, t: Tree, v: int, w: W)
    requires WF(m, t) && 0 <= v < MAXVPN && v / 512 in t.low
    ensures WF(Put(m, t.low[v / 512], v % 512, w), t)
    ensures forall u | 0 <= u < MAXVPN ::
              Pte(Put(m, t.low[v / 512], v % 512, w), t, u) == if u == v then w else Pte(m, t, u)
  {
    var n := Put(m, t.low[v / 512], v % 512, w);
    PutChangesOne(m, t.low[v / 512], v % 512, w);
    assert MidOk(m, t, v / 512);
    forall a | 0 <= a < 512 ensures RootOk(n, t, a) { assert RootOk(m, t, a); }
    forall b | 0 <= b < 131072 ensures MidOk(n, t, b) { assert MidOk(m, t, b); }
  }

  /** Hanging a zeroed page under the root adds an empty level-1 table. */
  lemma AddMid(m: Mem, t: Tree, a: int, g: int)
    requires WF(m, t) && 0 <= a < 256 && a !in t.mid && Page(m, g) && !IsTable(t, g) && m[g] == Filled(ZERO)
    ensures WF(Put(m, t.root, a, MakePte(g, 0)), t.(mid := t.mid[a := g]))
    ensures forall v | 0 <= v < MAXVPN ::
              Pte(Put(m, t.root, a, MakePte(g, 0)), t.(mid := t.mid[a := g]), v) == Pte(m, t, v)
  {
    var n, u := Put(m, t.root, a, MakePte(g, 0)), t.(mid := t.mid[a := g]);
    PutChangesOne(m, t.root, a, MakePte(g, 0));
    forall c | 0 <= c < 512 ensures RootOk(n, u, c) { assert RootOk(m, t, c); }
    forall b | 0 <= b < 131072 ensures MidOk(n, u, b) {
      assert MidOk(m, t, b);
      if b / 512 in t.mid { assert RootOk(m, t, b / 512); }
    }
    forall v | 0 <= v < MAXVPN ensures Pte(n, u, v) == Pte(m, t, v) { assert MidOk(m, t, v / 512); }
  }

  /** Hanging a zeroed page under a level-1 table adds a level-0 table that maps nothing. */
  lemma AddLow(m: Mem, t: Tree, b: int, g: int)
    requires WF(m, t) && 0 <= b < 131072 && b !in t.low && b / 512 in t.mid && Page(m, g) && !IsTable(t, g)
             && m[g] == Filled(ZERO)
    ensures WF(Put(m, t.mid[b / 512], b % 512, MakePte(g, 0)), t.(low := t.low[b := g]))
    ensures forall v | 0 <= v < MAXVPN ::
              Pte(Put(m, t.mid[b / 512], b % 512, MakePte(g, 0)), t.(low := t.low[b := g]), v) == Pte(m, t, v)
  {
    var n, u := Put(m, t.mid[b / 512], b % 512, MakePte(g, 0)), t.(low := t.low[b := g]);
    PutChangesOne(m, t.mid[b / 512], b % 512, MakePte(g, 0));
    assert RootOk(m, t, b / 512);
    forall c | 0 <= c < 512 ensures RootOk(n, u, c) { assert RootOk(m, t, c); }
    forall d | 0 <= d < 131072 ensures MidOk(n, u, d) { assert MidOk(m, t, d); }
  }

  // ---- walk ----

  /** Without allocation, walk finds the level-0 table of v if the tree has one. */
  lemma WalkFinds(vm: Vm, t: Tree, v: int)
    requires WF(vm.mem, t) && 0 <= v < MAXVPN
    ensures Walk(vm, t.root, v, false) == (vm, if v / 512 in t.low then t.low[v / 512] else 0)
  {
    var a, b := v / 262144, v / 512;
    assert b / 512 == a;
    assert RootOk(vm.mem, t, a) && MidOk(vm.mem, t, b);
    assert Px(2, v) == a && Px(1, v) == b % 512;
    var r1 := Walk(vm, t.root, v, false);
    if a in t.mid {
      assert r1 == WalkFrom(vm, t.mid[a], 1, v, false);
      if b in t.low { assert r1 == WalkFrom(vm, t.low[b], 0, v, false); }
    }
  }

  /** t grew into u by table pages taken from the free list, and nothing else changed but those pages
      and the table pages already there. */
  ghost predicate Grown(vm: Vm, t: Tree, vm': Vm, u: Tree) {
    && WF(vm'.mem, u) && FreeOk(vm', u) && u.root == t.root
    && (forall p | p in vm'.free :: p in vm.free)
    && (forall p {:trigger IsTable(u, p)} {:trigger IsTable(t, p)} ::
         IsTable(u, p) <==> IsTable(t, p) || (p in vm.free && p !in vm'.free))
    && (forall v | 0 <= v < MAXVPN :: Pte(vm'.mem, u, v) == Pte(vm.mem, t, v))
    && (forall p | p in vm.mem && !IsTable(u, p) :: p in vm'.mem && vm'.mem[p] == vm.mem[p])
  }

  lemma GrownSelf(vm: Vm, t: Tree)
    requires WF(vm.mem, t) && FreeOk(vm, t)
    ensures Grown(vm, t, vm, t)
  {
  }

  lemma GrownTrans(vm: Vm, t: Tree, vm1: Vm, t1: Tree, vm2: Vm, t2: Tree)
    requires Grown(vm, t, vm1, t1) && Grown(vm1, t1, vm2, t2)
    ensures Grown(vm, t, vm2, t2)
  {
  }

  /** kalloc, zeroing included, of the first free page. */
  lemma TakePage(vm: Vm, t: Tree, vm1: Vm, g: int)
    requires WF(vm.mem, t) && FreeOk(vm, t) && vm.free != [] && g == vm.free[0]
    requires vm1 == Vm(vm.mem[g := Filled(ZERO)], vm.free[1..])
    ensures WF(vm1.mem, t) && FreeOk(vm1, t) && Page(vm1.mem, g) && !IsTable(t, g) && g !in vm1.free
    ensures forall v | 0 <= v < MAXVPN :: Pte(vm1.mem, t, v) == Pte(vm.mem, t, v)
  {
    Head(vm.free);
    forall p | IsTable(t, p)
      ensures p in vm.mem && p in vm1.mem && vm1.mem[p] == vm.mem[p]
    {
      TablesArePages(vm.mem, t, p);
    }
    Untouched(vm.mem, vm1.mem, t);
  }

  /** The first of a list without repetitions, and the rest. */
  lemma Head(s: seq<int>)
    requires s != [] && Distinct(s)
    ensures s[0] in s && s[0] !in s[1..] && Distinct(s[1..])
    ensures forall p :: p in s <==> p == s[0] || p in s[1..]
  {
    assert s == [s[0]] + s[1..];
  }

  lemma TablesArePages(m: Mem, t: Tree, p: int)
    requires WF(m, t) && IsTable(t, p)
    ensures Page(m, p)
  {
    if a :| a in t.mid && t.mid[a] == p { assert RootOk(m, t, a); }
    else if b :| b in t.low && t.low[b] == p { assert MidOk(m, t, b); }
  }

  lemma GrowMid(vm: Vm, t: Tree, a: int, vm1: Vm)
    requires WF(vm.mem, t) && FreeOk(vm, t) && 0 <= a < 256 && a !in t.mid && vm.free != []
    requires vm1 == Vm(Put(vm.mem[vm.free[0] := Filled(ZERO)], t.root, a, MakePte(vm.free[0], 0)), vm.free[1..])
    ensures Grown(vm, t, vm1, t.(mid := t.mid[a := vm.free[0]]))
  {
    var g, u := vm.free[0], t.(mid := t.mid[a := vm.free[0]]);
    var vm0 := Vm(vm.mem[g := Filled(ZERO)], vm.free[1..]);
    TakePage(vm, t, vm0, g);
    AddMid(vm0.mem, t, a, g);
    PutChangesOne(vm0.mem, t.root, a, MakePte(g, 0));
    forall p ensures IsTable(u, p) <==> IsTable(t, p) || p == g {
      if IsTable(t, p) && p != t.root {
        if c :| c in t.mid && t.mid[c] == p { assert u.mid[c] == p; }
      }
      assert u.mid[a] == g;
    }
    Head(vm.free);
  }

  lemma GrowLow(vm: Vm, t: Tree, b: int, vm1: Vm)
    requires WF(vm.mem, t) && FreeOk(vm, t) && 0 <= b < 131072 && b !in t.low && b / 512 in t.mid && vm.free != []
    requires vm1 == Vm(Put(vm.mem[vm.free[0] := Filled(ZERO)], t.mid[b / 512], b % 512, MakePte(vm.free[0], 0)),
               vm.free[1..])
    ensures Grown(vm, t, vm1, t.(low := t.low[b := vm.free[0]]))
  {
    var g, u := vm.free[0], t.(low := t.low[b := vm.free[0]]);
    var vm0 := Vm(vm.mem[g := Filled(ZERO)], vm.free[1..]);
    TakePage(vm, t, vm0, g);
    AddLow(vm0.mem, t, b, g);
    PutChangesOne(vm0.mem, t.mid[b / 512], b % 512, MakePte(g, 0));
    forall p ensures IsTable(u, p) <==> IsTable(t, p) || p == g {
      if IsTable(t, p) {
        if c :| c in t.low && t.low[c] == p { assert u.low[c] == p; }
      }
      assert u.low[b] == g;
    }
    Head(vm.free);
    assert IsTable(t, t.mid[b / 512]);
  }

  /** Memory after the first free page has been zeroed and hung at entry i of table p. */
  function Hung(vm: Vm, p: int, i: int): (r: Vm)
    requires vm.free != []
  {
    Vm(Put(vm.mem[vm.free[0] := Filled(ZERO)], p, i, MakePte(vm.free[0], 0)), vm.free[1..])
  }

  /** The first step of walk, from the root. */
  lemma WalkTop(vm: Vm, t: Tree, v: int)
    requires WF(vm.mem, t) && FreeOk(vm, t) && 0 <= v < MAXVPN
    ensures v / 262144 in t.mid ==> Walk(vm, t.root, v, true) == WalkFrom(vm, t.mid[v / 262144], 1, v, true)
    ensures v / 262144 !in t.mid && vm.free == [] ==> Walk(vm, t.root, v, true) == (vm, 0)
    ensures v / 262144 !in t.mid && vm.free != [] ==>
              Walk(vm, t.root, v, true) == WalkFrom(Hung(vm, t.root, v / 262144), vm.free[0], 1, v, true)
  {
    assert RootOk(vm.mem, t, v / 262144) && Px(2, v) == v / 262144;
    if vm.free != [] {
      assert vm.free[0] in vm.free;
      assert vm.mem[vm.free[0] := Filled(FIVES)][vm.free[0] := Filled(ZERO)] == vm.mem[vm.free[0] := Filled(ZERO)];
    }
  }

  /** The second step of walk, from the level-1 table. */
  lemma WalkLow(vm: Vm, t: Tree, v: int)
    requires WF(vm.mem, t) && FreeOk(vm, t) && 0 <= v < MAXVPN && v / 262144 in t.mid
    ensures v / 512 in t.low ==>
              WalkFrom(vm, t.mid[v / 262144], 1, v, true) == (vm, t.low[v / 512]) && t.low[v / 512] != 0
    ensures v / 512 !in t.low && vm.free == [] ==> WalkFrom(vm, t.mid[v / 262144], 1, v, true) == (vm, 0)
    ensures v / 512 !in t.low && vm.free != [] ==>
              WalkFrom(vm, t.mid[v / 262144], 1, v, true) == (Hung(vm, t.mid[v / 262144], v / 512 % 512), vm.free[0])
              && vm.free[0] != 0
  {
    assert v / 512 / 512 == v / 262144;
    assert MidOk(vm.mem, t, v / 512);
    if vm.free != [] {
      assert vm.free[0] in vm.free;
      assert vm.mem[vm.free[0] := Filled(FIVES)][vm.free[0] := Filled(ZERO)] == vm.mem[vm.free[0] := Filled(ZERO)];
    }
  }

  ghost predicate WalkSpec(vm: Vm, t: Tree, v: int, r: (Vm, int), u: Tree) {
    && Grown(vm, t, r.0, u) && |vm.free| - |r.0.free| <= 2
    && (if r.1 == 0 then r.0.free == [] else v / 512 in u.low && u.low[v / 512] == r.1)
  }

  lemma WalkGrowsLow(vm: Vm, t: Tree, v: int) returns (u: Tree)
    requires WF(vm.mem, t) && FreeOk(vm, t) && 0 <= v < MAXVPN && v / 262144 in t.mid
    ensures WalkSpec(vm, t, v, WalkFrom(vm, t.mid[v / 262144], 1, v, true), u)
    ensures |vm.free| - |WalkFrom(vm, t.mid[v / 262144], 1, v, true).0.free| <= 1
  {
    WalkLow(vm, t, v);
    u := t;
    if v / 512 !in t.low && vm.free != [] {
      assert v / 512 / 512 == v / 262144;
      u := t.(low := t.low[v / 512 := vm.free[0]]);
      GrowLow(vm, t, v / 512, Hung(vm, t.mid[v / 262144], v / 512 % 512));
    } else {
      GrownSelf(vm, t);
    }
  }

  /** walk in full: with allocation it grows the tree by at most the two tables on the way to v and leaves the map
      alone; it fails only when the free list runs out, keeping the tables it made. */
  lemma WalkGrows(vm: Vm, t: Tree, v: int) returns (u: Tree)
    requires WF(vm.mem, t) && FreeOk(vm, t) && 0 <= v < MAXVPN
    ensures WalkSpec(vm, t, v, Walk(vm, t.root, v, true), u)
  {
    WalkTop(vm, t, v);
    var a := v / 262144;
    if a in t.mid {
      u := WalkGrowsLow(vm, t, v);
    } else if vm.free == [] {
      GrownSelf(vm, t);
      u := t;
    } else {
      var vm1, t1 := Hung(vm, t.root, a), t.(mid := t.mid[a := vm.free[0]]);
      GrowMid(vm, t, a, vm1);
      u := WalkGrowsLow(vm1, t1, v);
      GrownTrans(vm, t, vm1, t1, Walk(vm, t.root, v, true).0, u);
    }
  }
}
