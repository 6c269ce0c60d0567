/** The memory routines as the kernel runs them, updating physical memory in place, each proved to compute the
    function whose meaning the page table modules establish. */
module KernelMemory {
  import opened Basics
  import opened PageTable
  import opened UserMemory
  import opened FreeWalk

  class Ram {
    var mem: Mem
    var free: seq<int>

    constructor (mem: Mem, free: seq<int>)
      ensures this.mem == mem && this.free == free
    {
      this.mem, this.free := mem, free;
    }

    ghost function State(): (vm: Vm)
      reads this
    {
      Vm(mem, free)
    }

    /** A page that was free and is so no more, or 0 if there is none; every other page keeps its contents. */
    method AllocPage() returns (g: int)
      modifies this
      ensures (State(), g) == Kalloc(old(State()))
      ensures old(free) == [] ==> g == 0 && unchanged(this)
      ensures old(free) != [] ==> g in old(free) && |free| == |old(free)| - 1
      ensures old(free) != [] && Distinct(old(free)) ==>
                Distinct(free) && forall p :: p in free <==> p in old(free) && p != g
      ensures forall p | p in old(mem) && (old(free) == [] || p != g) :: p in mem && mem[p] == old(mem)[p]
    {
      if free == [] {
        return 0;
      }
      g := free[0];
      free := free[1..];
      mem := mem[g := Filled(FIVES)];
    }

    /** The page is free, and the next to be handed out; every other page keeps its contents. */
    method FreePage(p: int)
      modifies this
      ensures State() == Kfree(old(State()), p)
      ensures free != [] && free[0] == p && forall q :: q in free <==> q in old(free) || q == p
      ensures Distinct(old(free)) && p !in old(free) ==> Distinct(free)
      ensures forall q | q in old(mem) && q != p :: q in mem && mem[q] == old(mem)[q]
    {
      mem := mem[p := Filled(ONES)];
      free := [p] + free;
    }

    /** walk: down two levels, making missing tables if asked to. */
    method WalkTo(root: int, v: int, alloc: bool) returns (g: int)
      modifies this
      ensures (State(), g) == Walk(old(State()), root, v, alloc)
    {
      var table := root;
      var level := 2;
      while level > 0
        invariant 0 <= level <= 2
        invariant WalkFrom(State(), table, level, v, alloc) == Walk(old(State()), root, v, alloc)
      {
        var pte := Word(mem, table, Px(level, v));
        if Valid(pte) {
          table := Ppn(pte);
        } else {
          if !alloc {
            return 0;
          }
          var page := AllocPage();
          if page == 0 {
            return 0;
          }
          mem := Put(mem[page := Filled(ZERO)], table, Px(level, v), MakePte(page, 0));
          table := page;
        }
        level := level - 1;
      }
      g := table;
    }

    /** The body of mappages' loop. */
    method MapOne(root: int, v: int, ppn: int, perm: int) returns (o: MapOutcome)
      modifies this
      ensures IsMappages(old(State()), root, v, v + 1, ppn, perm, (State(), o))
    {
      var table := WalkTo(root, v, true);
      MapNext(old(State()), root, v, v + 1, ppn, perm, (State(), table));
      if table == 0 {
        return NoMemory;
      }
      if Valid(Word(mem, table, Px(0, v))) {
        return Remap;
      }
      mem := Put(mem, table, Px(0, v), MakePte(ppn, perm));
      o := Mapped;
      MapNext(State(), root, v + 1, v + 1, ppn + 1, perm, (State(), 0));
    }

    /** One round of mappages, on the way to what the whole call computes. */
    method MapRound(root: int, v: int, hi: int, ppn: int, perm: int, ghost target: (Vm, MapOutcome))
        returns (o: MapOutcome)
      requires v < hi && IsMappages(State(), root, v, hi, ppn, perm, target)
      modifies this
      ensures o == Mapped ==> IsMappages(State(), root, v + 1, hi, ppn + 1, perm, target)
      ensures o != Mapped ==> target == (State(), o)
    {
      ghost var before := State();
      o := MapOne(root, v, ppn, perm);
      MappagesSplit(before, root, v, hi, ppn, perm, target, State(), o);
    }

    method MapPages(root: int, v: int, hi: int, ppn: int, perm: int) returns (o: MapOutcome)
      modifies this
      ensures (State(), o) == Mappages(old(State()), root, v, hi, ppn, perm)
    {
      ghost var target := Mappages(State(), root, v, hi, ppn, perm);
      var a, pa := v, ppn;
      while a < hi
        invariant IsMappages(State(), root, a, hi, pa, perm, target)
        decreases hi - a
      {
        o := MapRound(root, a, hi, pa, perm, target);
        if o != Mapped {
          return;
        }
        a, pa := a + 1, pa + 1;
      }
      MapNext(State(), root, a, hi, pa, perm, (State(), 0));
      o := Mapped;
    }

    /** The body of uvmunmap's loop. */
    method UnmapOnePage(root: int, v: int, doFree: bool) returns (ok: bool)
      modifies this
      ensures (State(), ok) == Unmap(old(State()), root, v, v + 1, doFree)
    {
      var table := WalkTo(root, v, false);
      WalkReads(old(State()), root, 2, v);
      var pte := Word(mem, table, Px(0, v));
      if table == 0 || !Valid(pte) || Flags(pte) == 1 {
        return false;
      }
      if doFree {
        FreePage(Ppn(pte));
      }
      mem := Put(mem, table, Px(0, v), ZERO);
      ok := true;
      assert UnmapLoop(State(), root, v + 1, v + 1, doFree) == (State(), true);
      assert UnmapLoop(old(State()), root, v, v + 1, doFree) == UnmapLoop(State(), root, v + 1, v + 1, doFree);
    }

    method UnmapPages(root: int, lo: int, hi: int, doFree: bool) returns (ok: bool)
      modifies this
      ensures (State(), ok) == Unmap(old(State()), root, lo, hi, doFree)
    {
      ghost var target := Unmap(State(), root, lo, hi, doFree);
      var v := lo;
      while v < hi
        invariant IsUnmap(State(), root, v, hi, doFree, target)
        decreases hi - v
      {
        UnmapSplit(State(), root, v, hi, doFree, target);
        ok := UnmapOnePage(root, v, doFree);
        if !ok {
          return;
        }
        v := v + 1;
      }
      ok := true;
    }

    /** uvmalloc's loop, with its roll-back. */
    method GrowPages(root: int, lo: int, end: int) returns (ok: bool)
      modifies this
      ensures (State(), ok) == AllocLoop(old(State()), root, lo, lo, end)
    {
      var v := lo;
      while v < end
        invariant lo <= v && AllocLoop(State(), root, lo, v, end) == AllocLoop(old(State()), root, lo, lo, end)
        decreases end - v
      {
        ghost var before := State();
        var page := AllocPage();
        if page == 0 {
          if lo < v { var undone := UnmapPages(root, lo, v, true); }
          return false;
        }
        mem := mem[page := Filled(ZERO)];
        var o := MapPages(root, v, v + 1, page, PTE_WXRU);
        if o != Mapped {
          FreePage(page);
          if lo < v { var undone := UnmapPages(root, lo, v, true); }
          return false;
        }
        assert AllocLoop(before, root, lo, v, end) == AllocLoop(State(), root, lo, v + 1, end);
        v := v + 1;
      }
      ok := true;
    }

    /** uvmcopy's loop, with its roll-back. */
    method CopyPages(par: int, kid: int, end: int) returns (o: CopyOutcome)
      modifies this
      ensures (State(), o) == CopyLoop(old(State()), par, kid, 0, end)
    {
      var v := 0;
      while v < end
        invariant CopyLoop(State(), par, kid, v, end) == CopyLoop(old(State()), par, kid, 0, end)
        decreases end - v
      {
        ghost var before := State();
        var table := WalkTo(par, v, false);
        WalkReads(before, par, 2, v);
        var pte := Word(mem, table, Px(0, v));
        if table == 0 || !Valid(pte) {
          return CopyPanic;
        }
        var page := AllocPage();
        if page == 0 {
          var undone := UnmapPages(kid, 0, v, true);
          return CopyFailed;
        }
        mem := mem[page := PageOf(mem, Ppn(pte))];
        var m := MapPages(kid, v, v + 1, page, Flags(pte));
        if m != Mapped {
          FreePage(page);
          var undone := UnmapPages(kid, 0, v, true);
          return CopyFailed;
        }
        v := v + 1;
      }
      o := Copied;
    }

    /** freewalk, recursive over the levels as in the kernel. */
    method FreeTables(table: int, depth: nat) returns (ok: bool)
      modifies this
      ensures (State(), ok) == Freewalk(old(State()), table, depth, 0)
      decreases depth
    {
      var i := 0;
      while i < 512
        invariant 0 <= i <= 512
        invariant Freewalk(State(), table, depth, i) == Freewalk(old(State()), table, depth, 0)
      {
        var pte := Word(mem, table, i);
        if Valid(pte) {
          if HasRWX(pte) || depth == 0 {
            return false;
          }
          var freed := FreeTables(Ppn(pte), depth - 1);
          if !freed {
            return false;
          }
          mem := Put(mem, table, i, ZERO);
        }
        i := i + 1;
      }
      FreePage(table);
      ok := true;
    }
  }

  /** mappages is its first page, then the rest. */
  lemma MappagesSplit(vm: Vm, root: int, v: int, hi: int, ppn: int, perm: int, r: (Vm, MapOutcome), vm': Vm,
                      o: MapOutcome)
    requires v < hi && IsMappages(vm, root, v, hi, ppn, perm, r) && IsMappages(vm, root, v, v + 1, ppn, perm, (vm', o))
    ensures o == Mapped ==> IsMappages(vm', root, v + 1, hi, ppn + 1, perm, r)
    ensures o != Mapped ==> r == (vm', o)
  {
    var w := Walk(vm, root, v, true);
    MapNext(vm, root, v, hi, ppn, perm, w);
    MapNext(vm, root, v, v + 1, ppn, perm, w);
    var vm2 := w.0.(mem := Put(w.0.mem, w.1, Px(0, v), MakePte(ppn, perm)));
    MapNext(vm2, root, v + 1, v + 1, ppn + 1, perm, (vm2, 0));
  }

  predicate IsUnmap(vm: Vm, root: int, v: int, hi: int, doFree: bool, r: (Vm, bool)) {
    r == Unmap(vm, root, v, hi, doFree)
  }

  /** uvmunmap is its first page, then the rest. */
  lemma UnmapSplit(vm: Vm, root: int, v: int, hi: int, doFree: bool, r: (Vm, bool))
    requires v < hi && IsUnmap(vm, root, v, hi, doFree, r)
    ensures var first := Unmap(vm, root, v, v + 1, doFree);
            if first.1 then IsUnmap(first.0, root, v + 1, hi, doFree, r) else r == first
  {
    var g := Walk(vm, root, v, false).1;
    var pte := Word(vm.mem, g, Px(0, v));
    if g != 0 && Valid(pte) && Flags(pte) != 1 {
      var vm1 := if doFree then Kfree(vm, Ppn(pte)) else vm;
      var vm2 := vm1.(mem := Put(vm1.mem, g, Px(0, v), ZERO));
      assert UnmapLoop(vm, root, v, v + 1, doFree) == UnmapLoop(vm2, root, v + 1, v + 1, doFree) == (vm2, true);
      assert UnmapLoop(vm, root, v, hi, doFree) == UnmapLoop(vm2, root, v + 1, hi, doFree);
    }
  }

  /** walk without allocation only reads. */
  lemma {:induction false} WalkReads(vm: Vm, table: int, level: nat, v: int)
    ensures WalkFrom(vm, table, level, v, false).0 == vm
    decreases level
  {
    if level > 0 {
      var pte := Word(vm.mem, table, Px(level, v));
      if Valid(pte) { WalkReads(vm, Ppn(pte), level - 1, v); }
    }
  }
}
