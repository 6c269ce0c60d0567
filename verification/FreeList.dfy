/** The kernel's page allocator: a list of free pages, each of which holds the address of the next.

    Addresses count bytes. `all` is every page that was ever given to the allocator, `out` those of them in use.
 */
module FreeList {

  import opened Basics

  function After(list: seq<int>, i: int): (p: int)
    requires -1 <= i < |list|
  {
    if i + 1 < |list| then list[i + 1] else 0
  }

  predicate LinkAt(next: map<int, int>, list: seq<int>, i: int)
    requires 0 <= i < |list|
  {
    list[i] in next && next[list[i]] == After(list, i)
  }

  /** The pages from `first` on, along the links, are those of `list`, no page twice. */
  ghost predicate Linked(first: int, next: map<int, int>, list: seq<int>) {
    && first == After(list, -1) && 0 !in list
    && (forall i {:trigger LinkAt(next, list, i)} | 0 <= i < |list| :: LinkAt(next, list, i))
    && Distinct(list)
  }

  lemma Push(first: int, next: map<int, int>, list: seq<int>, p: int)
    requires Linked(first, next, list) && p != 0 && p !in list
    ensures Linked(p, next[p := first], [p] + list)
  {
    var l, next' := [p] + list, next[p := first];
    forall i | 0 <= i < |l| ensures LinkAt(next', l, i) {
      if i > 0 { assert LinkAt(next, list, i - 1); }
    }
  }

  lemma Pop(first: int, next: map<int, int>, list: seq<int>)
    requires Linked(first, next, list) && list != []
    ensures first == list[0] && first in next && first !in list[1..] && Linked(next[first], next, list[1..])
  {
    assert LinkAt(next, list, 0);
    var l := list[1..];
    forall i | 0 <= i < |l| ensures LinkAt(next, l, i) { assert LinkAt(next, list, i + 1); }
  }

  lemma SamePage(p: int, q: int)
    requires p % PGSIZE == 0 && q % PGSIZE == 0 && p < q + PGSIZE <= p + PGSIZE
    ensures q == p
  {
  }

  lemma LastPage(p: int, q: int, stop: int)
    requires p % PGSIZE == 0 && q % PGSIZE == 0 && q + PGSIZE <= stop < p + PGSIZE
    ensures q + PGSIZE <= p
  {
  }

  class Kmem {
    const end: nat      // first address after the kernel
    const phystop: nat
    var freelist: int
    var next: map<int, int>   // the word at the start of each free page
    var junk: map<int, int>   // what a page was last filled with
    ghost var list: seq<int>
    ghost var all: set<int>
    ghost var out: set<int>

    /** kfree takes this address. */
    predicate InRam(pa: int) {
      pa % PGSIZE == 0 && end <= pa < phystop
    }

    ghost predicate Valid()
      reads this
    {
      && 0 < end && Linked(freelist, next, list)
      && (forall p | p in all :: InRam(p)) && out <= all
      && (forall p :: p in list <==> p in all && p !in out)
    }

    /** kinit: exactly the whole pages between the kernel and the end of memory are free. */
    constructor (end: nat, phystop: nat)
      requires 0 < end && phystop % PGSIZE == 0
      ensures Valid() && this.end == end && this.phystop == phystop && out == {}
      ensures forall p :: p in list <==> p % PGSIZE == 0 && end <= p < phystop
    {
      this.end, this.phystop := end, phystop;
      freelist, next, junk := 0, map[], map[];
      list, all, out := [], {}, {};
      new;
      var panic := Freerange(end, phystop);
    }

    /** freerange: frees every whole page of a range. */
    method Freerange(start: nat, stop: nat) returns (panic: bool)
      requires Valid() && end <= start && stop <= phystop && forall p | p in all :: p < start
      modifies `freelist, `next, `junk, `list, `all, `out
      ensures !panic && Valid() && out == old(out)
      ensures forall p :: p in all <==> p in old(all) || (p % PGSIZE == 0 && start <= p && p + PGSIZE <= stop)
    {
      panic := false;
      var p := PgRoundUp(start);
      while p + PGSIZE <= stop
        invariant Valid() && out == old(out) && start <= p && p % PGSIZE == 0 && (p <= stop || p == PgRoundUp(start))
        invariant forall q :: q in all <==> q in old(all) || (q % PGSIZE == 0 && start <= q && q + PGSIZE <= p)
        invariant !panic
        decreases stop - p
      {
        var ok := Kfree(p);
        panic := panic || !ok;
        forall q | q % PGSIZE == 0 && p < q + PGSIZE <= p + PGSIZE ensures q == p { SamePage(p, q); }
        p := p + PGSIZE;
      }
      forall q | q % PGSIZE == 0 && start <= q && q + PGSIZE <= stop ensures q + PGSIZE <= p { LastPage(p, q, stop); }
    }

    /** kfree: the page is the next to be handed out; false where the kernel panics, exactly for an address that is not
        a page of memory. Nothing stops a page that is free already: the list then runs in a circle, and no longer is
        one, exactly if the page was on it. */
    method Kfree(pa: int) returns (ok: bool)
      requires Valid()
      modifies `freelist, `next, `junk, `list, `all, `out
      ensures ok <==> InRam(pa)
      ensures !ok ==> unchanged(this)
      ensures ok ==> (Valid() <==> pa !in old(list))
      ensures ok ==> freelist == pa && next == old(next)[pa := old(freelist)]
      ensures ok ==> list == [pa] + old(list) && all == old(all) + {pa} && out == old(out) - {pa}
      ensures ok ==> junk == old(junk)[pa := 1]
    {
      if !(pa % PGSIZE == 0) || pa < end || pa >= phystop {
        return false;
      }
      junk := junk[pa := 1];
      if pa in list {
        var i :| 0 <= i < |list| && list[i] == pa;
        assert ([pa] + list)[0] == ([pa] + list)[i + 1];
      } else {
        Push(freelist, next, list, pa);
      }
      next := next[pa := freelist];
      freelist := pa;
      list, all, out := [pa] + list, all + {pa}, out - {pa};
      ok := true;
    }

    /** kalloc: a page that was free and nobody else has, or 0 exactly if no page is free. */
    method Kalloc() returns (r: int)
      requires Valid()
      modifies `freelist, `junk, `list, `out
      ensures Valid() && all == old(all)
      ensures r == 0 <==> old(list) == []
      ensures r == 0 ==> unchanged(this)
      ensures r != 0 ==> r in all && r !in old(out) && out == old(out) + {r} && old(list) == [r] + list
      ensures r != 0 ==> junk == old(junk)[r := 5]
    {
      r := freelist;
      if r != 0 {
        assert list != [];
        Pop(freelist, next, list);
        freelist := next[r];
        assert list == [r] + list[1..];
        list, out := list[1..], out + {r};
        junk := junk[r := 5];
      }
    }
  }

  /** No page is lost: a page taken and given back leaves the allocator with the list it had. */
  method RoundTrip(k: Kmem)
    requires k.Valid()
    modifies k
    ensures k.Valid() && k.list == old(k.list) && k.all == old(k.all) && k.out == old(k.out)
  {
    var r := k.Kalloc();
    if r != 0 {
      var ok := k.Kfree(r);
      assert k.out == old(k.out) && k.all == old(k.all);
    }
  }
}
