/** The Kernighan and Ritchie allocator: a circular free list, in address order, of blocks that are never adjacent.

    Addresses count header-sized units. A block at a is the units a .. a + size[a], the first of which is its header
    (ptr, size); the caller of malloc gets a + 1. `base` is the zero-sized block the list starts and ends at.
 */
module Heap {
  import opened Basics

  const NULL: int := 0

  type Words = map<int, int>

  // ---- the free list as a sequence ----

  /** ring is the free list from base on: linked in order by ptr, back to base, strictly apart. */
  ghost predicate Ring(base: int, ring: seq<int>, ptr: Words, size: Words) {
    && |ring| >= 1 && ring[0] == base && base > NULL
    && (forall i | 0 <= i < |ring| :: ring[i] in ptr && ring[i] in size)
    && (forall i {:trigger Succ(base, ring, i)} | 0 <= i < |ring| :: ptr[ring[i]] == Succ(base, ring, i))
    && (forall i | 0 <= i < |ring| :: if i == 0 then size[ring[i]] == 0 else size[ring[i]] >= 1)
    && (forall i, j | 0 <= i < j < |ring| :: ring[i] + size[ring[i]] < ring[j])
  }

  function Succ(base: int, ring: seq<int>, i: int): (a: int)
    requires 0 <= i < |ring|
  {
    if i + 1 < |ring| then ring[i + 1] else base
  }

  predicate Apart(a: int, s: int, c: int, t: int) {
    a + s <= c || c + t <= a
  }

  /** Allocated blocks keep their size in their header and overlap neither free blocks nor each other. */
  ghost predicate LiveOk(base: int, ring: seq<int>, size: Words, live: Words)
    requires forall i | 0 <= i < |ring| :: ring[i] in size
  {
    && (forall a | a in live :: a > base && live[a] >= 1 && a in size && size[a] == live[a])
    && (forall a, i | a in live && 0 <= i < |ring| :: Apart(a, live[a], ring[i], size[ring[i]]))
    && (forall a, c | a in live && c in live && a != c :: Apart(a, live[a], c, live[c]))
  }

  /** Unit x lies in a free block. */
  ghost predicate InFree(ring: seq<int>, size: Words, x: int)
    requires forall i | 0 <= i < |ring| :: ring[i] in size
  {
    exists i | 0 <= i < |ring| :: ring[i] <= x < ring[i] + size[ring[i]]
  }

  /** Unit x lies in an allocated block. */
  ghost predicate InLive(live: Words, x: int) {
    exists a | a in live :: a <= x < a + live[a]
  }

  /** ring with ring[i..j] replaced by x. */
  function Spliced(ring: seq<int>, i: int, j: int, x: int): (r: seq<int>)
    requires 0 <= i <= j <= |ring|
    ensures |r| == |ring| - (j - i) + 1
    ensures forall s {:trigger r[s]} | 0 <= s < |r| ::
              r[s] == if s < i then ring[s] else if s == i then x else ring[s - i - 1 + j]
  {
    ring[..i] + [x] + ring[j..]
  }

  /** The links and sizes that a list with ring[i..j] replaced by block x needs. */
  ghost predicate Relinked(base: int, ring: seq<int>, ptr: Words, size: Words, i: int, j: int, x: int, ptr': Words,
                           size': Words) {
    && Ring(base, ring, ptr, size) && 1 <= i <= j <= |ring|
    && x in ptr' && x in size' && size'[x] >= 1
    && ring[i - 1] + size[ring[i - 1]] < x && (j < |ring| ==> x + size'[x] < ring[j])
    && (forall t | 0 <= t < i || j <= t < |ring| ::
         ring[t] in ptr' && ring[t] in size' && size'[ring[t]] == size[ring[t]])
    && (forall t | 0 <= t < i - 1 || j <= t < |ring| :: ptr'[ring[t]] == ptr[ring[t]])
    && ptr'[ring[i - 1]] == x && ptr'[x] == if j < |ring| then ring[j] else base
  }

  lemma SplicePtr(base: int, ring: seq<int>, ptr: Words, size: Words, i: int, j: int, x: int, ptr': Words,
                  size': Words, s: int)
    requires Relinked(base, ring, ptr, size, i, j, x, ptr', size') && 0 <= s < |Spliced(ring, i, j, x)|
    ensures var r := Spliced(ring, i, j, x);
            && r[s] in ptr' && r[s] in size' && ptr'[r[s]] == Succ(base, r, s)
            && (if s == 0 then size'[r[s]] == 0 else size'[r[s]] >= 1)
  {
    var r := Spliced(ring, i, j, x);
    assert s + 1 < |r| ==> r[s + 1] == if s + 1 < i then ring[s + 1] else if s + 1 == i then x else ring[s - i + j];
    if s < i - 1 { assert ptr[ring[s]] == Succ(base, ring, s); }
    if s > i { assert ptr[ring[s - i - 1 + j]] == Succ(base, ring, s - i - 1 + j); }
  }

  lemma SpliceOrder(base: int, ring: seq<int>, ptr: Words, size: Words, i: int, j: int, x: int, ptr': Words,
                    size': Words, s: int, t: int)
    requires Relinked(base, ring, ptr, size, i, j, x, ptr', size') && 0 <= s < t < |Spliced(ring, i, j, x)|
    requires var r := Spliced(ring, i, j, x); r[s] in size'
    ensures var r := Spliced(ring, i, j, x); r[s] + size'[r[s]] < r[t]
  {
    var r := Spliced(ring, i, j, x);
    var a := if s < i then s else s - i - 1 + j;
    var c := if t < i then t else t - i - 1 + j;
    if s != i && t != i {
      assert ring[a] + size[ring[a]] < ring[c];
    } else if s == i {
      assert c == j || ring[j] + size[ring[j]] < ring[c];
    } else {
      assert s == i - 1 || ring[s] + size[ring[s]] < ring[i - 1];
    }
  }

  /** Replacing ring[i..j] by one block x keeps the list in shape. */
  lemma Splice(base: int, ring: seq<int>, ptr: Words, size: Words, i: int, j: int, x: int, ptr': Words, size': Words)
    requires Relinked(base, ring, ptr, size, i, j, x, ptr', size')
    ensures Ring(base, Spliced(ring, i, j, x), ptr', size')
  {
    var r := Spliced(ring, i, j, x);
    forall s | 0 <= s < |r|
      ensures r[s] in ptr' && r[s] in size' && ptr'[r[s]] == Succ(base, r, s)
              && (if s == 0 then size'[r[s]] == 0 else size'[r[s]] >= 1)
    {
      SplicePtr(base, ring, ptr, size, i, j, x, ptr', size', s);
    }
    forall s, t | 0 <= s < t < |r| ensures r[s] + size'[r[s]] < r[t] {
      SpliceOrder(base, ring, ptr, size, i, j, x, ptr', size', s, t);
    }
  }

  ghost predicate Ok(base: int, ring: seq<int>, ptr: Words, size: Words, live: Words) {
    Ring(base, ring, ptr, size) && LiveOk(base, ring, size, live)
  }

  // ---- free: putting block bp back between ring[k] and its successor ----

  /** The part of the list that the freed block, merged with the neighbours it touches, replaces; and its address. */
  datatype Hole = Hole(i: int, j: int, x: int)

  function FreedHole(ring: seq<int>, size: Words, k: int, bp: int, nx: int): (h: Hole)
    requires 0 <= k < |ring| && bp in size && ring[k] in size
  {
    var down := ring[k] + size[ring[k]] == bp;
    Hole(if down then k else k + 1, if bp + size[bp] == nx then k + 2 else k + 1, if down then ring[k] else bp)
  }

  /** bp belongs after ring[k]. */
  ghost predicate SlotFor(ring: seq<int>, k: int, bp: int) {
    0 <= k < |ring| && ring[k] < bp && (k + 1 < |ring| ==> bp < ring[k + 1])
  }

  /** What lies around an allocated block: the free blocks on either side of it end before it and start after it. */
  ghost predicate FitsAt(base: int, ring: seq<int>, size: Words, k: int, bp: int)
    requires forall i | 0 <= i < |ring| :: ring[i] in size
  {
    && SlotFor(ring, k, bp) && bp in size && size[bp] >= 1 && base < bp
    && ring[k] + size[ring[k]] <= bp && (k + 1 < |ring| ==> bp + size[bp] <= ring[k + 1])
  }

  lemma LiveFits(base: int, ring: seq<int>, ptr: Words, size: Words, live: Words, k: int, bp: int)
    requires Ok(base, ring, ptr, size, live) && SlotFor(ring, k, bp) && bp in live
    ensures FitsAt(base, ring, size, k, bp)
  {
    assert Apart(bp, live[bp], ring[k], size[ring[k]]);
    if k + 1 < |ring| { assert Apart(bp, live[bp], ring[k + 1], size[ring[k + 1]]); }
  }

  lemma FitsBetween(base: int, ring: seq<int>, ptr: Words, size: Words, k: int, bp: int, t: int)
    requires Ring(base, ring, ptr, size) && FitsAt(base, ring, size, k, bp) && 0 <= t < |ring|
    ensures ring[t] != bp && (t != k ==> ring[t] != ring[k])
            && (t != k + 1 && k + 1 < |ring| ==> ring[t] != ring[k + 1])
  {
    if t < k { assert ring[t] + size[ring[t]] < ring[k]; }
    if t > k + 1 { assert ring[k + 1] + size[ring[k + 1]] < ring[t]; }
  }

  /** What free writes, once it has found the neighbours p and nx of bp: the headers of bp and p, and no other. */
  ghost predicate Freed(ptr: Words, size: Words, bp: int, p: int, nx: int, ptr': Words, size': Words)
    requires bp in size && p in size && nx in size && nx in ptr
  {
    var down, up := p + size[p] == bp, bp + size[bp] == nx;
    var total := size[bp] + if up then size[nx] else 0;
    && bp in ptr' && p in ptr' && bp in size' && p in size'
    && (forall a | a in ptr && a != bp && a != p :: a in ptr' && ptr'[a] == ptr[a])
    && (forall a | a in size && a != bp && a != p :: a in size' && size'[a] == size[a])
    && ptr'[p] == (if !down then bp else if up then ptr[nx] else nx)
    && size'[p] == (if down then size[p] + total else size[p])
    && (!down ==> ptr'[bp] == (if up then ptr[nx] else nx) && size'[bp] == total)
  }

  lemma FreeRelinks(base: int, ring: seq<int>, ptr: Words, size: Words, k: int, bp: int, h: Hole, ptr': Words,
                    size': Words)
    requires Ring(base, ring, ptr, size) && FitsAt(base, ring, size, k, bp)
    requires h == FreedHole(ring, size, k, bp, Succ(base, ring, k))
    requires Freed(ptr, size, bp, ring[k], Succ(base, ring, k), ptr', size')
    ensures Relinked(base, ring, ptr, size, h.i, h.j, h.x, ptr', size')
    ensures h.x + size'[h.x] == if h.j == k + 2 then ring[k + 1] + size[ring[k + 1]] else bp + size[bp]
  {
    forall t | 0 <= t < |ring|
      ensures ring[t] != bp && (t != k ==> ring[t] != ring[k])
              && (t != k + 1 && k + 1 < |ring| ==> ring[t] != ring[k + 1])
    {
      FitsBetween(base, ring, ptr, size, k, bp, t);
    }
    if h.j == k + 2 { assert ptr[ring[k + 1]] == Succ(base, ring, k + 1); }
    if h.i == k {
      assert ring[k - 1] + size[ring[k - 1]] < ring[k]; assert ptr[ring[k - 1]] == Succ(base, ring, k - 1);
    }
  }

  /** Block bp has been merged into the list after ring[k]; r is the list that results. */
  ghost predicate Merged(base: int, ring: seq<int>, ptr: Words, size: Words, k: int, bp: int, h: Hole, r: seq<int>,
                         ptr': Words, size': Words) {
    && Relinked(base, ring, ptr, size, h.i, h.j, h.x, ptr', size') && r == Spliced(ring, h.i, h.j, h.x)
    && FitsAt(base, ring, size, k, bp) && h == FreedHole(ring, size, k, bp, Succ(base, ring, k)) && h.j <= |ring|
    && h.x + size'[h.x] == (if h.j == k + 2 then ring[k + 1] + size[ring[k + 1]] else bp + size[bp])
    && (forall s | 0 <= s < |r| :: r[s] in size')
  }

  lemma UnitStays(base: int, ring: seq<int>, ptr: Words, size: Words, k: int, bp: int, h: Hole, r: seq<int>,
                  ptr': Words, size': Words, t: int, x: int)
    requires Merged(base, ring, ptr, size, k, bp, h, r, ptr', size') && 0 <= t < |ring|
             && ring[t] <= x < ring[t] + size[ring[t]]
    ensures InFree(r, size', x)
  {
    var s := if t < h.i then t else if t < h.j then h.i else t + h.i + 1 - h.j;
    if t < h.i || t >= h.j {
      assert r[s] == ring[t] && size'[ring[t]] == size[ring[t]];
    } else {
      assert r[s] == h.x && (t == k || t == k + 1);
    }
  }

  lemma UnitCame(base: int, ring: seq<int>, ptr: Words, size: Words, k: int, bp: int, h: Hole, r: seq<int>,
                 ptr': Words, size': Words, s: int, x: int)
    requires Merged(base, ring, ptr, size, k, bp, h, r, ptr', size') && 0 <= s < |r| && r[s] <= x < r[s] + size'[r[s]]
    ensures InFree(ring, size, x) || bp <= x < bp + size[bp]
  {
    var t := if s < h.i then s else if s == h.i then (if x < bp then k else k + 1) else s - h.i - 1 + h.j;
    if s != h.i || !(bp <= x < bp + size[bp]) { assert ring[t] <= x < ring[t] + size[ring[t]]; }
  }

  /** The units of bp, and those alone, become free. */
  lemma FreedUnits(base: int, ring: seq<int>, ptr: Words, size: Words, k: int, bp: int, h: Hole, r: seq<int>,
                   ptr': Words, size': Words, x: int)
    requires Merged(base, ring, ptr, size, k, bp, h, r, ptr', size')
    ensures InFree(r, size', x) <==> InFree(ring, size, x) || bp <= x < bp + size[bp]
  {
    if InFree(r, size', x) {
      var s :| 0 <= s < |r| && r[s] <= x < r[s] + size'[r[s]];
      UnitCame(base, ring, ptr, size, k, bp, h, r, ptr', size', s, x);
    }
    if InFree(ring, size, x) {
      var t :| 0 <= t < |ring| && ring[t] <= x < ring[t] + size[ring[t]];
      UnitStays(base, ring, ptr, size, k, bp, h, r, ptr', size', t, x);
    }
    if bp <= x < bp + size[bp] { assert r[h.i] <= x < r[h.i] + size'[r[h.i]]; }
  }

  lemma FreedApart(base: int, ring: seq<int>, ptr: Words, size: Words, live: Words, k: int, bp: int, h: Hole,
                   r: seq<int>, ptr': Words, size': Words, a: int, s: int)
    requires Merged(base, ring, ptr, size, k, bp, h, r, ptr', size') && LiveOk(base, ring, size, live) && bp in live
    requires a in live && a != bp && 0 <= s < |r| && Ring(base, r, ptr', size')
    ensures Apart(a, live[a], r[s], size'[r[s]])
  {
    var x := if a < r[s] then r[s] else a;
    if x < a + live[a] {
      FreedUnits(base, ring, ptr, size, k, bp, h, r, ptr', size', x);
      assert Apart(a, live[a], bp, live[bp]) && !InFree(ring, size, x) && !InFree(r, size', x);
    }
  }

  /** free keeps the list in shape and the other allocated blocks as they were, and frees exactly the units of bp. */
  lemma FreeKeeps(base: int, ring: seq<int>, ptr: Words, size: Words, live: Words, k: int, bp: int, h: Hole,
                  r: seq<int>, ptr': Words, size': Words)
    requires Ok(base, ring, ptr, size, live) && SlotFor(ring, k, bp) && bp in live
    requires h == FreedHole(ring, size, k, bp, Succ(base, ring, k))
    requires h.j <= |ring| ==> r == Spliced(ring, h.i, h.j, h.x)
    requires Freed(ptr, size, bp, ring[k], Succ(base, ring, k), ptr', size')
    ensures Ok(base, r, ptr', size', live - {bp})
    ensures forall x :: InFree(r, size', x) <==> InFree(ring, size, x) || bp <= x < bp + live[bp]
    ensures ring[k] in r && 1 <= h.i < |r| && size'[r[h.i]] >= live[bp]
  {
    LiveFits(base, ring, ptr, size, live, k, bp);
    FreeRelinks(base, ring, ptr, size, k, bp, h, ptr', size');
    Splice(base, ring, ptr, size, h.i, h.j, h.x, ptr', size');
    forall x ensures InFree(r, size', x) <==> InFree(ring, size, x) || bp <= x < bp + size[bp] {
      FreedUnits(base, ring, ptr, size, k, bp, h, r, ptr', size', x);
    }
    forall a | a in live && a != bp ensures a in size' && size'[a] == size[a] {
      assert Apart(a, live[a], ring[k], size[ring[k]]);
    }
    forall a, s | a in live && a != bp && 0 <= s < |r| ensures Apart(a, live[a], r[s], size'[r[s]]) {
      FreedApart(base, ring, ptr, size, live, k, bp, h, r, ptr', size', a, s);
    }
    assert r[k] == ring[k];
  }

  lemma LiveUnits(base: int, ring: seq<int>, size: Words, live: Words, bp: int)
    requires (forall i | 0 <= i < |ring| :: ring[i] in size) && LiveOk(base, ring, size, live) && bp in live
    ensures forall x :: InLive(live, x) <==> InLive(live - {bp}, x) || bp <= x < bp + live[bp]
  {
    var rest := live - {bp};
    forall x | InLive(live, x) ensures InLive(rest, x) || bp <= x < bp + live[bp] {
      var a :| a in live && a <= x < a + live[a];
      assert a != bp ==> a in rest && rest[a] == live[a];
    }
    forall x | InLive(rest, x) ensures InLive(live, x) {
      var a :| a in rest && a <= x < a + rest[a];
      assert a in live && live[a] == rest[a];
    }
  }

  // ---- malloc: taking n units from block ring[m] ----

  function Without(ring: seq<int>, m: int): (r: seq<int>)
    requires 0 <= m < |ring|
    ensures |r| == |ring| - 1
    ensures forall s {:trigger r[s]} | 0 <= s < |r| :: r[s] == if s < m then ring[s] else ring[s + 1]
  {
    ring[..m] + ring[m + 1..]
  }

  lemma WholeRing(base: int, ring: seq<int>, ptr: Words, size: Words, m: int, r: seq<int>, ptr': Words)
    requires Ring(base, ring, ptr, size) && 1 <= m < |ring|
    requires r == Without(ring, m) && ptr' == ptr[ring[m - 1] := ptr[ring[m]]]
    ensures Ring(base, r, ptr', size)
  {
    assert ptr[ring[m]] == Succ(base, ring, m);
    forall s | 0 <= s < |r| ensures r[s] in ptr' && ptr'[r[s]] == Succ(base, r, s) {
      var t := if s < m then s else s + 1;
      assert r[s] == ring[t] && ptr[ring[t]] == Succ(base, ring, t);
      assert t < m - 1 ==> ring[t] + size[ring[t]] < ring[m - 1];
      assert t > m - 1 ==> ring[m - 1] + size[ring[m - 1]] < ring[t];
      assert s + 1 < |r| ==> r[s + 1] == if s + 1 < m then ring[s + 1] else ring[s + 2];
    }
    forall s, t | 0 <= s < t < |r| ensures r[s] + size[r[s]] < r[t] {
      var a, c := if s < m then s else s + 1, if t < m then t else t + 1;
      assert ring[a] + size[ring[a]] < ring[c];
    }
  }

  /** Units q .. q + n leave the free list for a new allocated block; everything else stays free. */
  ghost predicate Taken(ring: seq<int>, size: Words, r: seq<int>, size': Words, q: int, n: int)
    requires (forall i | 0 <= i < |ring| :: ring[i] in size) && (forall i | 0 <= i < |r| :: r[i] in size')
  {
    forall x {:trigger InFree(r, size', x)} :: InFree(r, size', x) <==> InFree(ring, size, x) && !(q <= x < q + n)
  }

  lemma TakenApart(base: int, ring: seq<int>, ptr: Words, size: Words, live: Words, r: seq<int>, ptr': Words,
                   size': Words, q: int, n: int, a: int, s: int)
    requires Ok(base, ring, ptr, size, live) && Ring(base, r, ptr', size') && Taken(ring, size, r, size', q, n)
    requires 0 <= s < |r| && n >= 1 && q > base && (a in live || a == q)
    ensures var k := if a == q then n else live[a]; Apart(a, k, r[s], size'[r[s]])
  {
    var x := if a < r[s] then r[s] else a;
    var k := if a == q then n else live[a];
    if s > 0 && r[s] <= x < r[s] + size'[r[s]] {
      assert InFree(r, size', x);
      var t :| 0 <= t < |ring| && ring[t] <= x < ring[t] + size[ring[t]];
      assert a != q ==> Apart(a, live[a], ring[t], size[ring[t]]);
    }
  }

  lemma TakenLive(base: int, ring: seq<int>, ptr: Words, size: Words, live: Words, r: seq<int>, ptr': Words,
                  size': Words, q: int, n: int)
    requires Ok(base, ring, ptr, size, live) && Ring(base, r, ptr', size') && Taken(ring, size, r, size', q, n)
    requires n >= 1 && q > base && q in size' && size'[q] == n
             && (forall a | a in live && a != q :: a in size' && size'[a] == size[a])
    requires forall a | a in live :: Apart(a, live[a], q, n)
    ensures q !in live && LiveOk(base, r, size', live[q := n])
  {
    var live' := live[q := n];
    forall a, s | a in live' && 0 <= s < |r| ensures Apart(a, live'[a], r[s], size'[r[s]]) {
      TakenApart(base, ring, ptr, size, live, r, ptr', size', q, n, a, s);
    }
  }

  /** Handing out the whole of block ring[m]. */
  lemma TakeWhole(base: int, ring: seq<int>, ptr: Words, size: Words, live: Words, m: int, r: seq<int>, ptr': Words)
    requires Ok(base, ring, ptr, size, live) && 1 <= m < |ring|
    requires r == Without(ring, m) && ptr' == ptr[ring[m - 1] := ptr[ring[m]]]
    ensures ring[m] !in live && Ok(base, r, ptr', size, live[ring[m] := size[ring[m]]])
    ensures Taken(ring, size, r, size, ring[m], size[ring[m]])
  {
    WholeRing(base, ring, ptr, size, m, r, ptr');
    forall x ensures InFree(r, size, x) <==> InFree(ring, size, x) && !(ring[m] <= x < ring[m] + size[ring[m]]) {
      WholeUnits(base, ring, ptr, size, m, r, x);
    }
    assert ring[0] + size[ring[0]] < ring[m];
    TakenLive(base, ring, ptr, size, live, r, ptr', size, ring[m], size[ring[m]]);
  }

  lemma WholeUnits(base: int, ring: seq<int>, ptr: Words, size: Words, m: int, r: seq<int>, x: int)
    requires Ring(base, ring, ptr, size) && 1 <= m < |ring| && r == Without(ring, m)
    ensures InFree(r, size, x) <==> InFree(ring, size, x) && !(ring[m] <= x < ring[m] + size[ring[m]])
  {
    if InFree(ring, size, x) {
      var t :| 0 <= t < |ring| && ring[t] <= x < ring[t] + size[ring[t]];
      if t != m { FoundAt(ring, size, m, r, t, x); }
    }
    if InFree(r, size, x) {
      var s :| 0 <= s < |r| && r[s] <= x < r[s] + size[r[s]];
      var t := if s < m then s else s + 1;
      assert r[s] == ring[t];
      OneBlock(base, ring, ptr, size, t, m, x);
    }
  }

  lemma FoundAt(ring: seq<int>, size: Words, m: int, r: seq<int>, t: int, x: int)
    requires 0 <= m < |ring| && r == Without(ring, m) && 0 <= t < |ring| && t != m
    requires (forall i | 0 <= i < |ring| :: ring[i] in size) && (forall i | 0 <= i < |r| :: r[i] in size)
    requires ring[t] <= x < ring[t] + size[ring[t]]
    ensures InFree(r, size, x)
  {
    assert r[if t < m then t else t - 1] == ring[t];
  }

  lemma OneBlock(base: int, ring: seq<int>, ptr: Words, size: Words, s: int, t: int, x: int)
    requires Ring(base, ring, ptr, size) && 0 <= s < |ring| && 0 <= t < |ring| && s != t
    ensures !(ring[s] <= x < ring[s] + size[ring[s]] && ring[t] <= x < ring[t] + size[ring[t]])
  {
    assert if s < t then ring[s] + size[ring[s]] < ring[t] else ring[t] + size[ring[t]] < ring[s];
  }

  lemma TailRing(base: int, ring: seq<int>, ptr: Words, size: Words, m: int, n: int, size': Words)
    requires Ring(base, ring, ptr, size) && 1 <= m < |ring| && 1 <= n < size[ring[m]]
    requires var q := ring[m] + size[ring[m]] - n; size' == size[ring[m] := size[ring[m]] - n][q := n]
    ensures Ring(base, ring, ptr, size')
    ensures forall t | 0 <= t < |ring| :: size'[ring[t]] == if t == m then size[ring[m]] - n else size[ring[t]]
  {
    forall t | 0 <= t < |ring|
      ensures ring[t] in size' && size'[ring[t]] == if t == m then size[ring[m]] - n else size[ring[t]] {
      assert t < m ==> ring[t] + size[ring[t]] < ring[m];
      assert t > m ==> ring[m] + size[ring[m]] < ring[t];
    }
  }

  /** Handing out the last n units of block ring[m]. */
  lemma TakeTail(base: int, ring: seq<int>, ptr: Words, size: Words, live: Words, m: int, n: int, q: int, size': Words)
    requires Ok(base, ring, ptr, size, live) && 1 <= m < |ring| && 1 <= n < size[ring[m]]
    requires q == ring[m] + size[ring[m]] - n && size' == size[ring[m] := size[ring[m]] - n][q := n]
    ensures q !in live && Ok(base, ring, ptr, size', live[q := n])
    ensures Taken(ring, size, ring, size', q, n)
  {
    TailRing(base, ring, ptr, size, m, n, size');
    forall x ensures InFree(ring, size', x) <==> InFree(ring, size, x) && !(q <= x < q + n) {
      TailUnits(base, ring, ptr, size, m, n, size', x);
    }
    forall a | a in live ensures Apart(a, live[a], q, n) && a != ring[m] {
      assert Apart(a, live[a], ring[m], size[ring[m]]);
    }
    assert ring[0] + size[ring[0]] < ring[m];
    TakenLive(base, ring, ptr, size, live, ring, ptr, size', q, n);
  }

  lemma TailUnits(base: int, ring: seq<int>, ptr: Words, size: Words, m: int, n: int, size': Words, x: int)
    requires Ring(base, ring, ptr, size) && 1 <= m < |ring| && 1 <= n < size[ring[m]] && Ring(base, ring, ptr, size')
    requires forall t | 0 <= t < |ring| :: size'[ring[t]] == if t == m then size[ring[m]] - n else size[ring[t]]
    ensures var q := ring[m] + size[ring[m]] - n; InFree(ring, size', x) <==> InFree(ring, size, x) && !(q <= x < q + n)
  {
    var q := ring[m] + size[ring[m]] - n;
    if InFree(ring, size, x) {
      var t :| 0 <= t < |ring| && ring[t] <= x < ring[t] + size[ring[t]];
      assert size'[ring[t]] == if t == m then size[ring[m]] - n else size[ring[t]];
    }
    if InFree(ring, size', x) {
      var t :| 0 <= t < |ring| && ring[t] <= x < ring[t] + size'[ring[t]];
      assert ring[t] <= x < ring[t] + size[ring[t]];
      assert t < m ==> ring[t] + size[ring[t]] < ring[m];
      assert t > m ==> ring[m] + size[ring[m]] < ring[t];
    }
  }

  // ---- the searches ----

  /** The place of bp in the list exists. */
  lemma {:induction false} SlotExists(base: int, ring: seq<int>, ptr: Words, size: Words, bp: int, hi: int)
      returns (k: int)
    requires Ring(base, ring, ptr, size) && bp > base && 1 <= hi <= |ring| && bp !in ring
    requires hi < |ring| ==> bp < ring[hi]
    ensures SlotFor(ring, k, bp)
  {
    if ring[hi - 1] < bp {
      k := hi - 1;
    } else {
      k := SlotExists(base, ring, ptr, size, bp, hi - 1);
    }
  }

  /** Steps from ring[c] to ring[k] along the links of a list of n blocks. */
  function Steps(n: int, c: int, k: int): (d: int) {
    if c <= k then k - c else n - c + k
  }

  /** Where the search of free stands at ring[c], and whether it may stop there. */
  lemma LinksUp(base: int, ring: seq<int>, ptr: Words, size: Words, bp: int, c: int, k: int)
    requires Ring(base, ring, ptr, size) && bp > base && 0 <= c < |ring| && SlotFor(ring, k, bp)
    ensures ptr[ring[c]] == Succ(base, ring, c) && Succ(base, ring, c) in size && Succ(base, ring, c) in ptr
    ensures var p, nx := ring[c], ptr[ring[c]];
            (bp > p && bp < nx) || (p >= nx && (bp > p || bp < nx)) <==> c == k
  {
    assert ptr[ring[c]] == Succ(base, ring, c);
    assert c > 0 ==> ring[0] + size[ring[0]] < ring[c];
    assert c < k ==> ring[c] + size[ring[c]] < ring[k];
    assert c + 1 < k ==> ring[c + 1] + size[ring[c + 1]] < ring[k];
    assert k + 1 < |ring| && k + 1 < c ==> ring[k + 1] + size[ring[k + 1]] < ring[c];
    assert c + 1 < |ring| ==> ring[c] + size[ring[c]] < ring[c + 1];
  }

  /** ring[i] lies behind the search, which started after ring[f] and has come to ring[m]. */
  predicate Passed(f: int, m: int, i: int) {
    if m > f then f < i < m else i > f || i < m
  }

  // ---- sizes ----

  const HEADER := 16

  /** Units for nbytes bytes and a header. */
  function Units(nbytes: nat): (n: int)
    ensures n >= 1 && HEADER * (n - 1) >= nbytes
  {
    (nbytes + HEADER - 1) / HEADER + 1
  }

  function Chunk(nu: int): (n: int) {
    if nu < 4096 then 4096 else nu
  }

  /** The value of x converted to a signed 32-bit integer. */
  function AsInt(x: int): (r: int) {
    var y := x % 0x1_0000_0000;
    if y < 0x8000_0000 then y else y - 0x1_0000_0000
  }

  /** sbrk takes a signed 32-bit count, so it is asked for what malloc needs exactly for requests of at most 2^31 -
      32 bytes. */
  lemma SbrkCount(nbytes: nat)
    requires nbytes < 0x1_0000_0000
    ensures AsInt(Chunk(Units(nbytes)) * HEADER) == Chunk(Units(nbytes)) * HEADER <==> nbytes <= 0x7FFF_FFE0
  {
    var n := Units(nbytes);
    assert n == (nbytes + 15) / 16 + 1;
    assert n < 0x800_0000 <==> nbytes <= 0x7FFF_FFE0;
  }

  /** What sbrk(n) makes of the units of memory, mem: there are those of the next n bytes too, or for a negative n there
      are no others. */
  ghost predicate Sbrked(mem: iset<int>, brk: int, n: int, mem': iset<int>) {
    if n >= 0 then mem' == mem + Region(brk, n / HEADER) else mem' <= mem
  }

  /** The units that malloc takes itself to have obtained are memory if and only if the request is that small. */
  lemma BackedIff(nbytes: nat, brk: int, mem: iset<int>, mem': iset<int>, obtained: iset<int>)
    requires nbytes < 0x1_0000_0000 && obtained <= mem && forall u | u in mem :: u < brk
    requires Sbrked(mem, brk, AsInt(Chunk(Units(nbytes)) * HEADER), mem')
    ensures obtained + Region(brk, Chunk(Units(nbytes))) <= mem' <==> nbytes <= 0x7FFF_FFE0
  {
    var c := Chunk(Units(nbytes));
    SbrkCount(nbytes);
    if nbytes > 0x7FFF_FFE0 {
      assert brk + c - 1 in Region(brk, c) && brk + c - 1 !in mem';
    }
  }

  // ---- the allocator ----

  /** Free and allocated blocks are in order, and together hold exactly the units obtained from sbrk. */
  ghost predicate Sound(base: int, freep: int, ptr: Words, size: Words, ring: seq<int>, live: Words,
                        obtained: iset<int>) {
    && base > NULL
    && (freep == NULL ==> ring == [] && live == map[] && obtained == iset{})
    && (freep != NULL ==> Ok(base, ring, ptr, size, live) && freep in ring)
    && (forall i | 0 <= i < |ring| :: ring[i] in size)
    && (forall x {:trigger x in obtained} :: x in obtained <==> InFree(ring, size, x) || InLive(live, x))
  }

  ghost predicate HasBlock(ring: seq<int>, size: Words, n: int)
    requires forall i | 0 <= i < |ring| :: ring[i] in size
  {
    exists i | 1 <= i < |ring| :: size[ring[i]] >= n
  }

  lemma FreeSound(base: int, freep: int, ring: seq<int>, ptr: Words, size: Words, live: Words, obtained: iset<int>,
                  k: int, bp: int, ptr': Words, size': Words)
      returns (r: seq<int>)
    requires Sound(base, freep, ptr, size, ring, live, obtained) && freep != NULL && SlotFor(ring, k, bp) && bp in live
    requires Freed(ptr, size, bp, ring[k], Succ(base, ring, k), ptr', size')
    ensures Sound(base, ring[k], ptr', size', r, live - {bp}, obtained) && ring[k] != NULL
    ensures HasBlock(r, size', live[bp])
  {
    var h := FreedHole(ring, size, k, bp, Succ(base, ring, k));
    r := if h.j <= |ring| then Spliced(ring, h.i, h.j, h.x) else ring;
    FreeKeeps(base, ring, ptr, size, live, k, bp, h, r, ptr', size');
    LiveUnits(base, ring, size, live, bp);
    forall x ensures x in obtained <==> InFree(r, size', x) || InLive(live - {bp}, x) {
      assert InFree(r, size', x) <==> InFree(ring, size, x) || bp <= x < bp + live[bp];
    }
    assert k > 0 ==> ring[0] + size[ring[0]] < ring[k];
  }

  /** Units a .. a + n are none of the allocator's. */
  ghost predicate Unused(base: int, ring: seq<int>, size: Words, live: Words, a: int, n: int)
    requires forall i | 0 <= i < |ring| :: ring[i] in size
  {
    && a > base && n >= 1
    && (forall i | 0 <= i < |ring| :: Apart(a, n, ring[i], size[ring[i]]))
    && (forall c | c in live :: Apart(c, live[c], a, n))
  }

  predicate Within(a: int, n: int, x: int) {
    a <= x < a + n
  }

  ghost function Region(a: int, n: int): (r: iset<int>) {
    iset x | Within(a, n, x)
  }

  /** A region from sbrk, given a header, is an allocated block like any other. */
  lemma GrowSound(base: int, freep: int, ring: seq<int>, ptr: Words, size: Words, live: Words, obtained: iset<int>,
                  a: int, n: int)
    requires Sound(base, freep, ptr, size, ring, live, obtained) && freep != NULL
             && Unused(base, ring, size, live, a, n)
    ensures a !in live && Sound(base, freep, ptr, size[a := n], ring, live[a := n], obtained + Region(a, n))
  {
    var size', live' := size[a := n], live[a := n];
    forall i | 0 <= i < |ring| ensures ring[i] != a {
      assert Apart(a, n, ring[i], size[ring[i]]);
    }
    forall x ensures InFree(ring, size', x) <==> InFree(ring, size, x) {}
    assert live' - {a} == live;
    LiveUnits(base, ring, size', live', a);
  }

  lemma TakeSound(base: int, freep: int, ring: seq<int>, ptr: Words, size: Words, live: Words, obtained: iset<int>,
                  m: int, n: int, q: int, r: seq<int>, ptr': Words, size': Words)
    requires Sound(base, freep, ptr, size, ring, live, obtained) && freep != NULL && 1 <= m < |ring|
             && 1 <= n <= size[ring[m]]
    requires q == ring[m] + size[ring[m]] - n
    requires size[ring[m]] == n ==> r == Without(ring, m) && ptr' == ptr[ring[m - 1] := ptr[ring[m]]] && size' == size
    requires size[ring[m]] > n ==> r == ring && ptr' == ptr && size' == size[ring[m] := size[ring[m]] - n][q := n]
    ensures q !in live && ring[m - 1] != NULL && Sound(base, ring[m - 1], ptr', size', r, live[q := n], obtained)
  {
    if size[ring[m]] == n {
      TakeWhole(base, ring, ptr, size, live, m, r, ptr');
      assert r[m - 1] == ring[m - 1];
    } else {
      TakeTail(base, ring, ptr, size, live, m, n, q, size');
    }
    var live' := live[q := n];
    assert live' - {q} == live;
    LiveUnits(base, r, size', live', q);
    assert ring[m] <= q && q + n == ring[m] + size[ring[m]];
    forall x ensures x in obtained <==> InFree(r, size', x) || InLive(live', x) {
      assert InFree(r, size', x) <==> InFree(ring, size, x) && !(q <= x < q + n);
      assert q <= x < q + n ==> ring[m] <= x < ring[m] + size[ring[m]];
    }
    assert m > 1 ==> ring[0] + size[ring[0]] < ring[m - 1];
  }

  /** The free list on the first call of malloc. */
  lemma StartSound(base: int, ptr: Words, size: Words, live: Words, obtained: iset<int>, n: int)
    requires Sound(base, NULL, ptr, size, [], live, obtained) && n >= 1
    ensures Sound(base, base, ptr[base := base], size[base := 0], [base], live, obtained)
    ensures !HasBlock([base], size[base := 0], n)
  {
    assert Succ(base, [base], 0) == base;
  }

  function Next(n: int, m: int): (r: int) {
    if m + 1 < n then m + 1 else 0
  }

  /** The search of malloc stands at ring[m] with its predecessor at hand, and has passed over blocks below n units. */
  ghost predicate At(ring: seq<int>, size: Words, freep: int, prevp: int, p: int, f: int, m: int, n: int)
    requires forall i | 0 <= i < |ring| :: ring[i] in size
  {
    && 0 <= f < |ring| && 0 <= m < |ring| && freep == ring[f] && p == ring[m]
    && (m > 0 ==> prevp == ring[m - 1])
    && (forall i | 0 <= i < |ring| && Passed(f, m, i) :: size[ring[i]] < n)
  }

  lemma Advance(base: int, ring: seq<int>, ptr: Words, size: Words, freep: int, prevp: int, p: int, f: int, m: int,
                n: int)
    requires Ring(base, ring, ptr, size) && At(ring, size, freep, prevp, p, f, m, n) && size[p] < n
    ensures p != freep ==>
              At(ring, size, freep, p, ptr[p], f, Next(|ring|, m), n)
              && Steps(|ring|, Next(|ring|, m), f) < Steps(|ring|, m, f)
    ensures p == freep ==> !HasBlock(ring, size, n)
  {
    assert ptr[ring[m]] == Succ(base, ring, m);
    assert f < m ==> ring[f] + size[ring[f]] < ring[m];
    assert m < f ==> ring[m] + size[ring[m]] < ring[f];
  }

  lemma Begin(base: int, ring: seq<int>, ptr: Words, size: Words, f: int, n: int)
    requires Ring(base, ring, ptr, size) && 0 <= f < |ring|
    ensures At(ring, size, ring[f], ring[f], ptr[ring[f]], f, Next(|ring|, f), n)
  {
    assert ptr[ring[f]] == Succ(base, ring, f);
  }

  class Allocator {
    const base: int
    var freep: int
    var ptr: Words
    var size: Words
    ghost var ring: seq<int>
    ghost var live: Words
    ghost var obtained: iset<int>

    ghost predicate Valid()
      reads this
    {
      Sound(base, freep, ptr, size, ring, live, obtained)
    }

    constructor (base: int)
      requires base > NULL
      ensures Valid() && this.base == base && live == map[]
    {
      this.base := base;
      freep := NULL;
      ptr, size, ring, live, obtained := map[], map[], [], map[], iset{};
    }

    /** The search of free: the free block after which bp belongs. */
    method FindSlot(bp: int) returns (p: int, ghost c: int)
      requires Valid() && freep != NULL && bp in live
      ensures SlotFor(ring, c, bp) && p == ring[c]
    {
      p := freep;
      c :| 0 <= c < |ring| && ring[c] == p;
      forall i | 0 <= i < |ring| ensures ring[i] != bp { assert Apart(bp, live[bp], ring[i], size[ring[i]]); }
      ghost var k := SlotExists(base, ring, ptr, size, bp, |ring|);
      while !(bp > p && bp < ptr[p])
        invariant 0 <= c < |ring| && p == ring[c]
        decreases Steps(|ring|, c, k)
      {
        LinksUp(base, ring, ptr, size, bp, c, k);
        if p >= ptr[p] && (bp > p || bp < ptr[p]) {
          return;
        }
        p := ptr[p];
        c := if c + 1 < |ring| then c + 1 else 0;
      }
      LinksUp(base, ring, ptr, size, bp, c, k);
    }

    /** The writes of free: block bp between p and its successor, joined to either where they touch. */
    method Relink(bp: int, p: int)
      requires bp in size && p in size && p in ptr && ptr[p] in size && ptr[p] in ptr && bp != p && bp != ptr[p]
      modifies `ptr, `size, `freep
      ensures Freed(old(ptr), old(size), bp, p, old(ptr[p]), ptr, size) && freep == p
    {
      if bp + size[bp] == ptr[p] {
        size := size[bp := size[bp] + size[ptr[p]]];
        ptr := ptr[bp := ptr[ptr[p]]];
      } else {
        ptr := ptr[bp := ptr[p]];
      }
      if p + size[p] == bp {
        size := size[p := size[p] + size[bp]];
        ptr := ptr[p := ptr[bp]];
      } else {
        ptr := ptr[p := bp];
      }
      freep := p;
    }

    method Free(ap: int)
      requires Valid() && freep != NULL && ap - 1 in live
      modifies this
      ensures Valid() && freep != NULL && obtained == old(obtained)
      ensures live == old(live) - {ap - 1}
      ensures HasBlock(ring, size, old(live[ap - 1]))
    {
      var p;
      ghost var c;
      p, c := FindSlot(ap - 1);
      LinksUp(base, ring, ptr, size, ap - 1, c, c);
      LiveFits(base, ring, ptr, size, live, c, ap - 1);
      Relink(ap - 1, p);
      ghost var r := FreeSound(base, old(freep), ring, old(ptr), old(size), live, obtained, c, ap - 1, ptr, size);
      ring := r;
      live := live - {ap - 1};
    }

    /** sbrk's answer is the parameter brk: the address of Chunk(nu) new units, or a refusal. */
    method Morecore(nu: int, brk: Option<int>) returns (p: int)
      requires Valid() && freep != NULL && (brk.Some? ==> Unused(base, ring, size, live, brk.value, Chunk(nu)))
      modifies this
      ensures Valid() && freep != NULL && live == old(live)
      ensures brk.None? ==> p == NULL && unchanged(this)
      ensures brk.Some? ==>
                p == freep && HasBlock(ring, size, nu) && obtained == old(obtained) + Region(brk.value, Chunk(nu))
    {
      if brk.None? {
        return NULL;
      }
      var hp := brk.value;
      GrowSound(base, freep, ring, ptr, size, live, obtained, hp, Chunk(nu));
      size := size[hp := Chunk(nu)];
      live := live[hp := Chunk(nu)];
      obtained := obtained + Region(hp, Chunk(nu));
      Free(hp + 1);
      assert live == old(live);
      p := freep;
    }

    /** Handing out n units of block p: all of it, or its tail. */
    method TakeFrom(prevp: int, p: int, n: int, ghost m: int) returns (r: int)
      requires Valid() && freep != NULL && 1 <= m < |ring| && p == ring[m] && prevp == ring[m - 1] && 1 <= n <= size[p]
      modifies this
      ensures Valid() && freep == prevp != NULL && obtained == old(obtained)
      ensures r > base && r - 1 !in old(live) && live == old(live)[r - 1 := n]
    {
      ghost var q := p + size[p] - n;
      var c := p;
      if size[p] == n {
        ptr := ptr[prevp := ptr[p]];
        ring := Without(ring, m);
      } else {
        size := size[p := size[p] - n];
        c := p + size[p];
        size := size[c := n];
      }
      freep := prevp;
      live := live[q := n];
      TakeSound(base, old(freep), old(ring), old(ptr), old(size), old(live), obtained, m, n, q, ring, ptr, size);
      r := c + 1;
    }

    /** One round of malloc's search: from the block after freep to freep itself, for a block of n units. */
    method Search(n: int) returns (prevp: int, p: int, ghost m: int)
      requires Valid() && freep != NULL && n >= 1
      ensures 0 <= m < |ring| && p == ring[m]
      ensures size[p] >= n ==> 1 <= m && prevp == ring[m - 1]
      ensures size[p] >= n <==> HasBlock(ring, size, n)
    {
      prevp := freep;
      p := ptr[prevp];
      ghost var f :| 0 <= f < |ring| && ring[f] == freep;
      m := Next(|ring|, f);
      Begin(base, ring, ptr, size, f, n);
      while size[p] < n
        invariant At(ring, size, freep, prevp, p, f, m, n)
        decreases Steps(|ring|, m, f)
      {
        Advance(base, ring, ptr, size, freep, prevp, p, f, m, n);
        if p == freep {
          return;
        }
        prevp, p := p, ptr[p];
        m := Next(|ring|, m);
      }
    }

    /** malloc's loop: a search, and if it fails another after asking for memory. */
    method Allocate(n: int, brk: Option<int>) returns (r: int)
      requires Valid() && freep != NULL && n >= 1 && (brk.Some? ==> Unused(base, ring, size, live, brk.value, Chunk(n)))
      modifies this
      ensures Valid() && freep != NULL
      ensures r == NULL <==> brk.None? && !old(HasBlock(ring, size, n))
      ensures r == NULL ==> live == old(live)
      ensures r != NULL ==> r - 1 !in old(live) && live == old(live)[r - 1 := n]
      ensures obtained == if brk.Some?
              && !old(HasBlock(ring, size, n)) then old(obtained) + Region(brk.value, Chunk(n)) else old(obtained)
    {
      var prevp, p;
      ghost var m;
      prevp, p, m := Search(n);
      if size[p] < n {
        p := Morecore(n, brk);
        if p == NULL {
          return NULL;
        }
        prevp, p, m := Search(n);
      }
      r := TakeFrom(prevp, p, n, m);
    }

    /** malloc, with sbrk's answer in brk. */
    method Malloc(nbytes: nat, brk: Option<int>) returns (r: int)
      requires Valid() && (brk.Some? ==> Unused(base, ring, size, live, brk.value, Chunk(Units(nbytes))))
      modifies this
      ensures Valid() && freep != NULL
      ensures r == NULL <==> brk.None? && !old(HasBlock(ring, size, Units(nbytes)))
      ensures r == NULL ==> live == old(live)
      ensures r != NULL ==> r - 1 !in old(live) && live == old(live)[r - 1 := Units(nbytes)]
      ensures obtained == if brk.Some?
              && !old(HasBlock(ring, size, Units(nbytes))) then old(obtained) + Region(brk.value, Chunk(Units(nbytes)))
                 else old(obtained)
    {
      var nunits := Units(nbytes);
      if freep == NULL {
        StartSound(base, ptr, size, live, obtained, nunits);
        ptr, size, freep := ptr[base := base], size[base := 0], base;
        ring := [base];
      }
      r := Allocate(nunits, brk);
    }
  }
}
