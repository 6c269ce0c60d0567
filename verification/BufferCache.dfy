/** The buffer cache: a doubly linked ring of buffers in the order of their last release, over a disk.

    Buffers are 0 .. n and the list head is n, the last index. `order` is the ring from the head on; `stamp` says when a
    buffer was last released, and `disk` holds the blocks of all devices.
 */
module BufferCache {
  import opened Basics

  type Key = (int, int)
  type Disk = map<Key, Block>

  // ---- the ring ----

  /** The i-th element of the ring, the head being at both ends. */
  function Pos(head: int, order: seq<int>, i: int): (b: int) {
    if 0 <= i < |order| then order[i] else head
  }

  ghost predicate Linked(head: int, next: seq<int>, prev: seq<int>, order: seq<int>) {
    && 0 <= head < |next| == |prev|
    && (forall i | 0 <= i < |order| :: 0 <= order[i] < |next| && order[i] != head)
    && Distinct(order)
    && (forall i {:trigger NextAt(head, next, order, i)} | -1 <= i < |order| :: NextAt(head, next, order, i))
    && (forall i {:trigger PrevAt(head, prev, order, i)} | 0 <= i <= |order| :: PrevAt(head, prev, order, i))
  }

  predicate NextAt(head: int, next: seq<int>, order: seq<int>, i: int) {
    0 <= Pos(head, order, i) < |next| && next[Pos(head, order, i)] == Pos(head, order, i + 1)
  }

  predicate PrevAt(head: int, prev: seq<int>, order: seq<int>, i: int) {
    0 <= Pos(head, order, i) < |prev| && prev[Pos(head, order, i)] == Pos(head, order, i - 1)
  }

  /** b put in at the head. */
  function NextIn(head: int, next: seq<int>, b: int): (r: seq<int>)
    requires 0 <= head < |next| && 0 <= b < |next|
  {
    next[b := next[head]][head := b]
  }

  function PrevIn(head: int, next: seq<int>, prev: seq<int>, b: int): (r: seq<int>)
    requires 0 <= head < |next| == |prev| && 0 <= b < |next| && 0 <= next[head] < |next|
  {
    prev[b := head][next[head] := b]
  }

  lemma PutFirst(head: int, next: seq<int>, prev: seq<int>, order: seq<int>, b: int)
    requires Linked(head, next, prev, order) && 0 <= b < |next| && b != head && b !in order
    ensures next[head] == Pos(head, order, 0)
    ensures Linked(head, NextIn(head, next, b), PrevIn(head, next, prev, b), [b] + order)
  {
    assert NextAt(head, next, order, -1);
    var next', prev', order' := NextIn(head, next, b), PrevIn(head, next, prev, b), [b] + order;
    forall i | -1 <= i < |order'| ensures NextAt(head, next', order', i) {
      if i >= 1 { assert NextAt(head, next, order, i - 1); }
    }
    forall i | 0 <= i <= |order'| ensures PrevAt(head, prev', order', i) {
      if i >= 1 { assert PrevAt(head, prev, order, i - 1); }
      if i >= 2 && 0 < |order| { assert Pos(head, order, i - 1) != Pos(head, order, 0); }
    }
  }

  /** The ring without its element k. */
  function Without(order: seq<int>, k: int): (r: seq<int>)
    requires 0 <= k < |order|
    ensures |r| == |order| - 1
            && forall i {:trigger r[i]} | 0 <= i < |r| :: r[i] == if i < k then order[i] else order[i + 1]
  {
    order[..k] + order[k + 1..]
  }

  function NextOut(next: seq<int>, prev: seq<int>, b: int): (r: seq<int>)
    requires |next| == |prev| && 0 <= b < |next| && 0 <= prev[b] < |next|
  {
    next[prev[b] := next[b]]
  }

  function PrevOut(next: seq<int>, prev: seq<int>, b: int): (r: seq<int>)
    requires |next| == |prev| && 0 <= b < |next| && 0 <= next[b] < |next|
  {
    prev[next[b] := prev[b]]
  }

  lemma Around(head: int, next: seq<int>, prev: seq<int>, order: seq<int>, k: int)
    requires Linked(head, next, prev, order) && 0 <= k < |order|
    ensures next[order[k]] == Pos(head, order, k + 1) && prev[order[k]] == Pos(head, order, k - 1)
  {
    assert NextAt(head, next, order, k) && PrevAt(head, prev, order, k);
  }

  lemma TakeOut(head: int, next: seq<int>, prev: seq<int>, order: seq<int>, k: int)
    requires Linked(head, next, prev, order) && 0 <= k < |order|
    ensures var b := order[k]; 0 <= next[b] < |next| && 0 <= prev[b] < |next|
    ensures var b := order[k];
            Linked(head, NextOut(next, prev, b), PrevOut(next, prev, b), Without(order, k)) && b !in Without(order, k)
  {
    Around(head, next, prev, order, k);
    var b, r := order[k], Without(order, k);
    var next', prev' := NextOut(next, prev, b), PrevOut(next, prev, b);
    forall i | -1 <= i < |r| ensures NextAt(head, next', r, i) {
      var j := if i < k then i else i + 1;
      assert NextAt(head, next, order, j);
      assert Pos(head, r, i) == Pos(head, order, j);
      assert i != k - 1 ==> Pos(head, order, j) != Pos(head, order, k - 1);
    }
    forall i | 0 <= i <= |r| ensures PrevAt(head, prev', r, i) {
      var j := if i < k then i else i + 1;
      assert PrevAt(head, prev, order, j);
      assert Pos(head, r, i) == Pos(head, order, j);
      assert i != k ==> Pos(head, order, j) != Pos(head, order, k + 1);
    }
  }

  // ---- the cache ----

  /** What a buffer that was never used is labelled with: block 0 of device 0. */
  const BLANK: Key := (0, 0)

  // a count below zero stands for one that has wrapped around
  datatype Bufs = Bufs(dev: seq<int>, blk: seq<int>, valid: seq<bool>, refcnt: seq<int>, data: seq<Block>)

  function KeyOf(c: Bufs, b: int): (k: Key)
    requires 0 <= b < |c.dev| == |c.blk|
  {
    (c.dev[b], c.blk[b])
  }

  predicate Shape(c: Bufs, n: int) {
    |c.dev| == |c.blk| == |c.valid| == |c.refcnt| == |c.data| == n
  }

  /** No block is in two buffers, but for the one that a buffer never used is taken for. */
  predicate OneAt(c: Bufs, n: int, a: int, b: int)
    requires Shape(c, n) && 0 <= a < n && 0 <= b < n
  {
    a != b && KeyOf(c, a) != BLANK ==> KeyOf(c, a) != KeyOf(c, b)
  }

  /** A buffer nobody holds or pins agrees with the disk. */
  predicate CleanAt(c: Bufs, n: int, disk: Disk, b: int)
    requires Shape(c, n) && 0 <= b < n
  {
    c.valid[b] && c.refcnt[b] <= 0 && KeyOf(c, b) != BLANK ==> KeyOf(c, b) in disk && disk[KeyOf(c, b)] == c.data[b]
  }

  ghost predicate Coherent(c: Bufs, n: int, disk: Disk) {
    && Shape(c, n)
    && (forall a, b {:trigger OneAt(c, n, a, b)} | 0 <= a < n && 0 <= b < n :: OneAt(c, n, a, b))
    && (forall b {:trigger CleanAt(c, n, disk, b)} | 0 <= b < n :: CleanAt(c, n, disk, b))
  }

  /** v is what block k holds: what its buffer holds, if it has one that is read in, and what the
      disk holds otherwise. */
  ghost predicate Shows(c: Bufs, n: int, disk: Disk, k: Key, v: Block)
    requires Shape(c, n)
  {
    if exists b :: Holds(c, n, k, b) then forall b {:trigger Holds(c, n, k, b)} | Holds(c, n, k, b) :: c.data[b] == v
    else k in disk && disk[k] == v
  }

  predicate Holds(c: Bufs, n: int, k: Key, b: int)
    requires Shape(c, n)
  {
    0 <= b < n && c.valid[b] && KeyOf(c, b) == k
  }

  /** Two caches show the same in every block that is not BLANK, except perhaps in block `but`. */
  ghost predicate SameView(c: Bufs, disk: Disk, c': Bufs, disk': Disk, n: int, but: Option<Key>)
    requires Shape(c, n) && Shape(c', n)
  {
    forall k: Key, v: Block {:trigger Shows(c', n, disk', k, v)} | k != BLANK && but != Some(k) ::
             Shows(c, n, disk, k, v) <==> Shows(c', n, disk', k, v)
  }

  /** A buffer that nobody holds, given to block k, which has none. */
  function Recycled(c: Bufs, n: int, b: int, k: Key): (c': Bufs)
    requires Shape(c, n) && 0 <= b < n
  {
    c.(dev := c.dev[b := k.0], blk := c.blk[b := k.1], valid := c.valid[b := false], refcnt := c.refcnt[b := 1])
  }

  lemma RecycleKeeps(c: Bufs, n: int, disk: Disk, b: int, k: Key)
    requires Coherent(c, n, disk) && 0 <= b < n && c.refcnt[b] == 0 && forall a | 0 <= a < n :: KeyOf(c, a) != k
    ensures Coherent(Recycled(c, n, b, k), n, disk) && SameView(c, disk, Recycled(c, n, b, k), disk, n, None)
  {
    var c' := Recycled(c, n, b, k);
    forall a, d | 0 <= a < n && 0 <= d < n
      ensures OneAt(c', n, a, d)
    {
      assert OneAt(c, n, a, d) && KeyOf(c, a) != k && KeyOf(c, d) != k;
    }
    forall a | 0 <= a < n ensures CleanAt(c', n, disk, a) { assert CleanAt(c, n, disk, a); }
    forall k': Key, v: Block | k' != BLANK ensures Shows(c, n, disk, k', v) <==> Shows(c', n, disk, k', v) {
      RecycleShows(c, n, disk, b, k, k', v);
    }
  }

  lemma RecycleShows(c: Bufs, n: int, disk: Disk, b: int, k: Key, k': Key, v: Block)
    requires Coherent(c, n, disk) && 0 <= b < n && c.refcnt[b] == 0 && k' != BLANK
             && forall a | 0 <= a < n :: KeyOf(c, a) != k
    ensures Shows(c, n, disk, k', v) <==> Shows(Recycled(c, n, b, k), n, disk, k', v)
  {
    var c' := Recycled(c, n, b, k);
    assert CleanAt(c, n, disk, b);
    forall a ensures Holds(c', n, k', a) <==> Holds(c, n, k', a) && a != b {}
    if Holds(c, n, k', b) {
      forall a | Holds(c, n, k', a) ensures a == b { assert OneAt(c, n, b, a); }
    }
  }

  /** The one valid buffer of a block decides what the block shows. */
  lemma HolderShows(c: Bufs, n: int, disk: Disk, b: int, v: Block)
    requires Coherent(c, n, disk) && 0 <= b < n && c.valid[b] && KeyOf(c, b) != BLANK
    ensures Shows(c, n, disk, KeyOf(c, b), v) <==> v == c.data[b]
  {
    assert Holds(c, n, KeyOf(c, b), b);
    forall a | Holds(c, n, KeyOf(c, b), a) ensures a == b { assert OneAt(c, n, b, a); }
  }

  /** Changes to a buffer's contents and validity, and to its block on disk, show only in that block. */
  lemma OtherShows(c: Bufs, n: int, disk: Disk, c': Bufs, disk': Disk, b: int, k: Key, v: Block)
    requires Shape(c, n) && Shape(c', n) && 0 <= b < n && k != KeyOf(c, b)
             && c' == c.(valid := c.valid[b := c'.valid[b]], data := c.data[b := c'.data[b]], refcnt := c'.refcnt)
    requires (k in disk <==> k in disk') && (k in disk ==> disk'[k] == disk[k])
    ensures Shows(c, n, disk, k, v) <==> Shows(c', n, disk', k, v)
  {
    forall a ensures Holds(c', n, k, a) <==> Holds(c, n, k, a) {}
  }

  /** Reading a block into its buffer. */
  function Loaded(c: Bufs, n: int, b: int, v: Block): (c': Bufs)
    requires Shape(c, n) && 0 <= b < n
  {
    c.(valid := c.valid[b := true], data := c.data[b := v])
  }

  lemma LoadKeeps(c: Bufs, n: int, disk: Disk, b: int)
    requires Coherent(c, n, disk) && 0 <= b < n && !c.valid[b] && KeyOf(c, b) in disk
    ensures var c' := Loaded(c, n, b, disk[KeyOf(c, b)]); Coherent(c', n, disk) && SameView(c, disk, c', disk, n, None)
  {
    var k := KeyOf(c, b);
    var c' := Loaded(c, n, b, disk[k]);
    forall a, d | 0 <= a < n && 0 <= d < n ensures OneAt(c', n, a, d) { assert OneAt(c, n, a, d); }
    forall a | 0 <= a < n ensures CleanAt(c', n, disk, a) { assert CleanAt(c, n, disk, a); }
    forall k': Key, v: Block | k' != BLANK ensures Shows(c, n, disk, k', v) <==> Shows(c', n, disk, k', v) {
      if k' == k {
        HolderShows(c', n, disk, b, v);
        forall a ensures !Holds(c, n, k, a) { if 0 <= a < n { assert OneAt(c, n, b, a); } }
      } else {
        OtherShows(c, n, disk, c', disk, b, k', v);
      }
    }
  }

  /** A buffer's holder changes its contents. */
  lemma StoreKeeps(c: Bufs, n: int, disk: Disk, b: int, v: Block)
    requires Coherent(c, n, disk) && 0 <= b < n && c.valid[b] && c.refcnt[b] > 0
    ensures var c' := Loaded(c, n, b, v);
            && Coherent(c', n, disk) && SameView(c, disk, c', disk, n, Some(KeyOf(c, b)))
            && (KeyOf(c, b) != BLANK ==> Shows(c', n, disk, KeyOf(c, b), v))
  {
    var c' := Loaded(c, n, b, v);
    forall a, d | 0 <= a < n && 0 <= d < n ensures OneAt(c', n, a, d) { assert OneAt(c, n, a, d); }
    forall a | 0 <= a < n ensures CleanAt(c', n, disk, a) { assert CleanAt(c, n, disk, a); }
    if KeyOf(c, b) != BLANK { HolderShows(c', n, disk, b, v); }
    forall k': Key, w: Block | k' != BLANK && k' != KeyOf(c, b)
      ensures Shows(c, n, disk, k', w) <==> Shows(c', n, disk, k', w) {
      OtherShows(c, n, disk, c', disk, b, k', w);
    }
  }

  /** Writing a buffer to disk. */
  lemma WriteKeeps(c: Bufs, n: int, disk: Disk, b: int)
    requires Coherent(c, n, disk) && 0 <= b < n && c.valid[b]
    ensures var disk' := disk[KeyOf(c, b) := c.data[b]]; Coherent(c, n, disk') && SameView(c, disk, c, disk', n, None)
  {
    var disk' := disk[KeyOf(c, b) := c.data[b]];
    forall a | 0 <= a < n ensures CleanAt(c, n, disk', a) { assert CleanAt(c, n, disk, a) && OneAt(c, n, b, a); }
    forall k': Key, v: Block | k' != BLANK ensures Shows(c, n, disk, k', v) <==> Shows(c, n, disk', k', v) {
      if k' == KeyOf(c, b) {
        HolderShows(c, n, disk, b, v);
        HolderShows(c, n, disk', b, v);
      } else {
        OtherShows(c, n, disk, c, disk', b, k', v);
      }
    }
  }

  /** A new count for a buffer changes what no block shows. */
  lemma CountShows(c: Bufs, n: int, disk: Disk, b: int, r: int)
    requires Shape(c, n) && 0 <= b < n
    ensures SameView(c, disk, c.(refcnt := c.refcnt[b := r]), disk, n, None)
  {
    var c' := c.(refcnt := c.refcnt[b := r]);
    forall k': Key, v: Block | k' != BLANK ensures Shows(c, n, disk, k', v) <==> Shows(c', n, disk, k', v) {
      forall a ensures Holds(c', n, k', a) <==> Holds(c, n, k', a) {}
    }
  }

  /** With that count, may the cache forget what is in the buffer? Only if it is on disk too. */
  predicate Forgets(c: Bufs, n: int, disk: Disk, b: int, r: int)
    requires Shape(c, n) && 0 <= b < n
  {
    r <= 0 && c.valid[b] && KeyOf(c, b) != BLANK ==> KeyOf(c, b) in disk && disk[KeyOf(c, b)] == c.data[b]
  }

  /** The count may fall to none exactly if the buffer agrees with the disk. */
  lemma CountKeepsIff(c: Bufs, n: int, disk: Disk, b: int, r: int)
    requires Coherent(c, n, disk) && 0 <= b < n
    ensures Coherent(c.(refcnt := c.refcnt[b := r]), n, disk) <==> Forgets(c, n, disk, b, r)
  {
    var c' := c.(refcnt := c.refcnt[b := r]);
    forall a, d | 0 <= a < n && 0 <= d < n ensures OneAt(c', n, a, d) { assert OneAt(c, n, a, d); }
    forall a | 0 <= a < n && a != b ensures CleanAt(c', n, disk, a) { assert CleanAt(c, n, disk, a); }
    assert CleanAt(c', n, disk, b) <==> Forgets(c, n, disk, b, r);
  }

  lemma SameSelf(c: Bufs, disk: Disk, n: int)
    requires Shape(c, n)
    ensures SameView(c, disk, c, disk, n, None)
  {
  }

  lemma SameTrans(c: Bufs, d: Disk, c1: Bufs, d1: Disk, c2: Bufs, d2: Disk, n: int)
    requires Shape(c, n) && Shape(c1, n) && Shape(c2, n) && SameView(c, d, c1, d1, n, None)
             && SameView(c1, d1, c2, d2, n, None)
    ensures SameView(c, d, c2, d2, n, None)
  {
    forall k: Key, v: Block | k != BLANK ensures Shows(c, n, d, k, v) <==> Shows(c2, n, d2, k, v) {
      assert Shows(c1, n, d1, k, v) <==> Shows(c, n, d, k, v);
    }
  }

  // ---- the ring of the cache, in the order of last release ----

  ghost predicate Sorted(order: seq<int>, stamp: seq<int>, clock: int) {
    && (forall i | 0 <= i < |order| :: 0 <= order[i] < |stamp| && stamp[order[i]] < clock)
    && (forall i, j | 0 <= i < j < |order| :: stamp[order[i]] > stamp[order[j]])
  }

  /** The list is a ring over exactly the n buffers, from the last released to the first. */
  ghost predicate RingOk(n: int, next: seq<int>, prev: seq<int>, order: seq<int>, stamp: seq<int>, clock: int) {
    && |next| == |prev| == n + 1 && |stamp| == n && Linked(n, next, prev, order)
    && (forall b {:trigger b in order} | 0 <= b < n :: b in order) && Sorted(order, stamp, clock)
  }

  lemma StillIn(order: seq<int>, k: int, a: int)
    requires 0 <= k < |order| && a in order
    ensures a in [order[k]] + Without(order, k)
  {
    var i :| 0 <= i < |order| && order[i] == a;
    var r := Without(order, k);
    if i != k { assert r[if i < k then i else i - 1] == a; }
  }

  lemma FrontSorted(order: seq<int>, stamp: seq<int>, clock: int, b: int)
    requires Sorted(order, stamp, clock) && b !in order && 0 <= b < |stamp|
    ensures Sorted([b] + order, stamp[b := clock], clock + 1)
  {
    var order', stamp' := [b] + order, stamp[b := clock];
    forall i | 0 <= i < |order| ensures order[i] != b && stamp'[order[i]] == stamp[order[i]] {}
    forall i, j | 0 <= i < j < |order'| ensures stamp'[order'[i]] > stamp'[order'[j]] {
      if i > 0 { assert stamp[order[i - 1]] > stamp[order[j - 1]]; }
    }
  }

  lemma OutSorted(order: seq<int>, stamp: seq<int>, clock: int, k: int)
    requires Sorted(order, stamp, clock) && 0 <= k < |order|
    ensures Sorted(Without(order, k), stamp, clock)
  {
    var r := Without(order, k);
    forall i, j | 0 <= i < j < |r| ensures stamp[r[i]] > stamp[r[j]] {
      var x, y := if i < k then i else i + 1, if j < k then j else j + 1;
      assert stamp[order[x]] > stamp[order[y]];
    }
  }

  /** Moving the buffer at position k to the front, released at time clock. */
  lemma MovedSorted(order: seq<int>, stamp: seq<int>, clock: int, k: int)
    requires Sorted(order, stamp, clock) && 0 <= k < |order|
             && Distinct(order)
    ensures Sorted([order[k]] + Without(order, k), stamp[order[k] := clock], clock + 1)
  {
    OutSorted(order, stamp, clock, k);
    FrontSorted(Without(order, k), stamp, clock, order[k]);
  }

  /** The buffers when the system starts. */
  predicate Fresh(c: Bufs, n: int) {
    Shape(c, n) && forall b | 0 <= b < n :: c.dev[b] == 0 && c.blk[b] == 0 && !c.valid[b] && c.refcnt[b] == 0
  }

  class Cache {
    const n: nat
    var next: seq<int>
    var prev: seq<int>
    var bufs: Bufs
    var disk: Disk
    ghost var order: seq<int>
    ghost var stamp: seq<int>
    ghost var clock: int

    ghost predicate Valid()
      reads this
    {
      RingOk(n, next, prev, order, stamp, clock) && Coherent(bufs, n, disk)
    }

    constructor (n: nat, disk: Disk)
      ensures Valid() && this.n == n && this.disk == disk && Fresh(bufs, n) && Keys(bufs, n) == seq(n, _ => BLANK)
    {
      this.n := n;
      this.disk := disk;
      bufs := Bufs(seq(n, _ => 0), seq(n, _ => 0), seq(n, _ => false), seq(n, _ => 0), seq(n, _ => []));
      next, prev := seq(n + 1, _ => n), seq(n + 1, _ => n);
      order, stamp, clock := [], seq(n, _ => 0), 0;
      new;
      Binit();
      forall a, b | 0 <= a < n && 0 <= b < n ensures OneAt(bufs, n, a, b) {}
    }

    /** binit: the buffers are put in at the head one after the other. */
    method Binit()
      requires |next| == |prev| == n + 1 && |stamp| == n && order == [] && clock == 0 && next[n] == prev[n] == n
      modifies `next, `prev, `order, `stamp, `clock
      ensures RingOk(n, next, prev, order, stamp, clock)
    {
      assert NextAt(n, next, order, -1) && PrevAt(n, prev, order, 0);
      var b := 0;
      while b < n
        invariant 0 <= b <= n && |next| == |prev| == n + 1 && |stamp| == n
        invariant Linked(n, next, prev, order) && Sorted(order, stamp, clock)
        invariant forall a {:trigger a in order} :: a in order <==> 0 <= a < b
      {
        PutNew(b);
        b := b + 1;
      }
    }

    /** Puts b in at the head, as the last one released. */
    method PutNew(b: int)
      requires Linked(n, next, prev, order) && |next| == n + 1 && |stamp| == n && 0 <= b < n && b !in order
               && Sorted(order, stamp, clock)
      modifies `next, `prev, `order, `stamp, `clock
      ensures Linked(n, next, prev, order) && |next| == |prev| == n + 1 && order == [b] + old(order)
      ensures |stamp| == n && Sorted(order, stamp, clock)
    {
      FrontSorted(order, stamp, clock, b);
      PutIn(b);
      stamp, clock := stamp[b := clock], clock + 1;
    }

    /** Puts b in at the head. */
    method PutIn(b: int)
      requires Linked(n, next, prev, order) && |next| == n + 1 && 0 <= b < n && b !in order
      modifies `next, `prev, `order
      ensures Linked(n, next, prev, order) && |next| == |prev| == n + 1 && order == [b] + old(order)
    {
      PutFirst(n, next, prev, order, b);
      ghost var next1, prev1 := NextIn(n, next, b), PrevIn(n, next, prev, b);
      next := next[b := next[n]];
      prev := prev[b := n];
      prev := prev[next[n] := b];
      next := next[n := b];
      assert next == next1 && prev == prev1;
      order := [b] + order;
    }

    /** Takes b, which is at position k, out. */
    method TakeAway(b: int, ghost k: int)
      requires Linked(n, next, prev, order) && |next| == n + 1 && 0 <= k < |order| && b == order[k]
      modifies `next, `prev, `order
      ensures Linked(n, next, prev, order) && |next| == |prev| == n + 1 && order == Without(old(order), k)
              && b !in order
    {
      Around(n, next, prev, order, k);
      TakeOut(n, next, prev, order, k);
      ghost var next1, prev1 := NextOut(next, prev, b), PrevOut(next, prev, b);
      prev := prev[next[b] := prev[b]];
      next := next[prev[b] := next[b]];
      assert next == next1 && prev == prev1;
      order := Without(order, k);
    }

    /** The buffer of block k, or -1: the list from the head on. */
    method Find(k: Key) returns (b: int)
      requires Valid()
      ensures b == -1 ==> forall a | 0 <= a < n :: KeyOf(bufs, a) != k
      ensures b != -1 ==> 0 <= b < n && KeyOf(bufs, b) == k
    {
      ghost var i := 0;
      assert NextAt(n, next, order, -1);
      b := next[n];
      while b != n
        invariant 0 <= i <= |order| && b == Pos(n, order, i)
        invariant forall j | 0 <= j < i :: KeyOf(bufs, order[j]) != k
        decreases |order| - i
      {
        if KeyOf(bufs, b) == k {
          return;
        }
        assert NextAt(n, next, order, i);
        b := next[b];
        i := i + 1;
      }
      forall a | 0 <= a < n ensures KeyOf(bufs, a) != k { assert a in order; }
      b := -1;
    }

    /** The unused buffer released longest ago, or -1: the list from its end back. */
    method FindUnused() returns (b: int)
      requires Valid()
      ensures b == -1 ==> forall a | 0 <= a < n :: bufs.refcnt[a] != 0
      ensures b != -1 ==>
                0 <= b < n && bufs.refcnt[b] == 0
                && forall a | 0 <= a < n && bufs.refcnt[a] == 0 && a != b :: stamp[b] < stamp[a]
    {
      ghost var i := |order| - 1;
      assert PrevAt(n, prev, order, |order|);
      b := prev[n];
      while b != n
        invariant -1 <= i < |order| && b == Pos(n, order, i)
        invariant forall j | i < j < |order| :: bufs.refcnt[order[j]] != 0
        decreases i
      {
        if bufs.refcnt[b] == 0 {
          forall a | 0 <= a < n && bufs.refcnt[a] == 0 && a != b ensures stamp[b] < stamp[a] {
            assert a in order;
            var j :| 0 <= j < |order| && order[j] == a;
            assert stamp[order[j]] > stamp[order[i]];
          }
          return;
        }
        assert PrevAt(n, prev, order, i);
        b := prev[b];
        i := i - 1;
      }
      forall a | 0 <= a < n ensures bufs.refcnt[a] != 0 { assert a in order; }
      b := -1;
    }

    /** The buffer for block k, found or recycled; None where the kernel panics because every buffer is in use. */
    method Bget(k: Key) returns (r: Option<int>)
      requires Valid()
      modifies `bufs
      ensures Valid() && SameView(old(bufs), disk, bufs, disk, n, None)
      ensures Relabelled(Keys(old(bufs), n), Keys(bufs, n))
      ensures r.None? <==> forall a | 0 <= a < n :: old(KeyOf(bufs, a)) != k && old(bufs).refcnt[a] != 0
      ensures r.None? ==> bufs == old(bufs)
      ensures r.Some? ==>
                0 <= r.value < n && KeyOf(bufs, r.value) == k && bufs.refcnt[r.value] == old(bufs).refcnt[r.value] + 1
      ensures r.Some? && (exists a | 0 <= a < n :: old(KeyOf(bufs, a)) == k) ==>
                old(KeyOf(bufs, r.value)) == k
                && bufs == old(bufs).(refcnt := old(bufs).refcnt[r.value := old(bufs).refcnt[r.value] + 1])
      ensures r.Some? && (forall a | 0 <= a < n :: old(KeyOf(bufs, a)) != k) ==>
                && bufs == Recycled(old(bufs), n, r.value, k) && old(bufs).refcnt[r.value] == 0
                && forall a | 0 <= a < n && old(bufs).refcnt[a] == 0 && a != r.value :: stamp[r.value] < stamp[a]
    {
      var b := Find(k);
      if b != -1 {
        assert CleanAt(bufs, n, disk, b);
        CountShows(bufs, n, disk, b, bufs.refcnt[b] + 1);
        CountKeepsIff(bufs, n, disk, b, bufs.refcnt[b] + 1);
        bufs := bufs.(refcnt := bufs.refcnt[b := bufs.refcnt[b] + 1]);
        assert Keys(bufs, n) == Keys(old(bufs), n);
        return Some(b);
      }
      b := FindUnused();
      if b != -1 {
        RecycleKeeps(bufs, n, disk, b, k);
        RecycleRelabels(bufs, n, b, k);
        bufs := bufs.(dev := bufs.dev[b := k.0], blk := bufs.blk[b := k.1], valid := bufs.valid[b := false],
          refcnt := bufs.refcnt[b := 1]);
        return Some(b);
      }
      SameSelf(bufs, disk, n);
      return None;
    }

    /** Reads the block of a buffer into it, unless it has been read already. */
    method Load(b: int)
      requires Valid() && 0 <= b < n && KeyOf(bufs, b) in disk
      modifies `bufs
      ensures Valid() && SameView(old(bufs), disk, bufs, disk, n, None) && Keys(bufs, n) == Keys(old(bufs), n)
      ensures bufs.valid[b] && bufs.refcnt == old(bufs).refcnt
              && forall a | 0 <= a < n :: KeyOf(bufs, a) == old(KeyOf(bufs, a))
    {
      if bufs.valid[b] {
        SameSelf(bufs, disk, n);
      } else {
        LoadKeeps(bufs, n, disk, b);
        bufs := bufs.(valid := bufs.valid[b := true], data := bufs.data[b := disk[KeyOf(bufs, b)]]);
      }
      assert Keys(bufs, n) == Keys(old(bufs), n);
    }

    /** The buffer for block k with what the block shows in it; nothing shows differently for it. */
    method Bread(k: Key) returns (r: Option<int>)
      requires Valid() && k in disk
      modifies `bufs
      ensures Valid() && SameView(old(bufs), disk, bufs, disk, n, None) && Relabelled(Keys(old(bufs), n), Keys(bufs, n))
      ensures r.Some? ==> 0 <= r.value < n && KeyOf(bufs, r.value) == k && bufs.valid[r.value]
      ensures r.Some? && k != BLANK ==> Shows(old(bufs), n, disk, k, bufs.data[r.value])
      ensures r.Some? && (exists a | 0 <= a < n :: old(KeyOf(bufs, a)) == k) ==> old(KeyOf(bufs, r.value)) == k
      ensures r.Some? && (forall a | 0 <= a < n :: old(KeyOf(bufs, a)) != k) ==>
                old(bufs).refcnt[r.value] == 0
                && forall a | 0 <= a < n && old(bufs).refcnt[a] == 0 && a != r.value :: stamp[r.value] < stamp[a]
      ensures r.None? <==> forall a | 0 <= a < n :: old(KeyOf(bufs, a)) != k && old(bufs).refcnt[a] != 0
      ensures r.None? ==> bufs == old(bufs)
      ensures r.Some? ==>
                forall a | 0 <= a < n && a != r.value ::
                         bufs.refcnt[a] == old(bufs).refcnt[a] && KeyOf(bufs, a) == old(KeyOf(bufs, a))
      ensures r.Some? ==> bufs.refcnt[r.value] == old(bufs).refcnt[r.value] + 1
    {
      r := Bget(k);
      if r.None? {
        return;
      }
      var b := r.value;
      ghost var got := bufs;
      Load(b);
      SameTrans(old(bufs), disk, got, disk, bufs, disk, n);
      if k != BLANK {
        HolderShows(bufs, n, disk, b, bufs.data[b]);
        assert Shows(bufs, n, disk, k, bufs.data[b]);
      }
    }

    /** The holder of a buffer changes it: its block shows the new contents, and no other block changes. */
    method Store(b: int, v: Block)
      requires Valid() && 0 <= b < n && bufs.valid[b] && bufs.refcnt[b] > 0
      modifies `bufs
      ensures Valid() && bufs == Loaded(old(bufs), n, b, v) && Keys(bufs, n) == Keys(old(bufs), n)
      ensures KeyOf(bufs, b) != BLANK ==> Shows(bufs, n, disk, KeyOf(bufs, b), v)
      ensures SameView(old(bufs), disk, bufs, disk, n, Some(KeyOf(bufs, b)))
    {
      StoreKeeps(bufs, n, disk, b, v);
      bufs := bufs.(data := bufs.data[b := v]);
      assert bufs == Loaded(old(bufs), n, b, v);
    }

    method Bwrite(b: int)
      requires Valid() && 0 <= b < n && bufs.valid[b]
      modifies `disk
      ensures Valid() && disk == old(disk)[KeyOf(bufs, b) := bufs.data[b]]
              && SameView(bufs, old(disk), bufs, disk, n, None)
    {
      WriteKeeps(bufs, n, disk, b);
      disk := disk[KeyOf(bufs, b) := bufs.data[b]];
    }

    /** Takes b out of the list and puts it in at the head. */
    method ToFront(b: int)
      requires RingOk(n, next, prev, order, stamp, clock) && 0 <= b < n
      modifies `next, `prev, `order, `stamp, `clock
      ensures RingOk(n, next, prev, order, stamp, clock) && order != [] && order[0] == b
      ensures forall a | 0 <= a < n && a != b :: stamp[a] == old(stamp[a]) && stamp[a] < stamp[b]
    {
      assert b in order;
      ghost var k :| 0 <= k < |order| && order[k] == b;
      forall a | 0 <= a < n ensures stamp[a] < clock && a in [b] + Without(order, k) {
        assert a in order;
        StillIn(order, k, a);
      }
      MovedSorted(order, stamp, clock, k);
      TakeAway(b, k);
      PutIn(b);
      stamp, clock := stamp[b := clock], clock + 1;
    }

    /** Lets go of a buffer, which becomes the most recently used if nobody else has it. The cache stays in agreement
        with the disk exactly if a buffer let go of by its last holder does. */
    method Brelse(b: int)
      requires Valid() && 0 <= b < n
      modifies `bufs, `next, `prev, `order, `stamp, `clock
      ensures bufs == old(bufs).(refcnt := old(bufs).refcnt[b := old(bufs).refcnt[b] - 1])
      ensures RingOk(n, next, prev, order, stamp, clock) && Keys(bufs, n) == Keys(old(bufs), n)
      ensures SameView(old(bufs), disk, bufs, disk, n, None)
      ensures Valid() <==> Forgets(old(bufs), n, disk, b, bufs.refcnt[b])
      ensures bufs.refcnt[b] == 0 ==>
                order != [] && order[0] == b
                && forall a | 0 <= a < n && a != b :: stamp[a] == old(stamp[a]) && stamp[a] < stamp[b]
      ensures bufs.refcnt[b] != 0 ==> order == old(order) && stamp == old(stamp)
    {
      CountShows(bufs, n, disk, b, bufs.refcnt[b] - 1);
      CountKeepsIff(bufs, n, disk, b, bufs.refcnt[b] - 1);
      bufs := bufs.(refcnt := bufs.refcnt[b := bufs.refcnt[b] - 1]);
      assert Keys(bufs, n) == Keys(old(bufs), n);
      if bufs.refcnt[b] == 0 {
        ToFront(b);
      }
    }

    /** One pin more; one that makes up for a wrapped count needs a buffer that agrees with the disk. */
    method Bpin(b: int)
      requires Valid() && 0 <= b < n
      modifies `bufs
      ensures Valid() && bufs == old(bufs).(refcnt := old(bufs).refcnt[b := old(bufs).refcnt[b] + 1])
      ensures SameView(old(bufs), disk, bufs, disk, n, None) && Keys(bufs, n) == Keys(old(bufs), n)
    {
      assert CleanAt(bufs, n, disk, b);
      CountShows(bufs, n, disk, b, bufs.refcnt[b] + 1);
      CountKeepsIff(bufs, n, disk, b, bufs.refcnt[b] + 1);
      bufs := bufs.(refcnt := bufs.refcnt[b := bufs.refcnt[b] + 1]);
    }

    /** One pin fewer. The cache stays in agreement with the disk exactly if a buffer left with none does. */
    method Bunpin(b: int)
      requires Valid() && 0 <= b < n
      modifies `bufs
      ensures bufs == old(bufs).(refcnt := old(bufs).refcnt[b := old(bufs).refcnt[b] - 1])
      ensures SameView(old(bufs), disk, bufs, disk, n, None) && Keys(bufs, n) == Keys(old(bufs), n)
      ensures Valid() <==> Forgets(old(bufs), n, disk, b, bufs.refcnt[b])
    {
      CountShows(bufs, n, disk, b, bufs.refcnt[b] - 1);
      CountKeepsIff(bufs, n, disk, b, bufs.refcnt[b] - 1);
      bufs := bufs.(refcnt := bufs.refcnt[b := bufs.refcnt[b] - 1]);
    }
  }

  // ---- exactly which blocks may be in two buffers ----

  function Keys(c: Bufs, n: int): (ks: seq<Key>)
    requires Shape(c, n)
    ensures |ks| == n && forall b | 0 <= b < n :: ks[b] == KeyOf(c, b)
  {
    seq(n, b requires 0 <= b < n => KeyOf(c, b))
  }

  /** What any operation does to the labels: at most one buffer is given to a block that has none. */
  ghost predicate Relabelled(ks: seq<Key>, ks': seq<Key>) {
    ks' == ks || exists b, k :: GivenTo(ks, ks', b, k)
  }

  predicate GivenTo(ks: seq<Key>, ks': seq<Key>, b: int, k: Key) {
    0 <= b < |ks| && k !in ks && ks' == ks[b := k]
  }

  lemma RecycleRelabels(c: Bufs, n: int, b: int, k: Key)
    requires Shape(c, n) && 0 <= b < n && forall a | 0 <= a < n :: KeyOf(c, a) != k
    ensures Relabelled(Keys(c, n), Keys(Recycled(c, n, b, k), n))
  {
    assert GivenTo(Keys(c, n), Keys(Recycled(c, n, b, k), n), b, k);
  }

  /** The labels of n buffers over the life of a cache. */
  ghost predicate Life(kss: seq<seq<Key>>, n: nat) {
    && kss != [] && kss[0] == seq(n, _ => BLANK)
    && forall i | 0 < i < |kss| :: Relabelled(kss[i - 1], kss[i])
  }

  predicate Twice(ks: seq<Key>, k: Key) {
    exists a, b | 0 <= a < b < |ks| :: ks[a] == ks[b] == k
  }

  lemma {:induction false} LifeOnce(kss: seq<seq<Key>>, n: nat, k: Key, i: nat)
    requires Life(kss, n) && i < |kss| && k != BLANK
    ensures !Twice(kss[i], k)
  {
    if i > 0 {
      LifeOnce(kss, n, k, i - 1);
      assert Relabelled(kss[i - 1], kss[i]);
    }
  }

  /** A block is in two buffers at some time in the life of some cache if and only if it is block 0 of device 0. */
  lemma TwiceIff(n: nat, k: Key)
    requires n >= 2
    ensures (exists kss, i: nat | Life(kss, n) && i < |kss| :: Twice(kss[i], k)) <==> k == BLANK
  {
    if k == BLANK {
      var ks := seq(n, _ => BLANK);
      assert ks[0] == ks[1] == k;
      assert Life([ks], n) && Twice([ks][0], k);
    } else {
      forall kss, i: nat | Life(kss, n) && i < |kss| ensures !Twice(kss[i], k) { LifeOnce(kss, n, k, i); }
    }
  }
}
