/** Allocating blocks, mapping, reading, writing and truncating files, as the kernel does it in place. */
module FileSystem {

  import opened Basics
  import opened Inode


  /** The most bytes filewrite puts in one transaction. */
  const CHUNK := (MAXOPBLOCKS - 1 - 1 - 2) / 2 * BSIZE

  function Min(a: int, b: int): (r: int) {
    if a < b then a else b
  }

  function Max(a: int, b: int): (r: int) {
    if a < b then b else a
  }

  /** The bitmap block for block b. */
  function BitBlock(sb: Super, b: int): (r: int) {
    b / BPB + sb.bmapstart
  }

  /** A block and the bitmap block that records its allocation. */
  function WithBit(sb: Super, b: int): (r: set<int>) {
    {b, BitBlock(sb, b)}
  }

  /** What an indirect block, if there is one, adds to a transaction. */
  function Indirect(sb: Super, ind: int): (r: set<int>) {
    if ind == 0 then {} else WithBit(sb, ind)
  }

  /** What a read of n bytes at off should deliver from a file with contents f. */
  function Slice(f: seq<int>, off: int, n: int): (r: seq<int>)
    requires 0 <= off && 0 <= n
  {
    if off > |f| || off + n >= 0x1_0000_0000 then [] else f[off..Min(off + n, |f|)]
  }

  lemma SliceMore(f: seq<int>, off: int, n: int, tot: int, m: int)
    requires 0 <= off <= |f| && 0 <= n && off + n < 0x1_0000_0000 && 0 <= tot && 0 <= m && tot + m <= Min(n, |f| - off)
    ensures Slice(f, off, n)[..tot] + f[off + tot..off + tot + m] == Slice(f, off, n)[..tot + m]
  {
  }

  /** f with s written over it from off on. */
  function Overwrite(f: seq<int>, off: int, s: seq<int>): (r: seq<int>)
    requires 0 <= off <= |f|
    ensures |r| == Max(|f|, off + |s|)
    ensures forall x | 0 <= x < |r| :: r[x] == if off <= x < off + |s| then s[x - off] else f[x]
  {
    f[..off] + s + if off + |s| < |f| then f[off + |s|..] else []
  }

  /** The sum of two 32-bit counts, which wraps around. */
  function Add32(a: int, b: int): (r: int)
    requires 0 <= a < 0x1_0000_0000 && 0 <= b < 0x1_0000_0000
    ensures r < a <==> a + b >= 0x1_0000_0000
  {
    (a + b) % 0x1_0000_0000
  }

  lemma ExtendsSelf(data: seq<Block>, addrs: seq<seq<int>>)
    requires forall x | 0 <= x < |addrs| :: |addrs[x]| == NDIRECT + 1
    ensures Extends(data, addrs, data, addrs)
  {
    forall x, y | 0 <= x < |addrs| && 0 <= y < SLOTS ensures KeptAt(data, addrs, data, addrs, x, y) {}
  }

  lemma StillGood(sb: Super, used: seq<bool>, data: seq<Block>, addrs: seq<seq<int>>, size: seq<int>, oi: seq<int>,
                  os: seq<int>,
                  used': seq<bool>, data': seq<Block>, addrs': seq<seq<int>>, oi': seq<int>, os': seq<int>)
    requires Good(sb, used, data, addrs, size, oi, os) && Extends(data, addrs, data', addrs')
             && Owned(sb, used', data', addrs', oi', os')
    ensures Good(sb, used', data', addrs', size, oi', os')
  {
    forall i | 0 <= i < |addrs| ensures Filled(data', addrs', size[i], i) {
      ExtendsFiles(sb, used, data, addrs, size, oi, os, data', addrs', i);
    }
  }

  lemma SameBlock(o: int, x: int)
    requires 0 <= o && 0 <= x < BSIZE - o % BSIZE
    ensures (o + x) / BSIZE == o / BSIZE && (o + x) % BSIZE == o % BSIZE + x
  {
  }

  /** Where a write of src at off into file i stands after tot bytes, from the disk (data, addrs) it began with. */
  ghost predicate Written(data: seq<Block>, addrs: seq<seq<int>>, size: seq<int>, data': seq<Block>,
                          addrs': seq<seq<int>>, i: int, off: int, src: seq<int>, tot: int) {
    && 0 <= i < |addrs| == |addrs'| == |size| && 0 <= off <= size[i] && 0 <= tot <= |src|
    && off + tot <= MAXFILE * BSIZE
    && (forall x | 0 <= x < |addrs| ::
         |addrs[x]| == NDIRECT + 1 && |addrs'[x]| == NDIRECT + 1 && 0 <= size[x] <= MAXFILE * BSIZE)
    && Filled(data', addrs', Max(size[i], off + tot), i)
    && (forall y {:trigger ByteAt(data', addrs', i, y)} | 0 <= y < Max(size[i], off + tot) ::
          ByteAt(data', addrs', i, y) == if off <= y < off + tot then src[y - off] else ByteAt(data, addrs, i, y))
    && (forall x, y {:trigger ByteAt(data', addrs', x, y)} | 0 <= x < |addrs| && x != i && 0 <= y < size[x] ::
          ByteAt(data', addrs', x, y) == ByteAt(data, addrs, x, y))
  }

  /** Bytes of blocks that are there survive the filling of empty slots. */
  lemma ExtendsByte(sb: Super, used: seq<bool>, data: seq<Block>, addrs: seq<seq<int>>, oi: seq<int>, os: seq<int>,
                    data': seq<Block>, addrs': seq<seq<int>>, i: int, n: int, y: int)
    requires Owned(sb, used, data, addrs, oi, os) && Extends(data, addrs, data', addrs') && 0 <= i < |addrs|
    requires Filled(data, addrs, n, i) && 0 <= y < n <= MAXFILE * BSIZE
    ensures ByteAt(data', addrs', i, y) == ByteAt(data, addrs, i, y)
  {
    assert FilledAt(data, addrs, n, i, y / BSIZE);
    assert KeptAt(data, addrs, data', addrs', i, Slot(y / BSIZE));
    assert RefAt(sb, used, data, addrs, oi, os, i, Slot(y / BSIZE));
  }

  lemma ExtendsFilled(data: seq<Block>, addrs: seq<seq<int>>, data': seq<Block>, addrs': seq<seq<int>>, i: int, n: int)
    requires Extends(data, addrs, data', addrs') && 0 <= i < |addrs| && Filled(data, addrs, n, i)
    ensures Filled(data', addrs', n, i)
  {
    forall bn ensures FilledAt(data', addrs', n, i, bn) {
      assert FilledAt(data, addrs, n, i, bn);
      assert 0 <= bn < MAXFILE ==> KeptAt(data, addrs, data', addrs', i, Slot(bn));
    }
  }

  lemma WrittenExtends(sb: Super, used: seq<bool>, data1: seq<Block>, addrs1: seq<seq<int>>, oi: seq<int>, os: seq<int>,
                       data: seq<Block>, addrs: seq<seq<int>>, size: seq<int>, data': seq<Block>,
                         addrs': seq<seq<int>>, i: int, off: int, src: seq<int>, tot: int)
    requires Good(sb, used, data1, addrs1, size, oi, os) && Written(data, addrs, size, data1, addrs1, i, off, src, tot)
    requires Extends(data1, addrs1, data', addrs')
    ensures Written(data, addrs, size, data', addrs', i, off, src, tot)
  {
    var n := Max(size[i], off + tot);
    ExtendsFilled(data1, addrs1, data', addrs', i, n);
    forall y | 0 <= y < n ensures ByteAt(data', addrs', i, y) == ByteAt(data1, addrs1, i, y) {
      ExtendsByte(sb, used, data1, addrs1, oi, os, data', addrs', i, n, y);
    }
    forall x, y | 0 <= x < |addrs| && x != i && 0 <= y < size[x]
      ensures ByteAt(data', addrs', x, y) == ByteAt(data1, addrs1, x, y) {
      ExtendsByte(sb, used, data1, addrs1, oi, os, data', addrs', x, size[x], y);
    }
  }

  /** One more piece, within one block, written in place. */
  lemma WrittenMore(sb: Super, used: seq<bool>, data1: seq<Block>, addrs1: seq<seq<int>>, oi: seq<int>, os: seq<int>,
                    data: seq<Block>, addrs: seq<seq<int>>, size: seq<int>, i: int, off: int, src: seq<int>, tot: int,
                      m: int, r: int, v: Block)
    requires Good(sb, used, data1, addrs1, size, oi, os) && Written(data, addrs, size, data1, addrs1, i, off, src, tot)
    requires 1 <= m <= BSIZE - (off + tot) % BSIZE && tot + m <= |src| && off + tot + m <= MAXFILE * BSIZE
    requires r == Ref(data1, addrs1, i, Slot((off + tot) / BSIZE)) && 0 < r < |data1| && Bytes(v)
    requires v == Patch(data1[r], (off + tot) % BSIZE, src[tot..tot + m])
    ensures Good(sb, used, data1[r := v], addrs1, size, oi, os)
            && Written(data, addrs, size, data1[r := v], addrs1, i, off, src, tot + m)
  {
    var o := off + tot;
    var bn := o / BSIZE;
    var data' := data1[r := v];
    assert RefAt(sb, used, data1, addrs1, oi, os, i, Slot(bn));
    DataWrite(sb, used, data1, addrs1, oi, os, r, v);
    forall x | 0 <= x < |addrs1|
      ensures Filled(data', addrs1, if x == i then Max(size[i], o + m) else size[x], x)
              && Filled(data', addrs1, size[x], x) {
      FilledMore(data1, addrs1, data', x, if x == i then Max(size[i], o)
      else size[x], if x == i then Max(size[i], o + m) else size[x], o, m);
      FilledMore(data1, addrs1, data', x, size[x], size[x], o, m);
    }
    forall y | 0 <= y < Max(size[i], o + m)
      ensures ByteAt(data', addrs1, i, y) == if off <= y < o + m then src[y - off] else ByteAt(data, addrs, i, y)
    {
      WriteBytes(sb, used, data1, addrs1, oi, os, i, bn, r, v, i, y);
      PieceByte(sb, used, data1, addrs1, oi, os, data, addrs, size, i, off, src, tot, m, r, v, y);
    }
    forall x, y | 0 <= x < |addrs| && x != i && 0 <= y < size[x]
      ensures ByteAt(data', addrs1, x, y) == ByteAt(data, addrs, x, y) {
      WriteBytes(sb, used, data1, addrs1, oi, os, i, bn, r, v, x, y);
    }
  }

  lemma FilledMore(data1: seq<Block>, addrs1: seq<seq<int>>, data': seq<Block>, x: int, n: int, n': int, o: int, m: int)
    requires 0 <= x < |addrs1| && |addrs1[x]| == NDIRECT + 1 && Filled(data1, addrs1, n, x) && 0 <= o
             && SameBut(data1, addrs1, data', addrs1, -1, 0)
    requires n' == n || (n' == Max(n, o + m) && 1 <= m <= BSIZE - o % BSIZE && o / BSIZE < MAXFILE
             && Ref(data1, addrs1, x, Slot(o / BSIZE)) != 0 && n >= o)
    ensures Filled(data', addrs1, n', x)
  {
    forall bn ensures FilledAt(data', addrs1, n', x, bn) {
      assert FilledAt(data1, addrs1, n, x, bn);
      if 0 <= bn < MAXFILE && bn * BSIZE < n' {
        assert Ref(data', addrs1, x, Slot(bn)) == Ref(data1, addrs1, x, Slot(bn));
      }
    }
  }

  lemma PieceByte(sb: Super, used: seq<bool>, data1: seq<Block>, addrs1: seq<seq<int>>, oi: seq<int>, os: seq<int>,
                  data: seq<Block>, addrs: seq<seq<int>>, size: seq<int>, i: int, off: int, src: seq<int>, tot: int,
                    m: int, r: int, v: Block, y: int)
    requires Owned(sb, used, data1, addrs1, oi, os) && Written(data, addrs, size, data1, addrs1, i, off, src, tot)
    requires 1 <= m <= BSIZE - (off + tot) % BSIZE && tot + m <= |src| && off + tot + m <= MAXFILE * BSIZE
    requires r == Ref(data1, addrs1, i, Slot((off + tot) / BSIZE)) && 0 < r < |data1|
    requires v == Patch(data1[r], (off + tot) % BSIZE, src[tot..tot + m])
    requires 0 <= y < Max(size[i], off + tot + m)
    ensures (if y / BSIZE == (off + tot) / BSIZE then v[y % BSIZE] else ByteAt(data1, addrs1, i, y)) ==
            if off <= y < off + tot + m then src[y - off] else ByteAt(data, addrs, i, y)
  {
    var o := off + tot;
    if o <= y < o + m {
      SameBlock(o, y - o);
    } else {
      assert ByteAt(data1, addrs1, i, y) == if off <= y < off + tot then src[y - off] else ByteAt(data, addrs, i, y);
      if y / BSIZE == o / BSIZE {
        assert v[y % BSIZE] == data1[r][y % BSIZE];
      }
    }
  }

  ghost function AllFiles(data: seq<Block>, addrs: seq<seq<int>>, size: seq<int>): (r: seq<seq<int>>)
    requires |size| == |addrs| && forall x | 0 <= x < |addrs| :: |addrs[x]| == NDIRECT + 1 && 0 <= size[x]
    ensures |r| == |addrs| && forall x {:trigger r[x]} | 0 <= x < |r| :: r[x] == File(data, addrs, size, x)
  {
    seq(|addrs|, x requires 0 <= x < |addrs| => File(data, addrs, size, x))
  }

  lemma WrittenStart(sb: Super, used: seq<bool>, data: seq<Block>, addrs: seq<seq<int>>, size: seq<int>, oi: seq<int>,
                     os: seq<int>, i: int, off: int, src: seq<int>)
    requires Good(sb, used, data, addrs, size, oi, os) && 0 <= i < |addrs| && 0 <= off <= size[i]
    ensures Written(data, addrs, size, data, addrs, i, off, src, 0)
  {
  }

  /** File contents f after a write at off that put the bytes s in place, and moved the end of the file to cover tot of
      them at least. */
  function Stored(f: seq<int>, off: int, s: seq<int>, tot: int): (r: seq<int>)
    requires 0 <= off <= |f| && tot <= |s|
    ensures |r| == Max(|f|, off + tot)
    ensures forall x | 0 <= x < |r| :: r[x] == if off <= x < off + |s| then s[x - off] else f[x]
  {
    Overwrite(f, off, s)[..Max(|f|, off + tot)]
  }

  lemma StoredAll(f: seq<int>, off: int, s: seq<int>)
    requires 0 <= off <= |f|
    ensures Stored(f, off, s, |s|) == Overwrite(f, off, s)
  {
  }

  /** When the write is over, put bytes being in place, and the size is brought up to date for tot of them. */
  lemma WrittenDone(sb: Super, used: seq<bool>, data': seq<Block>, addrs': seq<seq<int>>, oi: seq<int>, os: seq<int>,
                    data: seq<Block>, addrs: seq<seq<int>>, size: seq<int>, i: int, off: int, src: seq<int>, put: int,
                      tot: int)
    requires Good(sb, used, data', addrs', size, oi, os) && Written(data, addrs, size, data', addrs', i, off, src, put)
             && 0 <= tot <= put
    ensures var size' := size[i := Max(size[i], off + tot)];
            && Good(sb, used, data', addrs', size', oi, os)
            && AllFiles(data', addrs', size') == AllFiles(data, addrs,
                 size)[i := Stored(File(data, addrs, size, i), off, src[..put], tot)]
  {
    var size' := size[i := Max(size[i], off + tot)];
    FilledLess(data', addrs', i, Max(size[i], off + put), size'[i]);
    var f, g := File(data, addrs, size, i), File(data', addrs', size', i);
    var h := Stored(f, off, src[..put], tot);
    forall y | 0 <= y < |g| ensures g[y] == h[y] {
      assert g[y] == ByteAt(data', addrs', i, y);
    }
    forall x | 0 <= x < |addrs| && x != i ensures File(data', addrs', size', x) == File(data, addrs, size, x) {
      var a, b := File(data', addrs', size', x), File(data, addrs, size, x);
      forall y | 0 <= y < size[x]
        ensures a[y] == b[y]
      {
        assert ByteAt(data', addrs', x, y) == ByteAt(data, addrs, x, y);
      }
    }
    var fs, gs := AllFiles(data, addrs, size), AllFiles(data', addrs', size');
    forall x | 0 <= x < |addrs| ensures gs[x] == fs[i := h][x] {
      assert gs[x] == File(data', addrs', size', x) && fs[x] == File(data, addrs, size, x);
    }
  }

  lemma FilledLess(data: seq<Block>, addrs: seq<seq<int>>, i: int, n: int, m: int)
    requires 0 <= i < |addrs| && |addrs[i]| == NDIRECT + 1 && 0 <= m <= n <= MAXFILE * BSIZE
             && Filled(data, addrs, n, i)
    ensures Filled(data, addrs, m, i)
  {
    forall bn | 0 <= bn < MAXFILE ensures FilledAt(data, addrs, m, i, bn) { assert FilledAt(data, addrs, n, i, bn); }
  }

  /** How many of n bytes a write at off counts as written when len of them can be copied from the caller: all, or those
      in the blocks that could be copied whole. */
  function Total(off: int, n: int, len: int): (tot: int)
    requires 0 <= off && 0 <= n && 0 <= len
    ensures 0 <= tot <= n && tot <= len && (tot == n <==> n <= len)
  {
    if n <= len then n else Max(0, (off + len) / BSIZE * BSIZE - off)
  }

  /** Pieces of a write end where blocks do. */
  predicate AtEdge(off: int, n: int, tot: int) {
    tot == 0 || tot == n || (off + tot) % BSIZE == 0
  }

  lemma TotalAt(off: int, n: int, len: int, tot: int, m: int)
    requires 0 <= off && 0 <= tot < n && tot <= len < tot + m && m <= BSIZE - (off + tot) % BSIZE && m <= n - tot
    requires AtEdge(off, n, tot)
    ensures tot == Total(off, n, len)
  {
    var o := off + tot;
    SameBlock(o, len - tot);
    if tot > 0 { assert o / BSIZE * BSIZE == o; } else { assert o / BSIZE * BSIZE <= o; }
  }

  lemma PieceEnds(o: int, n: int)
    requires 0 <= o && 0 < n
    ensures Piece(o, n) < n ==> (o + Piece(o, n)) % BSIZE == 0
  {
    assert o == o / BSIZE * BSIZE + o % BSIZE;
  }

  /** The size of the piece of an n-byte write that goes in the block of offset o. */
  function Piece(o: int, n: int): (m: int)
    requires 0 <= o
    ensures m <= BSIZE - o % BSIZE && m <= n && (n > 0 ==> m > 0)
  {
    Min(n, BSIZE - o % BSIZE)
  }

  /** The first offset from k on that cannot be copied from the caller, or e if there is none before. */
  function FirstBad(bad: set<int>, k: int, e: int): (x: int)
    requires k <= e
    ensures k <= x <= e && (forall y | k <= y < x :: y !in bad) && (x < e ==> x in bad)
    decreases e - k
  {
    if k == e || k in bad then k else FirstBad(bad, k + 1, e)
  }

  /** What a chunk of m bytes at k can copy before it comes to an offset in bad. */
  function Copied(src: seq<int>, bad: set<int>, k: int, m: int): (s: seq<int>)
    requires 0 <= k && 0 <= m && k + m <= |src|
  {
    src[k..FirstBad(bad, k, k + m)]
  }

  /** File contents f after a chunk of m bytes at k. */
  function AfterChunk(f: seq<int>, off: int, k: int, m: int, src: seq<int>, bad: set<int>): (g: seq<int>)
    requires 0 <= off && 0 <= k && 0 <= m && k + m <= |src| && off + k <= |f|
    ensures |f| <= |g| <= Max(|f|, off + k + m)
  {
    var s := Copied(src, bad, k, m);
    Stored(f, off + k, s, Total(off + k, m, |s|))
  }

  /** File contents f after filewrite's chunks from k on, and how many of the n bytes it has then counted as written: a
      chunk that is refused ends the write, one whose copy fails does not. */
  function Chunks(f: seq<int>, off: int, k: int, n: int, src: seq<int>, bad: set<int>): (r: (seq<int>, int))
    requires 0 <= off && 0 <= k && n <= |src|
    decreases n - k, 1
  {
    if n <= k || Refused(|f|, off + k, Min(n - k, CHUNK)) then (f, k) else ChunkAnd(f, off, k, n, src, bad)
  }

  function ChunkAnd(f: seq<int>, off: int, k: int, n: int, src: seq<int>, bad: set<int>): (r: (seq<int>, int))
    requires 0 <= off && 0 <= k < n <= |src| && off + k <= |f|
    decreases n - k, 0
  {
    var m := Min(n - k, CHUNK);
    Chunks(AfterChunk(f, off, k, m, src, bad), off, k + m, n, src, bad)
  }

  /** Byte x of a write gets to the file: no byte of its chunk up to itself is one that cannot be copied. */
  predicate Lands(bad: set<int>, x: int) {
    forall y | x / CHUNK * CHUNK <= y <= x :: y !in bad
  }

  function Landing(bad: set<int>, n: int): (r: set<int>) {
    set x | 0 <= x < n && Lands(bad, x)
  }

  predicate LandAt(f: seq<int>, g: seq<int>, off: int, k: int, e: int, src: seq<int>, land: set<int>, y: int)
    requires 0 <= k <= e <= |src| && 0 <= y < |g|
  {
    if off + k <= y < off + e && y - off in land then g[y] == src[y - off] else y < |f| && g[y] == f[y]
  }

  /** g is f but for those bytes, of the ones from k to e of a write of src at off, that are in `land`. */
  ghost predicate Landed(f: seq<int>, g: seq<int>, off: int, k: int, e: int, src: seq<int>, land: set<int>) {
    && 0 <= k <= e <= |src| && |f| <= |g| <= Max(|f|, off + e)
    && forall y {:trigger LandAt(f, g, off, k, e, src, land, y)} | 0 <= y < |g| ::
         LandAt(f, g, off, k, e, src, land, y)
  }

  predicate ChunkEdge(k: int, n: int) {
    k % CHUNK == 0 || k == n
  }

  lemma NextEdge(k: int, n: int)
    requires 0 <= k < n && ChunkEdge(k, n)
    ensures var m := Min(n - k, CHUNK); ChunkEdge(k, k + m) && ChunkEdge(k + m, n)
  {
  }

  lemma ChunkStart(k: int, x: int)
    requires 0 <= k && k % CHUNK == 0 && k <= x < k + CHUNK
    ensures x / CHUNK * CHUNK == k
  {
  }

  lemma ChunkLands(f: seq<int>, off: int, k: int, m: int, src: seq<int>, bad: set<int>)
    requires 0 <= off && 0 <= k < k + m <= |src| && m <= CHUNK && ChunkEdge(k, k + m) && off + k <= |f|
    ensures Landed(f, AfterChunk(f, off, k, m, src, bad), off, k, k + m, src, Landing(bad, |src|))
  {
    var b := FirstBad(bad, k, k + m);
    forall x | k <= x < k + m ensures Lands(bad, x) <==> x < b { ChunkStart(k, x); }
    var g, land := AfterChunk(f, off, k, m, src, bad), Landing(bad, |src|);
    var e := k + m;
    forall y | 0 <= y < |g| ensures LandAt(f, g, off, k, e, src, land, y) {
      assert off + k <= y < off + k + m ==> (y - off in land <==> y < off + b);
    }
  }

  lemma LandedMore(f: seq<int>, g: seq<int>, h: seq<int>, off: int, k: int, j: int, e: int, src: seq<int>,
                   land: set<int>)
    requires Landed(f, g, off, k, j, src, land) && Landed(g, h, off, j, e, src, land)
    ensures Landed(f, h, off, k, e, src, land)
  {
    forall y | 0 <= y < |h| ensures LandAt(f, h, off, k, e, src, land, y) {
      assert LandAt(g, h, off, j, e, src, land, y);
      assert y < |g| ==> LandAt(f, g, off, k, j, src, land, y);
    }
  }

  ghost predicate LandedTo(f: seq<int>, r: (seq<int>, int), off: int, k: int, n: int, src: seq<int>, land: set<int>) {
    k <= r.1 <= n && Landed(f, r.0, off, k, r.1, src, land)
  }

  lemma LandedThen(f: seq<int>, g: seq<int>, r: (seq<int>, int), off: int, k: int, j: int, n: int, src: seq<int>,
                   land: set<int>)
    requires Landed(f, g, off, k, j, src, land) && LandedTo(g, r, off, j, n, src, land)
    ensures LandedTo(f, r, off, k, n, src, land)
  {
    LandedMore(f, g, r.0, off, k, j, r.1, src, land);
  }

  lemma LandedSelf(f: seq<int>, off: int, k: int, src: seq<int>, land: set<int>)
    requires 0 <= k <= |src|
    ensures Landed(f, f, off, k, k, src, land)
  {
    forall y | 0 <= y < |f| ensures LandAt(f, f, off, k, k, src, land, y) {}
  }

  lemma ChunksStep(f: seq<int>, off: int, k: int, n: int, src: seq<int>, bad: set<int>)
    requires 0 <= off && 0 <= k < n <= |src|
    ensures var m := Min(n - k, CHUNK);
            Chunks(f, off, k, n, src, bad) ==
            if Refused(|f|, off + k, m) then (f, k)
               else Chunks(AfterChunk(f, off, k, m, src, bad), off, k + m, n, src, bad)
  {
  }

  /** The chunks from k on lead from f to r. */
  ghost predicate Lead(f: seq<int>, off: int, k: int, n: int, src: seq<int>, bad: set<int>, r: (seq<int>, int)) {
    0 <= off && 0 <= k && n <= |src| && Chunks(f, off, k, n, src, bad) == r
  }

  lemma LeadStep(f: seq<int>, off: int, k: int, n: int, src: seq<int>, bad: set<int>, r: (seq<int>, int), m: int)
    requires Lead(f, off, k, n, src, bad, r) && k < n && m == Min(n - k, CHUNK)
    ensures if Refused(|f|, off + k, m) then r == (f, k)
            else Lead(AfterChunk(f, off, k, m, src, bad), off, k + m, n, src, bad, r)
  {
    ChunksStep(f, off, k, n, src, bad);
  }

  /** Which bytes of a write get to the file, whatever could not be copied. */
  lemma {:induction false} ChunksLand(f: seq<int>, off: int, k: int, n: int, src: seq<int>, bad: set<int>)
    requires 0 <= off && 0 <= k <= n <= |src| && ChunkEdge(k, n)
    ensures LandedTo(f, Chunks(f, off, k, n, src, bad), off, k, n, src, Landing(bad, |src|))
    decreases n - k
  {
    var m := Min(n - k, CHUNK);
    var land := Landing(bad, |src|);
    if k == n || Refused(|f|, off + k, m) {
      LandedSelf(f, off, k, src, land);
    } else {
      var g := AfterChunk(f, off, k, m, src, bad);
      NextEdge(k, n);
      ChunkLands(f, off, k, m, src, bad);
      ChunksLand(g, off, k + m, n, src, bad);
      ChunksStep(f, off, k, n, src, bad);
      LandedThen(f, g, Chunks(g, off, k + m, n, src, bad), off, k, k + m, n, src, land);
    }
  }

  /** Every byte lands that is before the first one that cannot be copied. */
  lemma LandedAll(f: seq<int>, g: seq<int>, off: int, e: int, src: seq<int>, bad: set<int>)
    requires 0 <= off <= |f| && Landed(f, g, off, 0, e, src, Landing(bad, |src|)) && forall x | 0 <= x < e :: x !in bad
    ensures g == Overwrite(f, off, src[..e])[..|g|]
  {
    forall x | 0 <= x < e ensures Lands(bad, x) {}
    var h := Overwrite(f, off, src[..e]);
    forall y | 0 <= y < |g| ensures g[y] == h[y] {
      assert LandAt(f, g, off, 0, e, src, Landing(bad, |src|), y);
      assert off <= y < off + e ==> y - off in Landing(bad, |src|);
    }
  }

  /** A chunk from c on, of a file of that size, whose failure to be copied ends the write: it would have made the file
      longer, and is not the last. */
  predicate Needed(size: int, off: int, c: int, n: int) {
    c % CHUNK == 0 && c + CHUNK < n && off + c + CHUNK > size
  }

  /** From k on, each chunk that the next one builds on can be copied. */
  predicate NeededCopied(size: int, off: int, k: int, n: int, bad: set<int>) {
    forall c, x | k <= c <= x < c + CHUNK && x in bad :: !Needed(size, off, c, n)
  }

  lemma NextNeeded(size: int, size': int, off: int, k: int, n: int, bad: set<int>)
    requires 0 <= k && k % CHUNK == 0 && k + CHUNK < n
    requires if off + k + CHUNK <= size then size' == size
             else size' == off + k + CHUNK && forall x | k <= x < k + CHUNK :: x !in bad
    ensures NeededCopied(size, off, k, n, bad) <==> NeededCopied(size', off, k + CHUNK, n, bad)
  {
    forall c | c % CHUNK == 0 && k < c ensures k + CHUNK <= c { ChunkAfter(k, c); }
    forall c | k + CHUNK <= c ensures Needed(size, off, c, n) <==> Needed(size', off, c, n) {}
    if NeededCopied(size', off, k + CHUNK, n, bad) {
      forall c, x | k <= c <= x < c + CHUNK && x in bad ensures !Needed(size, off, c, n) {
        if c >= k + CHUNK { assert !Needed(size', off, c, n); }
      }
    }
  }

  lemma LastNeeded(size: int, off: int, k: int, n: int, bad: set<int>)
    requires n <= k + CHUNK
    ensures NeededCopied(size, off, k, n, bad)
  {
  }

  /** Where the file ends after a whole chunk: where the chunk does, or did before, unless a byte cannot be copied. */
  ghost predicate Moved(size: int, size': int, off: int, k: int, bad: set<int>) {
    if off + k + CHUNK <= size then size' == size
    else if forall x | k <= x < k + CHUNK :: x !in bad then size' == off + k + CHUNK
    else size <= size' < off + k + CHUNK
  }

  lemma ChunkSize(f: seq<int>, off: int, k: int, src: seq<int>, bad: set<int>)
    requires 0 <= off && 0 <= k && k + CHUNK <= |src| && off + k <= |f|
    ensures Moved(|f|, |AfterChunk(f, off, k, CHUNK, src, bad)|, off, k, bad)
  {
    var b := FirstBad(bad, k, k + CHUNK);
  }

  lemma NextComplete(size: int, size': int, off: int, k: int, n: int, bad: set<int>)
    requires 0 <= off && 0 <= k < k + CHUNK < n && ChunkEdge(k, n) && off + k <= size && Moved(size, size', off, k, bad)
    ensures !Refused(size, off + k, n - k) && NeededCopied(size, off, k, n, bad) <==>
            !Refused(size', off + (k + CHUNK), n - (k + CHUNK)) && NeededCopied(size', off, k + CHUNK, n, bad)
  {
    if off + k + CHUNK > size && exists x :: k <= x < k + CHUNK && x in bad {
      var x :| k <= x < k + CHUNK && x in bad;
      assert Needed(size, off, k, n);
    } else {
      NextNeeded(size, size', off, k, n, bad);
    }
  }

  lemma ChunkAfter(k: int, c: int)
    requires 0 <= k < c && k % CHUNK == 0 && c % CHUNK == 0
    ensures k + CHUNK <= c
  {
  }

  /** All n bytes are counted as written if and only if the write is not to be refused as a whole and each chunk that
      the next one builds on can be copied. */
  lemma {:induction false} ChunksAllIff(f: seq<int>, off: int, k: int, n: int, src: seq<int>, bad: set<int>)
    requires 0 <= off && 0 <= k < n <= |src| && ChunkEdge(k, n)
    ensures Chunks(f, off, k, n, src, bad).1 == n <==>
            !Refused(|f|, off + k, n - k) && NeededCopied(|f|, off, k, n, bad)
    decreases n - k
  {
    var m := Min(n - k, CHUNK);
    NextEdge(k, n);
    ChunksStep(f, off, k, n, src, bad);
    if !Refused(|f|, off + k, m) {
      var g := AfterChunk(f, off, k, m, src, bad);
      if k + m == n {
        LastNeeded(|f|, off, k, n, bad);
      } else {
        ChunksAllIff(g, off, k + m, n, src, bad);
        ChunkSize(f, off, k, src, bad);
        NextComplete(|f|, |g|, off, k, n, bad);
      }
    }
  }

  /** With every byte there to be copied, the file ends no earlier than the bytes counted as written. */
  lemma {:induction false} ChunksGrow(f: seq<int>, off: int, k: int, n: int, src: seq<int>, bad: set<int>)
    requires 0 <= off && 0 <= k <= n <= |src| && forall x | k <= x < n :: x !in bad
    ensures var (g, e) := Chunks(f, off, k, n, src, bad); k <= e && |g| == if e == k then |f| else Max(|f|, off + e)
    decreases n - k
  {
    if k < n {
      var m := Min(n - k, CHUNK);
      if !Refused(|f|, off + k, m) {
        ChunksGrow(AfterChunk(f, off, k, m, src, bad), off, k + m, n, src, bad);
      }
    }
  }

  /** With every byte there to be copied, the bytes counted as written are those in the file. */
  lemma ChunksCopied(f: seq<int>, off: int, n: int, src: seq<int>, bad: set<int>)
    requires 0 <= off && 0 < n <= |src| && forall x | 0 <= x < n :: x !in bad
    ensures var (g, e) := Chunks(f, off, 0, n, src, bad);
            && 0 <= e <= n && (e == n <==> !Refused(|f|, off, n))
            && g == if off > |f| then f else Overwrite(f, off, src[..e])
  {
    var (g, e) := Chunks(f, off, 0, n, src, bad);
    ChunksLand(f, off, 0, n, src, bad);
    ChunksAllIff(f, off, 0, n, src, bad);
    ChunksGrow(f, off, 0, n, src, bad);
    if off <= |f| { LandedAll(f, g, off, e, src, bad); }
  }

  /** A write ends up with e bytes counted as written: all n exactly if none of the chunks that others build on fails,
      and the file has those of them that land. */
  lemma ChunksMean(f: seq<int>, off: int, n: int, src: seq<int>, bad: set<int>, g: seq<int>, e: int)
    requires Lead(f, off, 0, n, src, bad, (g, e))
    ensures 0 <= e <= Max(n, 0) && Landed(f, g, off, 0, e, src, Landing(bad, |src|))
    ensures e == n <==> n == 0 || (n > 0 && !Refused(|f|, off, n) && NeededCopied(|f|, off, 0, n, bad))
    ensures (forall x | 0 <= x < n :: x !in bad) ==> g == if off > |f| then f else Overwrite(f, off, src[..e])
  {
    if n > 0 {
      ChunksLand(f, off, 0, n, src, bad);
      ChunksAllIff(f, off, 0, n, src, bad);
      if forall x | 0 <= x < n :: x !in bad { ChunksCopied(f, off, n, src, bad); }
    } else {
      LandedSelf(f, off, 0, src, Landing(bad, |src|));
      assert off <= |f| ==> Overwrite(f, off, src[..0]) == f;
    }
  }

  /** The number of pieces an n-byte write at o goes in. */
  function Rounds(o: int, n: int): (k: nat)
    requires 0 <= o
    decreases n
  {
    if n <= 0 then 0 else 1 + Rounds(o + Piece(o, n), n - Piece(o, n))
  }

  /** One for each block of the file touched by n bytes at o. */
  lemma {:induction false} RoundsSpan(o: int, n: int)
    requires 0 <= o && 1 <= n
    ensures Rounds(o, n) == (o + n - 1) / BSIZE - o / BSIZE + 1
    decreases n
  {
    var m := Piece(o, n);
    SameBlock(o, m - 1);
    if m < n {
      RoundsSpan(o + m, n - m);
    } else {
      assert Rounds(o + m, 0) == 0;
    }
  }

  /** The most blocks k pieces may dirty: a block of data and its bitmap block each, except that a partly written first
      block is already there. */
  function Dirtied(off: int, k: int): (n: int) {
    2 * k - if off % BSIZE != 0 && k > 0 then 1 else 0
  }

  /** The most blocks an n-byte write puts in its transaction: those of its pieces, the indirect block and its bitmap
      block, and the inode's block. */
  function Cost(off: int, n: int): (k: int)
    requires 0 <= off
  {
    Dirtied(off, Rounds(off, n)) + 3
  }

  /** A chunk of filewrite fits an operation's share of the log, wherever it starts. */
  lemma ChunkFits(off: int, n: int)
    requires 0 <= off && 1 <= n <= CHUNK
    ensures Cost(off, n) <= MAXOPBLOCKS
  {
    RoundsSpan(off, n);
    assert off % BSIZE == 0 ==> (off + n - 1) / BSIZE == off / BSIZE + (n - 1) / BSIZE;
    assert (off + n - 1) / BSIZE <= off / BSIZE + 3;
  }

  /** After some pieces, tot bytes in all, per holds the blocks they dirtied. */
  ghost predicate Tally(off: int, tot: int, n: int, per: set<int>) {
    && 0 <= off && 0 <= tot
    && var k := Rounds(off, n) - Rounds(off + tot, n - tot);
    0 <= k && |per| <= Dirtied(off, k) && (k == 0 ==> tot == 0)
  }

  lemma TallyStart(off: int, n: int)
    requires 0 <= off
    ensures Tally(off, 0, n, {})
  {
  }

  lemma RoundsStep(o: int, n: int, o': int, n': int)
    requires 0 <= o && 0 < n && o' == o + Piece(o, n) && n' == n - Piece(o, n)
    ensures Rounds(o, n) == 1 + Rounds(o', n')
  {
  }

  lemma TallyStep(off: int, tot: int, n: int, m: int, per: set<int>, add: set<int>)
    requires 0 <= tot < n && Tally(off, tot, n, per) && m == Piece(off + tot, n - tot)
    requires |add| <= if tot == 0 && off % BSIZE != 0 then 1 else 2
    ensures Tally(off, tot + m, n, per + add) && |per + add| <= Dirtied(off, Rounds(off, n))
  {
    assert |per + add| == |per| + |add| - |per * add|;
    RoundsStep(off + tot, n - tot, off + (tot + m), n - (tot + m));
  }

  lemma TallyEnd(off: int, n: int, per: set<int>)
    requires 0 <= n && Tally(off, n, n, per)
    ensures |per| <= Dirtied(off, Rounds(off, n))
  {
  }

  /** The block that holds inode i on disk. */
  function InodeBlock(sb: Super, i: int): (r: int) {
    i / IPB + sb.inodestart
  }

  lemma TouchedSize(sb: Super, per: set<int>, ind: int, i: int)
    ensures |per + Indirect(sb, ind) + {InodeBlock(sb, i)}| <= |per| + 3
  {
    var a, b := Indirect(sb, ind), {InodeBlock(sb, i)};
    assert |per + a| == |per| + |a| - |per * a|;
    assert |per + a + b| == |per + a| + |b| - |(per + a) * b|;
  }

  /** The arguments writei turns away. */
  predicate Refused(size: int, off: int, n: int) {
    off > size || off + n > MAXFILE * BSIZE
  }

  /** Bits are only cleared, and only those of blocks of inode i. */
  ghost predicate OnlyFrees(used: seq<bool>, used': seq<bool>, oi: seq<int>, i: int) {
    |used'| == |used| == |oi|
    && forall b | 0 <= b < |used| :: (used'[b] ==> used[b]) && (used[b] && !used'[b] ==> oi[b] == i)
  }

  class Fs {
    const sb: Super
    var used: seq<bool>
    var data: seq<Block>
    var addrs: seq<seq<int>>
    var size: seq<int>
    ghost var oi: seq<int>
    ghost var os: seq<int>
    ghost var dirty: set<int>

    /** A new file system: the blocks before the data are in use, and every file is empty. */
    constructor (sb: Super, n: nat)
      requires 1 <= sb.datastart <= sb.size < 0x1_0000_0000
      ensures Valid() && this.sb == sb && |addrs| == n && (forall i | 0 <= i < n :: size[i] == 0)
      ensures forall b | 0 <= b < sb.size :: used[b] <==> b < sb.datastart
    {
      this.sb := sb;
      used := seq(sb.size, b => b < sb.datastart);
      data := seq(sb.size, _ => Zeros(BSIZE));
      addrs := seq(n, _ => seq(NDIRECT + 1, _ => 0));
      size := seq(n, _ => 0);
      oi, os, dirty := seq(sb.size, _ => 0), seq(sb.size, _ => 0), {};
    }

    ghost predicate Valid()
      reads this
    {
      Good(sb, used, data, addrs, size, oi, os)
    }

    /** The contents of every file. */
    ghost function Files(): (r: seq<seq<int>>)
      requires Valid()
      reads this
      ensures |r| == |addrs| && forall x | 0 <= x < |r| :: |r[x]| == size[x]
    {
      AllFiles(data, addrs, size)
    }

    /** The lowest free block, zeroed and marked; None where the kernel panics for want of one. */
    method Balloc() returns (r: Option<int>)
      requires |used| == sb.size && |data| == sb.size
      modifies `used, `data, `dirty
      ensures r.None? ==> unchanged(this) && forall b | 0 <= b < sb.size :: used[b]
      ensures r.Some? ==> 0 <= r.value < sb.size && !old(used[r.value]) && forall b | 0 <= b < r.value :: old(used[b])
      ensures r.Some? ==> used == old(used)[r.value := true] && data == old(data)[r.value := Zeros(BSIZE)]
      ensures r.Some? ==> dirty == old(dirty) + WithBit(sb, r.value)
    {
      var b := 0;
      while b < sb.size
        invariant 0 <= b && b % BPB == 0
        invariant unchanged(this)
        invariant forall c | 0 <= c < b && c < sb.size :: used[c]
      {
        var bi := 0;
        while bi < BPB && b + bi < sb.size
          invariant 0 <= bi <= BPB && unchanged(this)
          invariant forall c | 0 <= c < b + bi && c < sb.size :: used[c]
        {
          if !used[b + bi] {
            used := used[b + bi := true];
            data := data[b + bi := Zeros(BSIZE)];
            dirty := dirty + WithBit(sb, b + bi);
            return Some(b + bi);
          }
          bi := bi + 1;
        }
        b := b + BPB;
      }
      return None;
    }

    /** Gives address k of inode i a block if it has none; false where the kernel panics. */
    method MapAddr(i: int, k: int) returns (ok: bool)
      requires Valid() && 0 <= i < |addrs| && 0 <= k <= NDIRECT
      modifies this
      ensures Valid() && size == old(size) && |addrs| == old(|addrs|) && Extends(old(data), old(addrs), data, addrs)
      ensures !ok ==> unchanged(this) && forall b | 0 <= b < sb.size :: used[b]
      ensures ok ==> addrs[i][k] != 0 && dirty <= old(dirty) + WithBit(sb, addrs[i][k])
      ensures old(addrs[i][k]) != 0 ==> ok && unchanged(this)
    {
      ok := true;
      if addrs[i][k] == 0 {
        var b := Balloc();
        if b.None? {
          ExtendsSelf(data, addrs);
          return false;
        }
        AllocAddr(sb, old(used), old(data), addrs, oi, os, i, k, b.value);
        addrs := addrs[i := addrs[i][k := b.value]];
        oi, os := oi[b.value := i], os[b.value := k];
        StillGood(sb, old(used), old(data), old(addrs), size, old(oi), old(os), used, data, addrs, oi, os);
      } else {
        ExtendsSelf(data, addrs);
      }
    }

    /** Gives entry j of the indirect block of inode i a block if it has none; None where the kernel panics. */
    method MapEntry(i: int, j: int) returns (r: Option<int>)
      requires Valid() && 0 <= i < |addrs| && 0 <= j < NINDIRECT && addrs[i][NDIRECT] != 0
      modifies this
      ensures Valid() && size == old(size) && addrs == old(addrs) && Extends(old(data), addrs, data, addrs)
      ensures r.None? ==> unchanged(this) && forall b | 0 <= b < sb.size :: used[b]
      ensures r.Some? ==> r.value != 0 && r.value == Ref(data, addrs, i, NDIRECT + 1 + j)
      ensures r.Some? ==> dirty <= old(dirty) + WithBit(sb, r.value) + {addrs[i][NDIRECT]}
      ensures old(Ref(data, addrs, i, NDIRECT + 1 + j)) != 0 ==> r.Some? && unchanged(this)
    {
      var ind := addrs[i][NDIRECT];
      assert RefAt(sb, used, data, addrs, oi, os, i, NDIRECT);
      var addr := Word(data[ind], j);
      if addr == 0 {
        var b := Balloc();
        if b.None? {
          ExtendsSelf(data, addrs);
          return None;
        }
        addr := b.value;
        AllocEntry(sb, old(used), old(data), addrs, oi, os, i, j, addr);
        data := data[ind := PutWord(data[ind], j, addr)];
        dirty := dirty + {ind};
        oi, os := oi[addr := i], os[addr := NDIRECT + 1 + j];
        StillGood(sb, old(used), old(data), addrs, size, old(oi), old(os), used, data, addrs, oi, os);
      } else {
        ExtendsSelf(data, addrs);
      }
      return Some(addr);
    }

    /** The block that holds block bn of file i, allocated if it was missing; None where the kernel panics. */
    method Bmap(i: int, bn: int) returns (r: Option<int>)
      requires Valid() && 0 <= i < |addrs| && 0 <= bn
      modifies this
      ensures Valid() && size == old(size) && |addrs| == old(|addrs|) && Extends(old(data), old(addrs), data, addrs)
      ensures r.None? ==> bn >= MAXFILE || forall b | 0 <= b < sb.size :: used[b]
      ensures r.Some? ==> bn < MAXFILE && r.value != 0 && r.value == Ref(data, addrs, i, Slot(bn))
      ensures r.Some? ==> dirty <= old(dirty) + WithBit(sb, r.value) + Indirect(sb, addrs[i][NDIRECT])
      ensures bn < MAXFILE && old(Ref(data, addrs, i, Slot(bn))) != 0 ==> r.Some? && unchanged(this)
    {
      if bn < NDIRECT {
        var ok := MapAddr(i, bn);
        return if ok then Some(addrs[i][bn]) else None;
      }
      if bn - NDIRECT < NINDIRECT {
        assert RefAt(sb, used, data, addrs, oi, os, i, NDIRECT);
        var ok := MapAddr(i, NDIRECT);
        if !ok {
          return None;
        }
        label mapped:
        r := MapEntry(i, bn - NDIRECT);
        ExtendsTrans(old(data), old(addrs), old@mapped(data), old@mapped(addrs), data, addrs);
        return;
      }
      ExtendsSelf(data, addrs);
      return None;
    }

    /** The m bytes at o, which lie in one block. */
    method ReadPiece(i: int, o: int, m: int) returns (piece: seq<int>)
      requires Valid() && 0 <= i < |addrs| && 0 <= o && 1 <= m <= BSIZE - o % BSIZE && o + m <= size[i]
      modifies this
      ensures unchanged(this) && piece == File(data, addrs, size, i)[o..o + m]
    {
      ghost var f := File(data, addrs, size, i);
      assert FilledAt(data, addrs, size[i], i, o / BSIZE);
      assert RefAt(sb, used, data, addrs, oi, os, i, Slot(o / BSIZE));
      var r := Bmap(i, o / BSIZE);
      piece := data[r.value][o % BSIZE..o % BSIZE + m];
      forall x | 0 <= x < m ensures piece[x] == f[o + x] {
        SameBlock(o, x);
        assert f[o + x] == ByteAt(data, addrs, i, o + x);
      }
    }

    /** Reads up to n bytes at off; the copy to the caller succeeds for the first `room` bytes. */
    method Readi(i: int, off: int, n: int, room: nat) returns (out: seq<int>)
      requires Valid() && 0 <= i < |addrs| && 0 <= off < 0x1_0000_0000 && 0 <= n < 0x1_0000_0000
      modifies this
      ensures unchanged(this)
      ensures out <= Slice(File(data, addrs, size, i), off, n)
      ensures room >= n ==> out == Slice(File(data, addrs, size, i), off, n)
    {
      ghost var f := File(data, addrs, size, i);
      out := [];
      if off > size[i] || Add32(off, n) < off {
        return;
      }
      var n' := Min(n, size[i] - off);
      ghost var want := Slice(f, off, n);
      var tot := 0;
      while tot < n'
        invariant 0 <= tot <= n' == |want| && unchanged(this) && out == want[..tot]
      {
        var m := Piece(off + tot, n' - tot);
        var piece := ReadPiece(i, off + tot, m);
        if tot + m > room {
          return;
        }
        SliceMore(f, off, n, tot, m);
        assert want[..tot] + piece == want[..tot + m];
        out := out + piece;
        tot := tot + m;
      }
    }

    /** Writes m bytes of src, from tot on, into block b of file i. */
    method StorePiece(i: int, off: int, src: seq<int>, tot: int, m: int, b: int, ghost data0: seq<Block>,
                      ghost addrs0: seq<seq<int>>)
      requires Valid() && 0 <= i < |addrs| && 0 <= m <= BSIZE - (off + tot) % BSIZE && off + tot + m <= MAXFILE * BSIZE
               && tot + m <= |src|
      requires off + tot < MAXFILE * BSIZE && Written(data0, addrs0, size, data, addrs, i, off, src, tot)
               && forall x | 0 <= x < |src| :: 0 <= src[x] < 256
      requires b == Ref(data, addrs, i, Slot((off + tot) / BSIZE)) && b != 0
      modifies `data
      ensures Valid() && Written(data0, addrs0, size, data, addrs, i, off, src, tot + m)
    {
      if m > 0 {
        assert RefAt(sb, used, data, addrs, oi, os, i, Slot((off + tot) / BSIZE));
        var v := Patch(data[b], (off + tot) % BSIZE, src[tot..tot + m]);
        WrittenMore(sb, used, data, addrs, oi, os, data0, addrs0, size, i, off, src, tot, m, b, v);
        data := data[b := v];
      }
    }

    /** The block for the piece of a write that begins with byte tot, allocated if need be. */
    method MapPiece(i: int, off: int, src: seq<int>, tot: int, ghost data0: seq<Block>, ghost addrs0: seq<seq<int>>)
        returns (b: Option<int>, ghost add: set<int>)
      requires Valid() && 0 <= i < |addrs| && off + tot < MAXFILE * BSIZE
               && Written(data0, addrs0, size, data, addrs, i, off, src, tot)
      modifies this
      ensures Valid() && size == old(size) && |addrs| == old(|addrs|)
      ensures b.None? ==> forall b | 0 <= b < sb.size :: used[b]
      ensures b.Some? ==> Written(data0, addrs0, size, data, addrs, i, off, src, tot)
      ensures b.Some? ==> b.value != 0 && b.value == Ref(data, addrs, i, Slot((off + tot) / BSIZE)) && b.value in add
      ensures b.Some? ==> old(addrs[i][NDIRECT]) in {0, addrs[i][NDIRECT]}
      ensures |add| <= if old(Ref(data, addrs, i, Slot((off + tot) / BSIZE))) != 0 then 1 else 2
      ensures b.Some? ==> dirty <= old(dirty) + add + Indirect(sb, addrs[i][NDIRECT])
    {
      b := Bmap(i, (off + tot) / BSIZE);
      add := {};
      if b.Some? {
        assert KeptAt(old(data), old(addrs), data, addrs, i, NDIRECT);
        add := if old(Ref(data, addrs, i, Slot((off + tot) / BSIZE))) != 0 then {b.value} else WithBit(sb, b.value);
        WrittenExtends(sb, old(used), old(data), old(addrs), old(oi), old(os), data0, addrs0, size, data, addrs, i,
          off, src, tot);
      }
    }

    /** One round of writei: the m bytes of src from tot on, into one block, which is then logged. Some(false) where the
        copy from the caller fails: the bytes it got are in the buffer, which is not logged. */
    method WritePiece(i: int, off: int, src: seq<int>, tot: int, m: int, ghost data0: seq<Block>,
                      ghost addrs0: seq<seq<int>>)
        returns (r: Option<bool>, ghost add: set<int>)
      requires Valid() && 0 <= i < |addrs| && 1 <= m <= BSIZE - (off + tot) % BSIZE && off + tot + m <= MAXFILE * BSIZE
      requires Written(data0, addrs0, size, data, addrs, i, off, src, tot)
               && forall x | 0 <= x < |src| :: 0 <= src[x] < 256
      modifies this
      ensures Valid() && size == old(size) && |addrs| == old(|addrs|)
      ensures r.None? ==> forall b | 0 <= b < sb.size :: used[b]
      ensures r.Some? ==> r.value == (tot + m <= |src|)
      ensures r.Some? ==> Written(data0, addrs0, size, data, addrs, i, off, src, if r.value then tot + m else |src|)
      ensures r.Some? ==> old(addrs[i][NDIRECT]) in {0, addrs[i][NDIRECT]}
      ensures |add| <= if old(Ref(data, addrs, i, Slot((off + tot) / BSIZE))) != 0 then 1 else 2
      ensures r.Some? ==> dirty <= old(dirty) + add + Indirect(sb, addrs[i][NDIRECT])
    {
      var b;
      b, add := MapPiece(i, off, src, tot, data0, addrs0);
      if b.None? {
        return None, add;
      }
      var got := Min(m, |src| - tot);
      StorePiece(i, off, src, tot, got, b.value, data0, addrs0);
      if got == m {
        dirty := dirty + {b.value};
      }
      r := Some(got == m);
    }

    /** The next piece of an n-byte write that has written tot. Some(false) where the copy from the caller fails. */
    method NextPiece(i: int, off: int, n: int, src: seq<int>, tot: int, ghost data0: seq<Block>,
                     ghost addrs0: seq<seq<int>>, ghost per: set<int>)
        returns (w: Option<bool>, m: int, ghost per': set<int>)
      requires Valid() && 0 <= i < |addrs| && 0 <= off <= size[i] && 0 <= tot < n && off + n <= MAXFILE * BSIZE
               && AtEdge(off, n, tot)
      requires Written(data0, addrs0, size, data, addrs, i, off, src, tot)
               && forall x | 0 <= x < |src| :: 0 <= src[x] < 256
      requires Tally(off, tot, n, per)
      modifies this
      ensures Valid() && size == old(size) && |addrs| == old(|addrs|) && 0 < m <= n - tot
      ensures w.None? ==> forall b | 0 <= b < sb.size :: used[b]
      ensures w == Some(true) ==>
                Written(data0, addrs0, size, data, addrs, i, off, src, tot + m) && AtEdge(off, n, tot + m)
                && Tally(off, tot + m, n, per')
      ensures w == Some(false) ==>
                tot == Total(off, n, |src|) && |src| < n
                && Written(data0, addrs0, size, data, addrs, i, off, src, |src|)
      ensures w.Some? ==> |per'| <= Dirtied(off, Rounds(off, n))
      ensures w.Some? ==> dirty <= old(dirty) + per' + Indirect(sb, addrs[i][NDIRECT])
      ensures w.Some? ==> per <= per' && Indirect(sb, old(addrs[i][NDIRECT])) <= Indirect(sb, addrs[i][NDIRECT])
    {
      m := Piece(off + tot, n - tot);
      assert FilledAt(data, addrs, size[i], i, (off + tot) / BSIZE);
      ghost var add;
      w, add := WritePiece(i, off, src, tot, m, data0, addrs0);
      per' := per + add;
      if w.Some? {
        TallyStep(off, tot, n, m, per, add);
        if w.value { PieceEnds(off + tot, n - tot); } else { TotalAt(off, n, |src|, tot, m); }
      }
    }

    /** The loop of writei. Leaves in per the blocks dirtied for pieces of data. */
    method WritePieces(i: int, off: int, n: int, src: seq<int>) returns (r: Option<int>, ghost per: set<int>)
      requires Valid() && 0 <= i < |addrs| && 0 <= off <= size[i] && 0 <= n && off + n <= MAXFILE * BSIZE
      requires forall x | 0 <= x < |src| :: 0 <= src[x] < 256
      modifies this
      ensures Valid() && size == old(size) && |addrs| == old(|addrs|)
      ensures r.None? ==> forall b | 0 <= b < sb.size :: used[b]
      ensures r.Some? ==> r.value == Total(off, n, |src|)
      ensures r.Some? ==> Written(old(data), old(addrs), size, data, addrs, i, off, src, Min(n, |src|))
      ensures r.Some? ==>
                dirty <= old(dirty) + per + Indirect(sb, addrs[i][NDIRECT]) && |per| <= Dirtied(off, Rounds(off, n))
    {
      var tot := 0;
      per := {};
      WrittenStart(sb, used, data, addrs, size, oi, os, i, off, src);
      TallyStart(off, n);
      while tot < n
        invariant Valid() && size == old(size) && |addrs| == old(|addrs|) && 0 <= tot <= n && AtEdge(off, n, tot)
        invariant Written(old(data), old(addrs), size, data, addrs, i, off, src, tot)
        invariant dirty <= old(dirty) + per + Indirect(sb, addrs[i][NDIRECT]) && Tally(off, tot, n, per)
      {
        var w, m;
        w, m, per := NextPiece(i, off, n, src, tot, old(data), old(addrs), per);
        if w.None? {
          return None, per;
        }
        if !w.value {
          return Some(tot), per;
        }
        tot := tot + m;
      }
      TallyEnd(off, n, per);
      return Some(tot), per;
    }

    /** Writes n bytes at off; the copy from the caller succeeds for the first |src| bytes. The caller is told that
        n bytes were written even when it was tot; the rest of what could be copied is in the cache, up to the end
        of the file. */
    method Writei(i: int, off: int, n: int, src: seq<int>)
        returns (r: Option<int>, ghost tot: int, ghost touched: set<int>)
      requires Valid() && 0 <= i < |addrs| && 0 <= off < 0x1_0000_0000 && 0 <= n < 0x1_0000_0000
      requires forall x | 0 <= x < |src| :: 0 <= src[x] < 256
      modifies this
      ensures Valid() && |addrs| == old(|addrs|)
      ensures r.None? ==> forall b | 0 <= b < sb.size :: used[b]
      ensures r == Some(-1) <==> Refused(old(size[i]), off, n)
      ensures r == Some(-1) ==> unchanged(this)
      ensures r.Some? && r.value != -1 ==> r.value == n && tot == Total(off, n, |src|)
      ensures r.Some? && r.value != -1 ==>
                Files() == old(Files())[i := Stored(old(Files()[i]), off, src[..Min(n, |src|)], tot)]
      ensures r.Some? && r.value != -1 && n <= |src| ==>
                Files() == old(Files())[i := Overwrite(old(Files()[i]), off, src[..n])]
      ensures r.Some? && n > 0 ==> dirty <= old(dirty) + touched && |touched| <= Cost(off, n)
    {
      touched, tot := {}, 0;
      if off > size[i] || Add32(off, n) < off {
        return Some(-1), 0, {};
      }
      if off + n > MAXFILE * BSIZE {
        return Some(-1), 0, {};
      }
      r, tot, touched := WriteWithin(i, off, n, src);
    }

    /** writei with arguments that are not refused. */
    method WriteWithin(i: int, off: int, n: int, src: seq<int>)
        returns (r: Option<int>, ghost tot: int, ghost touched: set<int>)
      requires Valid() && 0 <= i < |addrs| && 0 <= off && 0 <= n && !Refused(size[i], off, n)
      requires forall x | 0 <= x < |src| :: 0 <= src[x] < 256
      modifies this
      ensures Valid() && |addrs| == old(|addrs|)
      ensures r.None? ==> forall b | 0 <= b < sb.size :: used[b]
      ensures r.Some? ==> r.value == n && tot == Total(off, n, |src|)
      ensures r.Some? ==> Files() == old(Files())[i := Stored(old(Files()[i]), off, src[..Min(n, |src|)], tot)]
      ensures r.Some? && n <= |src| ==> Files() == old(Files())[i := Overwrite(old(Files()[i]), off, src[..n])]
      ensures r.Some? && n > 0 ==> dirty <= old(dirty) + touched && |touched| <= Cost(off, n)
    {
      touched, tot := {}, 0;
      var t;
      ghost var per;
      t, per := WritePieces(i, off, n, src);
      if t.None? {
        return None, 0, {};
      }
      tot := t.value;
      WrittenDone(sb, used, data, addrs, oi, os, old(data), old(addrs), size, i, off, src, Min(n, |src|), tot);
      if n <= |src| { StoredAll(old(Files()[i]), off, src[..n]); }
      TouchedSize(sb, per, addrs[i][NDIRECT], i);
      touched := per + Indirect(sb, addrs[i][NDIRECT]) + {InodeBlock(sb, i)};
      if n > 0 {
        size := size[i := if off + t.value > size[i] then off + t.value else size[i]];
        dirty := dirty + {InodeBlock(sb, i)};
      }
      return Some(n), tot, touched;
    }

    /** Clears the bit of b; false where the kernel panics because it is clear already. */
    method Bfree(b: int) returns (ok: bool)
      requires 0 <= b < |used|
      modifies `used, `dirty
      ensures ok <==> old(used[b])
      ensures used == old(used)[b := false]
      ensures dirty == if ok then old(dirty) + {BitBlock(sb, b)} else old(dirty)
    {
      ok := used[b];
      if ok {
        used := used[b := false];
        dirty := dirty + {BitBlock(sb, b)};
      }
    }

    /** The direct blocks of inode i, freed. */
    method TruncDirect(i: int) returns (ok: bool)
      requires Owned(sb, used, data, addrs, oi, os) && 0 <= i < |addrs|
      modifies `used, `addrs, `dirty
      ensures ok && Owned(sb, used, data, addrs, oi, os) && OnlyFrees(old(used), used, oi, i)
      ensures |addrs| == old(|addrs|) && (forall x | 0 <= x < |addrs| && x != i :: addrs[x] == old(addrs[x]))
      ensures addrs[i][NDIRECT] == old(addrs[i][NDIRECT]) && forall y | 0 <= y < NDIRECT :: addrs[i][y] == 0
    {
      var k := 0;
      ok := true;
      while k < NDIRECT
        invariant 0 <= k <= NDIRECT && ok && Owned(sb, used, data, addrs, oi, os) && OnlyFrees(old(used), used, oi, i)
        invariant |addrs| == old(|addrs|) && (forall x | 0 <= x < |addrs| && x != i :: addrs[x] == old(addrs[x]))
        invariant addrs[i][NDIRECT] == old(addrs[i][NDIRECT]) && forall y | 0 <= y < k :: addrs[i][y] == 0
      {
        if addrs[i][k] != 0 {
          ghost var b := addrs[i][k];
          assert RefAt(sb, used, data, addrs, oi, os, i, k);
          StoreAddr(sb, used, data, addrs, oi, os, i, k, 0);
          Detach(sb, used, data, addrs, oi, os, i, k, b, addrs[i := addrs[i][k := 0]]);
          ok := Bfree(addrs[i][k]);
          addrs := addrs[i := addrs[i][k := 0]];
        }
        k := k + 1;
      }
    }

    /** The blocks of the indirect block of inode i, and that block itself, freed. */
    method TruncIndirect(i: int) returns (ok: bool)
      requires Owned(sb, used, data, addrs, oi, os) && 0 <= i < |addrs| && addrs[i][NDIRECT] != 0
      modifies `used, `addrs, `dirty
      ensures ok && Owned(sb, used, data, addrs, oi, os) && OnlyFrees(old(used), used, oi, i)
      ensures addrs == old(addrs)[i := old(addrs[i])[NDIRECT := 0]]
    {
      var ind := addrs[i][NDIRECT];
      assert RefAt(sb, used, data, addrs, oi, os, i, NDIRECT);
      forall x, y | 0 <= x < |addrs| && 0 <= y < SLOTS ensures RefAt(sb, used, data, addrs, oi, os, x, y) {}
      var j := 0;
      ok := true;
      while j < NINDIRECT
        invariant 0 <= j <= NINDIRECT && ok && Matched(sb, used, data, addrs, oi, os, i, j)
                  && Dropped(sb, used, oi, os, i, j)
        invariant OnlyFrees(old(used), used, oi, i) && addrs == old(addrs)
      {
        var b := Word(data[ind], j);
        assert b == Ref(data, addrs, i, NDIRECT + 1 + j);
        ghost var used' := if 0 < b < |used| then used[b := false] else used;
        assert RefAt(sb, used, data, addrs, oi, os, i, NDIRECT + 1 + j);
        DropEntry(sb, used, data, addrs, oi, os, i, j, used');
        if b != 0 {
          ok := Bfree(b);
        }
        j := j + 1;
      }
      DropIndirect(sb, used, data, addrs, oi, os, i, addrs[i := addrs[i][NDIRECT := 0]]);
      ok := Bfree(ind);
      addrs := addrs[i := addrs[i][NDIRECT := 0]];
    }

    /** Discards the contents of inode i. No block is found free already, and the blocks freed are exactly its own. */
    method Itrunc(i: int) returns (ok: bool)
      requires Valid() && 0 <= i < |addrs|
      modifies this
      ensures ok && Valid() && |addrs| == old(|addrs|) && data == old(data) && oi == old(oi)
      ensures size == old(size)[i := 0] && forall y | 0 <= y <= NDIRECT :: addrs[i][y] == 0
      ensures forall b | sb.datastart <= b < sb.size :: used[b] <==> old(used[b]) && oi[b] != i
      ensures Files() == old(Files())[i := []]
    {
      ok := TruncDirect(i);
      if addrs[i][NDIRECT] != 0 {
        ok := TruncIndirect(i);
      }
      size := size[i := 0];
      dirty := dirty + {InodeBlock(sb, i)};
      OwnsNothing(sb, used, data, addrs, oi, os, i);
      forall x | 0 <= x < |addrs| && x != i
        ensures File(data, addrs, size, x) == old(File(data, addrs, size, x)) && Filled(data, addrs, size[x], x)
      {
        Untouched(data, old(addrs), old(size), addrs, size, x);
      }
    }

    /** One chunk of filewrite, in a transaction of its own. */
    method WriteChunk(i: int, off: int, n: int, src: seq<int>) returns (r: Option<int>)
      requires Valid() && 0 <= i < |addrs| && 0 <= off < 0x1_0000_0000 && 1 <= n <= CHUNK
      requires forall x | 0 <= x < |src| :: 0 <= src[x] < 256
      modifies this
      ensures Valid() && |addrs| == old(|addrs|)
      ensures r.None? ==> forall b | 0 <= b < sb.size :: used[b]
      ensures r.Some? ==> r.value == (if Refused(old(size[i]), off, n) then -1 else n) && |dirty| <= MAXOPBLOCKS
      ensures r == Some(-1) ==> Files() == old(Files())
      ensures r == Some(n) ==>
                Files() == old(Files())[i := Stored(old(Files()[i]), off, src[..Min(n, |src|)], Total(off, n, |src|))]
    {
      ChunkFits(off, n);
      dirty := {};
      ghost var tot, touched;
      r, tot, touched := Writei(i, off, n, src);
      if r.Some? { SubsetSize(dirty, touched); }
    }

    /** The chunk of m bytes at k of a write of src at off. */
    method NextChunk(i: int, off: int, k: int, m: int, src: seq<int>, bad: set<int>) returns (r: Option<int>)
      requires Valid() && 0 <= i < |addrs| && 0 <= off && 0 <= k && off + k < 0x1_0000_0000
      requires 1 <= m <= CHUNK && k + m <= |src| && forall x | 0 <= x < |src| :: 0 <= src[x] < 256
      modifies this
      ensures Valid() && |addrs| == old(|addrs|)
      ensures r.None? ==> forall b | 0 <= b < sb.size :: used[b]
      ensures r.Some? ==> r.value == (if Refused(old(size[i]), off + k, m) then -1 else m) && |dirty| <= MAXOPBLOCKS
      ensures r == Some(-1) ==> Files() == old(Files())
      ensures r == Some(m) ==>
                off + k <= old(size[i])
                && Files() == old(Files())[i := AfterChunk(old(Files()[i]), off, k, m, src, bad)]
    {
      var s := Copied(src, bad, k, m);
      assert s[..Min(m, |s|)] == s;
      r := WriteChunk(i, off + k, m, s);
    }

    /** filewrite's loop: the file becomes, and k bytes are counted as written, as Chunks says. */
    method WriteChunks(i: int, off: int, n: int, src: seq<int>, bad: set<int>)
        returns (k: Option<int>, ghost g: seq<int>, ghost txns: seq<set<int>>)
      requires Valid() && 0 <= i < |addrs| && 0 <= off < 0x1_0000_0000 && n < 0x8000_0000 && n <= |src|
      requires forall x | 0 <= x < |src| :: 0 <= src[x] < 256
      modifies this
      ensures Valid() && |addrs| == old(|addrs|)
      ensures forall t | t in txns :: |t| <= MAXOPBLOCKS
      ensures k.None? ==> forall b | 0 <= b < sb.size :: used[b]
      ensures k.Some? ==> Files() == old(Files())[i := g] && Lead(old(Files()[i]), off, 0, n, src, bad, (g, k.value))
    {
      var j := 0;
      txns := [];
      ghost var fs := Files();
      g := fs[i];
      ghost var all := Chunks(g, off, 0, n, src, bad);
      while j < n
        invariant Valid() && |addrs| == old(|addrs|) && 0 <= j <= Max(n, 0) && off + j < 0x1_0000_0000
        invariant Files() == fs[i := g] && Lead(g, off, j, n, src, bad, all)
        invariant forall t | t in txns :: |t| <= MAXOPBLOCKS
      {
        var n1 := if n - j > CHUNK then CHUNK else n - j;
        LeadStep(g, off, j, n, src, bad, all, n1);
        var r := NextChunk(i, off, j, n1, src, bad);
        if r.None? {
          return None, g, txns;
        }
        txns := txns + [dirty];
        if r.value < 0 {
          break;
        }
        g := AfterChunk(g, off, j, n1, src, bad);
        j := j + r.value;
      }
      k := Some(j);
    }

    /** Writes n bytes to a file whose offset is off, a chunk to a transaction; the offsets in bad are those that cannot
        be copied from the caller. None where the kernel panics for want of a block. */
    method Filewrite(i: int, off: int, n: int, src: seq<int>, bad: set<int>)
        returns (ret: Option<int>, off': int, ghost txns: seq<set<int>>)
      requires Valid() && 0 <= i < |addrs| && 0 <= off < 0x1_0000_0000 && n < 0x8000_0000 && n <= |src|
      requires forall x | 0 <= x < |src| :: 0 <= src[x] < 256
      modifies this
      ensures Valid() && |addrs| == old(|addrs|)
      ensures forall t | t in txns :: |t| <= MAXOPBLOCKS
      ensures ret.None? ==> forall b | 0 <= b < sb.size :: used[b]
      ensures ret.Some? ==>
                ret.value == if n == 0 || (n > 0 && !Refused(old(size[i]), off, n)
                                           && NeededCopied(old(size[i]), off, 0, n, bad)) then n else -1
      ensures ret.Some? ==> off <= off' <= off + Max(n, 0) && (ret.value >= 0 ==> off' == off + n)
      ensures ret.Some? ==>
                Files() == old(Files())[i := Files()[i]]
                && Landed(old(Files()[i]), Files()[i], off, 0, off' - off, src, Landing(bad, |src|))
      ensures ret.Some? && (forall x | 0 <= x < n :: x !in bad) ==>
                Files() == old(Files())[i := if off > old(size[i]) then old(Files()[i])
                                             else Overwrite(old(Files()[i]), off, src[..off' - off])]
    {
      ghost var fs := Files();
      var k;
      ghost var g;
      k, g, txns := WriteChunks(i, off, n, src, bad);
      if k.None? {
        return None, off, txns;
      }
      ChunksMean(fs[i], off, n, src, bad, g, k.value);
      off' := off + k.value;
      ret := Some(if k.value == n then n else -1);
    }
  }

  /** A write inside a file is reported as complete whatever cannot be copied: with the first byte not there, the file
      keeps what it had for the first chunk and has the later ones. */
  lemma HoleIsLeft(f: seq<int>, src: seq<int>, g: seq<int>, e: int)
    requires CHUNK < |src| <= |f| <= MAXFILE * BSIZE && Lead(f, 0, 0, |src|, src, {0}, (g, e))
    ensures e == |src| && |g| == |f|
    ensures forall x | 0 <= x < |f| :: g[x] == if CHUNK <= x < |src| then src[x] else f[x]
  {
    var land := Landing({0}, |src|);
    ChunksMean(f, 0, |src|, src, {0}, g, e);
    forall x | 0 <= x < |f| ensures g[x] == if CHUNK <= x < |src| then src[x] else f[x] {
      assert LandAt(f, g, 0, 0, e, src, land, x);
      if x < CHUNK { assert !Lands({0}, x) by { assert x / CHUNK * CHUNK <= 0; } }
    }
  }

  /** A write whose copy fails is reported as complete: of 10 bytes, 3 of which can be copied, none is in the file. */
  method ShortWrite(fs: Fs, i: int) returns (r: Option<int>)
    requires fs.Valid() && 0 <= i < |fs.addrs| && fs.size[i] == 0
    modifies fs
    ensures fs.Valid() && |fs.addrs| == old(|fs.addrs|)
    ensures r.None? ==> forall b | 0 <= b < fs.sb.size :: fs.used[b]
    ensures r.Some? ==> r.value == 10 && fs.Files()[i] == []
  {
    ghost var tot, touched;
    r, tot, touched := fs.Writei(i, 0, 10, [97, 98, 99]);
  }
}
