/** Inodes over a disk: the block bitmap, the direct and indirect block map, and who owns which block.

    Blocks are sequences of BSIZE bytes; an indirect block is read as little-endian 32-bit words. `oi` and `os` name,
    for each block in use, the inode and the slot of that inode that refer to it.
 */
module Inode {
  import opened Basics

  const BSIZE := 1024
  const NDIRECT := 12
  const NINDIRECT := 256
  const MAXFILE := 268
  const SLOTS := 269
  const BPB := 8192
  const IPB := 16


  datatype Super = Super(size: int, ninodes: int, inodestart: int, bmapstart: int, datastart: int)

  // ---- words in blocks ----

  ghost predicate Bytes(b: Block) {
    |b| == BSIZE && forall x | 0 <= x < BSIZE :: 0 <= b[x] < 256
  }

  function Little(b: Block, at: int, n: nat): (v: int)
    requires 0 <= at && at + n <= |b|
    decreases n
  {
    if n == 0 then 0 else b[at] + 256 * Little(b, at + 1, n - 1)
  }

  function Word(b: Block, j: int): (v: int)
    requires |b| == BSIZE && 0 <= j < NINDIRECT
  {
    Little(b, 4 * j, 4)
  }

  function PutWord(b: Block, j: int, v: int): (r: Block)
    requires |b| == BSIZE && 0 <= j < NINDIRECT
    ensures |r| == BSIZE
  {
    b[4 * j := v % 256][4 * j + 1 := v / 256 % 256][4 * j + 2 := v / 65536 % 256][4 * j + 3 := v / 16777216 % 256]
  }

  lemma Unfold(b: Block, at: int)
    requires 0 <= at && at + 4 <= |b|
    ensures Little(b, at, 4) == b[at] + 256 * b[at + 1] + 65536 * b[at + 2] + 16777216 * b[at + 3]
  {
    assert Little(b, at + 3, 1) == b[at + 3];
    assert Little(b, at + 2, 2) == b[at + 2] + 256 * Little(b, at + 3, 1);
  }

  lemma PutBytes(b: Block, j: int, v: int)
    requires Bytes(b) && 0 <= j < NINDIRECT && 0 <= v
    ensures Bytes(PutWord(b, j, v))
  {
  }

  lemma Digits(v: int)
    requires 0 <= v < 0x1_0000_0000
    ensures v == v % 256 + 256 * (v / 256 % 256) + 65536 * (v / 65536 % 256) + 16777216 * (v / 16777216 % 256)
  {
    assert v / 65536 == v / 256 / 256 && v / 16777216 == v / 65536 / 256;
    assert v / 16777216 < 256;
  }

  lemma WordPut(b: Block, j: int, v: int, k: int)
    requires |b| == BSIZE && 0 <= j < NINDIRECT && 0 <= k < NINDIRECT && 0 <= v < 0x1_0000_0000
    ensures Word(PutWord(b, j, v), k) == if k == j then v else Word(b, k)
  {
    var r := PutWord(b, j, v);
    Unfold(b, 4 * k);
    Unfold(r, 4 * k);
    if k == j {
      Digits(v);
    } else {
      assert r[4 * k] == b[4 * k] && r[4 * k + 1] == b[4 * k + 1] && r[4 * k + 2] == b[4 * k + 2]
             && r[4 * k + 3] == b[4 * k + 3];
    }
  }

  function Zeros(n: nat): (b: Block)
    ensures |b| == n && forall x | 0 <= x < n :: b[x] == 0
  {
    seq(n, _ => 0)
  }

  lemma ZeroWord(k: int)
    requires 0 <= k < NINDIRECT
    ensures Word(Zeros(BSIZE), k) == 0
  {
    Unfold(Zeros(BSIZE), 4 * k);
  }

  // ---- references ----

  /** The block that slot k of inode i refers to, 0 for none: the direct blocks, the indirect block,
      then its entries. */
  function Ref(data: seq<Block>, addrs: seq<seq<int>>, i: int, k: int): (b: int)
    requires 0 <= i < |addrs| && |addrs[i]| == NDIRECT + 1 && 0 <= k < SLOTS
  {
    var ind := addrs[i][NDIRECT];
    if k <= NDIRECT then addrs[i][k]
    else if 0 < ind < |data| && |data[ind]| == BSIZE then Word(data[ind], k - NDIRECT - 1)
    else 0
  }

  /** The slot for block bn of a file. */
  function Slot(bn: int): (k: int) {
    if bn < NDIRECT then bn else bn + 1
  }

  ghost predicate Shape(sb: Super, used: seq<bool>, data: seq<Block>, addrs: seq<seq<int>>, oi: seq<int>,
                        os: seq<int>) {
    && 1 <= sb.datastart <= sb.size < 0x1_0000_0000
    && |used| == sb.size && |data| == sb.size && |oi| == sb.size && |os| == sb.size
    && (forall b | 0 <= b < |data| :: Bytes(data[b]))
    && (forall i | 0 <= i < |addrs| :: |addrs[i]| == NDIRECT + 1)
    && (forall b | 0 <= b < sb.datastart :: used[b])
  }

  /** A block in use that inode i refers to from slot k has that slot for its owner. */
  ghost predicate RefAt(sb: Super, used: seq<bool>, data: seq<Block>, addrs: seq<seq<int>>, oi: seq<int>, os: seq<int>,
                        i: int, k: int)
    requires Shape(sb, used, data, addrs, oi, os) && 0 <= i < |addrs| && 0 <= k < SLOTS
  {
    var r := Ref(data, addrs, i, k);
    r != 0 ==> sb.datastart <= r < sb.size && used[r] && oi[r] == i && os[r] == k
  }

  /** A data block in use is referred to by its owner. */
  ghost predicate BlockAt(sb: Super, used: seq<bool>, data: seq<Block>, addrs: seq<seq<int>>, oi: seq<int>,
                          os: seq<int>, b: int)
    requires Shape(sb, used, data, addrs, oi, os) && sb.datastart <= b < sb.size
  {
    used[b] ==> 0 <= oi[b] < |addrs| && 0 <= os[b] < SLOTS && Ref(data, addrs, oi[b], os[b]) == b
  }

  /** Blocks and references match, except for the first `gone` entries of the indirect block of inode `at`. */
  ghost predicate Matched(sb: Super, used: seq<bool>, data: seq<Block>, addrs: seq<seq<int>>, oi: seq<int>,
                          os: seq<int>, at: int, gone: int) {
    && Shape(sb, used, data, addrs, oi, os)
    && (forall i, k {:trigger RefAt(sb, used, data, addrs, oi, os, i, k)} |
          0 <= i < |addrs| && 0 <= k < SLOTS && !(i == at && NDIRECT < k <= NDIRECT + gone) ::
            RefAt(sb, used, data, addrs, oi, os, i, k))
    && (forall b {:trigger BlockAt(sb, used, data, addrs, oi, os, b)} | sb.datastart <= b < sb.size ::
         BlockAt(sb, used, data, addrs, oi, os, b))
  }

  /** Each data block in use is referred to by exactly one slot, and no slot refers to a free block. */
  ghost predicate Owned(sb: Super, used: seq<bool>, data: seq<Block>, addrs: seq<seq<int>>, oi: seq<int>,
                        os: seq<int>) {
    Matched(sb, used, data, addrs, oi, os, 0, 0)
  }

  /** What ownership means, without the owner tables: used blocks are the blocks referred to, each from one slot. */
  lemma OneOwner(sb: Super, used: seq<bool>, data: seq<Block>, addrs: seq<seq<int>>, oi: seq<int>, os: seq<int>)
    requires Owned(sb, used, data, addrs, oi, os)
    ensures forall i, k, i', k' | 0 <= i < |addrs| && 0 <= k < SLOTS && 0 <= i' < |addrs| && 0 <= k' < SLOTS ::
              Ref(data, addrs, i, k) == Ref(data, addrs, i', k') != 0 ==> i == i' && k == k'
    ensures forall b | sb.datastart <= b < sb.size ::
              used[b] <==> exists i, k | 0 <= i < |addrs| && 0 <= k < SLOTS :: Ref(data, addrs, i, k) == b
  {
    forall i, k, i', k' | 0 <= i < |addrs| && 0 <= k < SLOTS && 0 <= i' < |addrs| && 0 <= k' < SLOTS
      ensures Ref(data, addrs, i, k) == Ref(data, addrs, i', k') != 0 ==> i == i' && k == k'
    {
      assert RefAt(sb, used, data, addrs, oi, os, i, k) && RefAt(sb, used, data, addrs, oi, os, i', k');
    }
    forall b | sb.datastart <= b < sb.size
      ensures used[b] <==> exists i, k | 0 <= i < |addrs| && 0 <= k < SLOTS :: Ref(data, addrs, i, k) == b
    {
      assert BlockAt(sb, used, data, addrs, oi, os, b);
      if i, k :| 0 <= i < |addrs| && 0 <= k < SLOTS && Ref(data, addrs, i, k) == b {
        assert RefAt(sb, used, data, addrs, oi, os, i, k);
      }
    }
  }

  // ---- what one step changes ----

  /** Two disks give every slot but slot k of inode i the same reference. */
  ghost predicate SameBut(data: seq<Block>, addrs: seq<seq<int>>, data': seq<Block>, addrs': seq<seq<int>>, i: int,
                          k: int) {
    && |data'| == |data| && |addrs'| == |addrs|
    && (forall x | 0 <= x < |addrs| :: |addrs[x]| == NDIRECT + 1 && |addrs'[x]| == NDIRECT + 1)
    && (forall x, y {:trigger Ref(data', addrs', x, y)} | 0 <= x < |addrs| && 0 <= y < SLOTS && !(x == i && y == k) ::
          Ref(data', addrs', x, y) == Ref(data, addrs, x, y))
  }

  /** A free block becomes the block of an empty slot. */
  lemma Attach(sb: Super, used: seq<bool>, data: seq<Block>, addrs: seq<seq<int>>, oi: seq<int>, os: seq<int>,
               i: int, k: int, b: int, data': seq<Block>, addrs': seq<seq<int>>)
    requires Owned(sb, used, data, addrs, oi, os) && sb.datastart <= b < sb.size && !used[b]
    requires 0 <= i < |addrs| && 0 <= k < SLOTS && SameBut(data, addrs, data', addrs', i, k)
    requires Ref(data, addrs, i, k) == 0 && Ref(data', addrs', i, k) == b
             && (forall c | 0 <= c < |data'| :: Bytes(data'[c]))
    ensures Owned(sb, used[b := true], data', addrs', oi[b := i], os[b := k])
  {
    var used', oi', os' := used[b := true], oi[b := i], os[b := k];
    forall x, y | 0 <= x < |addrs'| && 0 <= y < SLOTS ensures RefAt(sb, used', data', addrs', oi', os', x, y) {
      assert RefAt(sb, used, data, addrs, oi, os, x, y);
    }
    forall c | sb.datastart <= c < sb.size ensures BlockAt(sb, used', data', addrs', oi', os', c) {
      assert BlockAt(sb, used, data, addrs, oi, os, c);
    }
  }

  /** The block of a slot becomes free, and the slot empty. */
  lemma Detach(sb: Super, used: seq<bool>, data: seq<Block>, addrs: seq<seq<int>>, oi: seq<int>, os: seq<int>,
               i: int, k: int, b: int, addrs': seq<seq<int>>)
    requires Owned(sb, used, data, addrs, oi, os) && 0 <= i < |addrs| && 0 <= k < NDIRECT
    requires b == Ref(data, addrs, i, k) && b != 0
    requires SameBut(data, addrs, data, addrs', i, k) && Ref(data, addrs', i, k) == 0
    ensures sb.datastart <= b < sb.size && used[b] && Owned(sb, used[b := false], data, addrs', oi, os)
  {
    assert RefAt(sb, used, data, addrs, oi, os, i, k);
    var used' := used[b := false];
    forall x, y | 0 <= x < |addrs'| && 0 <= y < SLOTS ensures RefAt(sb, used', data, addrs', oi, os, x, y) {
      assert RefAt(sb, used, data, addrs, oi, os, x, y);
    }
    forall c | sb.datastart <= c < sb.size ensures BlockAt(sb, used', data, addrs', oi, os, c) {
      assert BlockAt(sb, used, data, addrs, oi, os, c);
    }
  }

  /** Overwriting a block that no inode uses as its indirect block changes no reference. */
  lemma DataWrite(sb: Super, used: seq<bool>, data: seq<Block>, addrs: seq<seq<int>>, oi: seq<int>, os: seq<int>,
                  b: int, v: Block)
    requires Owned(sb, used, data, addrs, oi, os) && sb.datastart <= b < sb.size && Bytes(v)
             && (used[b] ==> os[b] != NDIRECT)
    ensures SameBut(data, addrs, data[b := v], addrs, -1, 0)
    ensures Owned(sb, used, data[b := v], addrs, oi, os)
  {
    var data' := data[b := v];
    forall x, y | 0 <= x < |addrs| && 0 <= y < SLOTS ensures Ref(data', addrs, x, y) == Ref(data, addrs, x, y) {
      assert RefAt(sb, used, data, addrs, oi, os, x, NDIRECT);
    }
    forall x, y | 0 <= x < |addrs| && 0 <= y < SLOTS ensures RefAt(sb, used, data', addrs, oi, os, x, y) {
      assert RefAt(sb, used, data, addrs, oi, os, x, y);
    }
    forall c | sb.datastart <= c < sb.size ensures BlockAt(sb, used, data', addrs, oi, os, c) {
      assert BlockAt(sb, used, data, addrs, oi, os, c);
    }
  }

  /** Storing b in an address of the inode. */
  lemma StoreAddr(sb: Super, used: seq<bool>, data: seq<Block>, addrs: seq<seq<int>>, oi: seq<int>, os: seq<int>,
                  i: int, k: int, b: int)
    requires Owned(sb, used, data, addrs, oi, os) && 0 <= i < |addrs| && 0 <= k <= NDIRECT && 0 <= b < sb.size
    requires k == NDIRECT ==> addrs[i][k] == 0 && 0 < b && data[b] == Zeros(BSIZE)
    ensures SameBut(data, addrs, data, addrs[i := addrs[i][k := b]], i, k)
    ensures Ref(data, addrs[i := addrs[i][k := b]], i, k) == b
  {
    var addrs' := addrs[i := addrs[i][k := b]];
    forall x, y | 0 <= x < |addrs| && 0 <= y < SLOTS && !(x == i && y == k)
      ensures Ref(data, addrs', x, y) == Ref(data, addrs, x, y) {
      if k == NDIRECT && x == i && y > NDIRECT { ZeroWord(y - NDIRECT - 1); }
    }
  }

  /** Storing b in an entry of the indirect block. */
  lemma StoreEntry(sb: Super, used: seq<bool>, data: seq<Block>, addrs: seq<seq<int>>, oi: seq<int>, os: seq<int>,
                   i: int, j: int, b: int)
    requires Owned(sb, used, data, addrs, oi, os) && 0 <= i < |addrs| && 0 <= j < NINDIRECT && 0 <= b < sb.size
             && addrs[i][NDIRECT] != 0
    ensures var ind := addrs[i][NDIRECT];
            sb.datastart <= ind < sb.size && used[ind] && oi[ind] == i && os[ind] == NDIRECT
    ensures var ind := addrs[i][NDIRECT]; var data' := data[ind := PutWord(data[ind], j, b)];
            && SameBut(data, addrs, data', addrs, i, NDIRECT + 1 + j) && Ref(data', addrs, i, NDIRECT + 1 + j) == b
            && Bytes(data'[ind])
  {
    var ind := addrs[i][NDIRECT];
    assert RefAt(sb, used, data, addrs, oi, os, i, NDIRECT);
    var data' := data[ind := PutWord(data[ind], j, b)];
    PutBytes(data[ind], j, b);
    WordPut(data[ind], j, b, j);
    forall x, y | 0 <= x < |addrs| && 0 <= y < SLOTS && !(x == i && y == NDIRECT + 1 + j)
      ensures Ref(data', addrs, x, y) == Ref(data, addrs, x, y)
    {
      assert RefAt(sb, used, data, addrs, oi, os, x, NDIRECT);
      if x == i && y > NDIRECT { WordPut(data[ind], j, b, y - NDIRECT - 1); }
    }
  }

  /** Every reference and the contents of every data block survive; slots that were empty may have been filled. */
  ghost predicate Extends(data: seq<Block>, addrs: seq<seq<int>>, data': seq<Block>, addrs': seq<seq<int>>) {
    && |data'| == |data| && |addrs'| == |addrs|
    && (forall x | 0 <= x < |addrs| :: |addrs[x]| == NDIRECT + 1 && |addrs'[x]| == NDIRECT + 1)
    && (forall x, y {:trigger KeptAt(data, addrs, data', addrs', x, y)} | 0 <= x < |addrs| && 0 <= y < SLOTS ::
         KeptAt(data, addrs, data', addrs', x, y))
  }

  ghost predicate KeptAt(data: seq<Block>, addrs: seq<seq<int>>, data': seq<Block>, addrs': seq<seq<int>>, x: int,
                         y: int)
    requires |data'| == |data| && |addrs'| == |addrs| && 0 <= x < |addrs| && 0 <= y < SLOTS
    requires |addrs[x]| == NDIRECT + 1 && |addrs'[x]| == NDIRECT + 1
  {
    var r := Ref(data, addrs, x, y);
    r != 0 ==> Ref(data', addrs', x, y) == r && (y != NDIRECT && 0 <= r < |data| ==> data'[r] == data[r])
  }

  lemma ExtendsTrans(data: seq<Block>, addrs: seq<seq<int>>, data1: seq<Block>, addrs1: seq<seq<int>>,
                     data2: seq<Block>, addrs2: seq<seq<int>>)
    requires Extends(data, addrs, data1, addrs1) && Extends(data1, addrs1, data2, addrs2)
    ensures Extends(data, addrs, data2, addrs2)
  {
    forall x, y | 0 <= x < |addrs| && 0 <= y < SLOTS ensures KeptAt(data, addrs, data2, addrs2, x, y) {
      assert KeptAt(data, addrs, data1, addrs1, x, y) && KeptAt(data1, addrs1, data2, addrs2, x, y);
    }
  }

  /** A zeroed free block b becomes an address of inode i. */
  lemma AllocAddr(sb: Super, used: seq<bool>, data: seq<Block>, addrs: seq<seq<int>>, oi: seq<int>, os: seq<int>,
                  i: int, k: int, b: int)
    requires Owned(sb, used, data, addrs, oi, os) && sb.datastart <= b < sb.size && !used[b]
    requires 0 <= i < |addrs| && 0 <= k <= NDIRECT && addrs[i][k] == 0
    ensures var data', addrs' := data[b := Zeros(BSIZE)], addrs[i := addrs[i][k := b]];
            && Owned(sb, used[b := true], data', addrs', oi[b := i], os[b := k])
            && Extends(data, addrs, data', addrs') && Ref(data', addrs', i, k) == b
  {
    var data', addrs' := data[b := Zeros(BSIZE)], addrs[i := addrs[i][k := b]];
    DataWrite(sb, used, data, addrs, oi, os, b, Zeros(BSIZE));
    StoreAddr(sb, used, data', addrs, oi, os, i, k, b);
    Attach(sb, used, data', addrs, oi, os, i, k, b, data', addrs');
    forall x, y | 0 <= x < |addrs| && 0 <= y < SLOTS ensures KeptAt(data, addrs, data', addrs', x, y) {
      assert RefAt(sb, used, data, addrs, oi, os, x, y) && Ref(data', addrs, x, y) == Ref(data, addrs, x, y);
      assert !(x == i && y == k) ==> Ref(data', addrs', x, y) == Ref(data', addrs, x, y);
    }
  }

  /** A zeroed free block b becomes an entry of the indirect block of inode i. */
  lemma AllocEntry(sb: Super, used: seq<bool>, data: seq<Block>, addrs: seq<seq<int>>, oi: seq<int>, os: seq<int>,
                   i: int, j: int, b: int)
    requires Owned(sb, used, data, addrs, oi, os) && sb.datastart <= b < sb.size && !used[b]
    requires 0 <= i < |addrs| && 0 <= j < NINDIRECT && addrs[i][NDIRECT] != 0
             && Ref(data, addrs, i, NDIRECT + 1 + j) == 0
    ensures var ind := addrs[i][NDIRECT]; 0 <= ind < |data| && ind != b
    ensures var ind := addrs[i][NDIRECT]; var data' := data[b := Zeros(BSIZE)][ind := PutWord(data[ind], j, b)];
            && Owned(sb, used[b := true], data', addrs, oi[b := i], os[b := NDIRECT + 1 + j])
            && Extends(data, addrs, data', addrs) && Ref(data', addrs, i, NDIRECT + 1 + j) == b
  {
    var ind := addrs[i][NDIRECT];
    var data1 := data[b := Zeros(BSIZE)];
    StoreEntry(sb, used, data, addrs, oi, os, i, j, b);
    DataWrite(sb, used, data, addrs, oi, os, b, Zeros(BSIZE));
    StoreEntry(sb, used, data1, addrs, oi, os, i, j, b);
    var data' := data1[ind := PutWord(data1[ind], j, b)];
    assert Ref(data1, addrs, i, NDIRECT + 1 + j) == 0;
    Attach(sb, used, data1, addrs, oi, os, i, NDIRECT + 1 + j, b, data', addrs);
    forall x, y | 0 <= x < |addrs| && 0 <= y < SLOTS ensures KeptAt(data, addrs, data', addrs, x, y) {
      assert RefAt(sb, used, data, addrs, oi, os, x, y) && Ref(data1, addrs, x, y) == Ref(data, addrs, x, y);
      assert !(x == i && y == NDIRECT + 1 + j) ==> Ref(data', addrs, x, y) == Ref(data1, addrs, x, y);
    }
  }

  // ---- file contents ----

  function ByteAt(data: seq<Block>, addrs: seq<seq<int>>, i: int, x: int): (v: int)
    requires 0 <= i < |addrs| && |addrs[i]| == NDIRECT + 1 && 0 <= x
  {
    if x >= MAXFILE * BSIZE then 0 else
    var r := Ref(data, addrs, i, Slot(x / BSIZE));
    if 0 < r < |data| && |data[r]| == BSIZE then data[r][x % BSIZE] else 0
  }

  /** Block bn of file i is there if any byte of it lies below the file's size. */
  ghost predicate FilledAt(data: seq<Block>, addrs: seq<seq<int>>, n: int, i: int, bn: int)
    requires 0 <= i < |addrs| && |addrs[i]| == NDIRECT + 1
  {
    0 <= bn < MAXFILE && bn * BSIZE < n ==> Ref(data, addrs, i, Slot(bn)) != 0
  }

  ghost predicate Filled(data: seq<Block>, addrs: seq<seq<int>>, n: int, i: int)
    requires 0 <= i < |addrs| && |addrs[i]| == NDIRECT + 1
  {
    forall bn {:trigger FilledAt(data, addrs, n, i, bn)} :: FilledAt(data, addrs, n, i, bn)
  }

  ghost predicate Good(sb: Super, used: seq<bool>, data: seq<Block>, addrs: seq<seq<int>>, size: seq<int>,
                       oi: seq<int>, os: seq<int>) {
    && Owned(sb, used, data, addrs, oi, os)
    && |size| == |addrs|
    && (forall i | 0 <= i < |addrs| :: 0 <= size[i] <= MAXFILE * BSIZE && Filled(data, addrs, size[i], i))
  }

  /** The bytes of file i. */
  ghost function File(data: seq<Block>, addrs: seq<seq<int>>, size: seq<int>, i: int): (f: seq<int>)
    requires 0 <= i < |addrs| && |addrs[i]| == NDIRECT + 1 && i < |size| && 0 <= size[i]
    ensures |f| == size[i] && forall x | 0 <= x < size[i] :: f[x] == ByteAt(data, addrs, i, x)
  {
    seq(size[i], x requires 0 <= x => ByteAt(data, addrs, i, x))
  }

  /** Filling empty slots changes no file. */
  lemma ExtendsFiles(sb: Super, used: seq<bool>, data: seq<Block>, addrs: seq<seq<int>>, size: seq<int>, oi: seq<int>,
                     os: seq<int>,
                     data': seq<Block>, addrs': seq<seq<int>>, i: int)
    requires Good(sb, used, data, addrs, size, oi, os) && Extends(data, addrs, data', addrs') && 0 <= i < |addrs|
    ensures Filled(data', addrs', size[i], i) && File(data', addrs', size, i) == File(data, addrs, size, i)
  {
    forall bn ensures FilledAt(data', addrs', size[i], i, bn) {
      assert FilledAt(data, addrs, size[i], i, bn);
      assert 0 <= bn < MAXFILE ==> KeptAt(data, addrs, data', addrs', i, Slot(bn));
    }
    forall x | 0 <= x < size[i] ensures ByteAt(data', addrs', i, x) == ByteAt(data, addrs, i, x) {
      assert FilledAt(data, addrs, size[i], i, x / BSIZE);
      assert KeptAt(data, addrs, data', addrs', i, Slot(x / BSIZE));
      assert RefAt(sb, used, data, addrs, oi, os, i, Slot(x / BSIZE));
    }
  }

  /** A file's block, rewritten, changes that block's bytes of that file and nothing else. */
  lemma WriteBytes(sb: Super, used: seq<bool>, data: seq<Block>, addrs: seq<seq<int>>, oi: seq<int>, os: seq<int>,
                   i: int, bn: int, r: int, v: Block, x: int, y: int)
    requires Owned(sb, used, data, addrs, oi, os) && 0 <= i < |addrs| && 0 <= bn < MAXFILE && Bytes(v)
    requires r == Ref(data, addrs, i, Slot(bn)) && r != 0 && 0 <= x < |addrs| && 0 <= y
    ensures sb.datastart <= r < |data|
    ensures ByteAt(data[r := v], addrs, x, y) == if x == i && y / BSIZE == bn then v[y % BSIZE]
            else ByteAt(data, addrs, x, y)
  {
    assert RefAt(sb, used, data, addrs, oi, os, i, Slot(bn));
    DataWrite(sb, used, data, addrs, oi, os, r, v);
    if y < MAXFILE * BSIZE {
      assert RefAt(sb, used, data, addrs, oi, os, x, Slot(y / BSIZE));
      assert Ref(data[r := v], addrs, x, Slot(y / BSIZE)) == Ref(data, addrs, x, Slot(y / BSIZE));
    }
  }

  /** Bytes s put into b from position at on. */
  function Patch(b: Block, at: int, s: seq<int>): (r: Block)
    requires 0 <= at && at + |s| <= |b|
    ensures |r| == |b| && forall x | 0 <= x < |b| :: r[x] == if at <= x < at + |s| then s[x - at] else b[x]
  {
    b[..at] + s + b[at + |s|..]
  }

  // ---- truncation ----

  /** None of the first j entries of the indirect block of inode i owns a block in use. */
  ghost predicate Dropped(sb: Super, used: seq<bool>, oi: seq<int>, os: seq<int>, i: int, j: int)
    requires |used| == |oi| == |os| == sb.size && 0 <= sb.datastart
  {
    forall b | sb.datastart <= b < sb.size && used[b] && oi[b] == i :: os[b] <= NDIRECT || os[b] > NDIRECT + j
  }

  /** The block of entry j of the indirect block of inode i becomes free, though the entry still names it. */
  lemma DropEntry(sb: Super, used: seq<bool>, data: seq<Block>, addrs: seq<seq<int>>, oi: seq<int>, os: seq<int>,
                  i: int, j: int, used': seq<bool>)
    requires Matched(sb, used, data, addrs, oi, os, i, j) && 0 <= i < |addrs| && 0 <= j < NINDIRECT
             && Dropped(sb, used, oi, os, i, j)
    requires var r := Ref(data, addrs, i, NDIRECT + 1 + j);
             if r == 0 then used' == used else 0 <= r < |used| && used' == used[r := false]
    ensures var r := Ref(data, addrs, i, NDIRECT + 1 + j);
            r != 0 ==> sb.datastart <= r < sb.size && used[r] && oi[r] == i && os[r] == NDIRECT + 1 + j
    ensures Matched(sb, used', data, addrs, oi, os, i, j + 1) && Dropped(sb, used', oi, os, i, j + 1)
  {
    assert RefAt(sb, used, data, addrs, oi, os, i, NDIRECT + 1 + j);
    forall x, y | 0 <= x < |addrs| && 0 <= y < SLOTS && !(x == i && NDIRECT < y <= NDIRECT + j + 1)
      ensures RefAt(sb, used', data, addrs, oi, os, x, y) {
      assert RefAt(sb, used, data, addrs, oi, os, x, y);
    }
    forall c | sb.datastart <= c < sb.size
      ensures BlockAt(sb, used', data, addrs, oi, os, c)
              && (used'[c] && oi[c] == i ==> os[c] <= NDIRECT || os[c] > NDIRECT + j + 1)
    {
      assert BlockAt(sb, used, data, addrs, oi, os, c);
    }
  }

  /** With all its entries dropped, the indirect block itself becomes free. */
  lemma DropIndirect(sb: Super, used: seq<bool>, data: seq<Block>, addrs: seq<seq<int>>, oi: seq<int>, os: seq<int>,
                     i: int, addrs': seq<seq<int>>)
    requires Matched(sb, used, data, addrs, oi, os, i, NINDIRECT) && 0 <= i < |addrs| && addrs[i][NDIRECT] != 0
    requires Dropped(sb, used, oi, os, i, NINDIRECT)
    requires addrs' == addrs[i := addrs[i][NDIRECT := 0]]
    ensures var ind := addrs[i][NDIRECT];
            sb.datastart <= ind < sb.size && used[ind] && oi[ind] == i && os[ind] == NDIRECT
    ensures var ind := addrs[i][NDIRECT]; Owned(sb, used[ind := false], data, addrs', oi, os)
  {
    var ind := addrs[i][NDIRECT];
    assert RefAt(sb, used, data, addrs, oi, os, i, NDIRECT);
    var used' := used[ind := false];
    forall x, y | 0 <= x < |addrs'| && 0 <= y < SLOTS ensures RefAt(sb, used', data, addrs', oi, os, x, y) {
      if !(x == i && y > NDIRECT) { assert RefAt(sb, used, data, addrs, oi, os, x, y); }
    }
    forall c | sb.datastart <= c < sb.size ensures BlockAt(sb, used', data, addrs', oi, os, c) {
      assert BlockAt(sb, used, data, addrs, oi, os, c);
    }
  }

  /** An inode without addresses owns no block. */
  lemma OwnsNothing(sb: Super, used: seq<bool>, data: seq<Block>, addrs: seq<seq<int>>, oi: seq<int>, os: seq<int>,
                    i: int)
    requires Owned(sb, used, data, addrs, oi, os) && 0 <= i < |addrs|
             && forall y | 0 <= y <= NDIRECT :: addrs[i][y] == 0
    ensures forall b | sb.datastart <= b < sb.size && used[b] :: oi[b] != i
  {
    forall b | sb.datastart <= b < sb.size && used[b] ensures oi[b] != i {
      assert BlockAt(sb, used, data, addrs, oi, os, b);
    }
  }

  /** Files whose addresses are left alone keep their bytes. */
  lemma Untouched(data: seq<Block>, addrs: seq<seq<int>>, size: seq<int>, addrs': seq<seq<int>>, size': seq<int>,
                  x: int)
    requires 0 <= x < |addrs| == |addrs'| == |size| == |size'| && |addrs[x]| == NDIRECT + 1 && addrs'[x] == addrs[x]
             && size'[x] == size[x] >= 0
    ensures File(data, addrs', size', x) == File(data, addrs, size, x)
    ensures Filled(data, addrs, size[x], x) ==> Filled(data, addrs', size[x], x)
  {
    forall y | 0 <= y < size[x] ensures ByteAt(data, addrs', x, y) == ByteAt(data, addrs, x, y) {}
    if Filled(data, addrs, size[x], x) {
      forall bn ensures FilledAt(data, addrs', size[x], x, bn) { assert FilledAt(data, addrs, size[x], x, bn); }
    }
  }
}
