/** The on-disk write-ahead log: header codec, commit and recovery, one block write at a time.

    A block is BSIZE bytes seen as 256 32-bit words. The log occupies `size` blocks from `start`: a header
    block holding n and n home block numbers, then the n logged copies. Every other block is a home block.
 */
module LogDisk {
  import opened Basics

  const LOGSIZE: nat := 3 * MAXOPBLOCKS
  const WORDS: nat := 256

  type Disk = seq<Block>

  datatype Layout = Layout(start: nat, size: nat, nblocks: nat)

  predicate Fits(l: Layout, d: Disk) {
    1 <= l.size && l.start + l.size <= l.nblocks == |d| && |d[l.start]| == WORDS
  }

  predicate IsHome(l: Layout, b: int) {
    0 <= b < l.nblocks && !(l.start <= b < l.start + l.size)
  }

  /** A list of logged blocks the log can hold: distinct home blocks, no more than the log has room for. */
  predicate LogList(l: Layout, lh: seq<int>) {
    && |lh| <= LOGSIZE && |lh| < l.size
    && (forall i | 0 <= i < |lh| :: IsHome(l, lh[i]))
    && (forall i, j | 0 <= i < j < |lh| :: lh[i] != lh[j])
  }

  /** Words 1 to n of a block. */
  function Entries(b: Block, n: nat): (lh: seq<int>)
    requires n < |b|
    ensures |lh| == n
  {
    if n == 0 then [] else Entries(b, n - 1) + [b[n]]
  }

  /** A block with the first k entries of lh put in words 1 to k. */
  function PutEntries(b: Block, lh: seq<int>, k: nat): (r: Block)
    requires k <= |lh| && k < |b|
    ensures |r| == |b| && r[0] == b[0]
  {
    if k == 0 then b else PutEntries(b, lh, k - 1)[k := lh[k - 1]]
  }

  lemma {:induction false} EntriesKept(b: Block, n: nat, k: nat, v: int)
    requires n < k < |b|
    ensures Entries(b[k := v], n) == Entries(b, n)
  {
    if n > 0 { EntriesKept(b, n - 1, k, v); }
  }

  lemma {:induction false} EntriesPut(b: Block, lh: seq<int>, k: nat)
    requires k <= |lh| && k < |b|
    ensures Entries(PutEntries(b, lh, k), k) == lh[..k]
  {
    if k > 0 {
      EntriesPut(b, lh, k - 1);
      EntriesKept(PutEntries(b, lh, k - 1), k - 1, k, lh[k - 1]);
    }
  }

  /** The block list that read_head decodes; a negative count reads as the empty list. */
  function Header(b: Block): (lh: seq<int>)
    requires |b| == WORDS
    ensures |lh| < WORDS
  {
    if 0 <= b[0] < WORDS then Entries(b, b[0]) else []
  }

  /** What write_head leaves in the header block: words past the list keep their old values. */
  function PutHeader(b: Block, lh: seq<int>): (r: Block)
    requires |b| == WORDS && |lh| <= LOGSIZE
    ensures |r| == WORDS && Header(r) == lh && r[0] == |lh|
  {
    EntriesPut(b[0 := |lh|], lh, |lh|);
    PutEntries(b[0 := |lh|], lh, |lh|)
  }

  predicate HeaderOk(l: Layout, d: Disk) {
    Fits(l, d) && d[l.start][0] <= LOGSIZE && LogList(l, Header(d[l.start]))
  }

  /** `d` after the first k logged blocks have been copied home. */
  function Install(l: Layout, d: Disk, lh: seq<int>, k: nat): (r: Disk)
    requires Fits(l, d) && LogList(l, lh) && k <= |lh|
    ensures |r| == |d| && r[l.start] == d[l.start]
  {
    if k == 0 then d else
      var r := Install(l, d, lh, k - 1);
      r[lh[k - 1] := r[l.start + k]]
  }

  lemma {:induction false} InstallIs(l: Layout, d: Disk, lh: seq<int>, k: nat)
    requires Fits(l, d) && LogList(l, lh) && k <= |lh|
    ensures forall i | 0 <= i < k :: Install(l, d, lh, k)[lh[i]] == d[l.start + 1 + i]
    ensures forall b | 0 <= b < |d| && b !in lh[..k] :: Install(l, d, lh, k)[b] == d[b]
  {
    if k > 0 {
      InstallIs(l, d, lh, k - 1);
      assert lh[..k] == lh[..k - 1] + [lh[k - 1]];
      assert l.start + k !in lh[..k - 1];
    }
  }

  /** The disk a completed, uninterrupted recovery leaves. */
  function Recovered(l: Layout, d: Disk): (r: Disk)
    requires HeaderOk(l, d)
    ensures |r| == |d|
  {
    var lh := Header(d[l.start]);
    var r := Install(l, d, lh, |lh|);
    r[l.start := PutHeader(r[l.start], [])]
  }

  ghost predicate SameHome(l: Layout, d: Disk, e: Disk) {
    |d| == |e| == l.nblocks && forall b {:trigger IsHome(l, b)} | IsHome(l, b) :: d[b] == e[b]
  }

  /** The copies in the log are those of t for the listed blocks, the home blocks are those of t for the rest. */
  ghost predicate Holds(l: Layout, d: Disk, lh: seq<int>, t: Disk)
    requires Fits(l, d) && LogList(l, lh)
  {
    && |t| == |d|
    && (forall i {:trigger lh[i]} | 0 <= i < |lh| :: d[l.start + 1 + i] == t[lh[i]])
    && (forall b {:trigger IsHome(l, b)} | IsHome(l, b) && b !in lh :: d[b] == t[b])
  }

  /** Declarative form of "a recovery started from d ends with the home blocks of t". */
  ghost predicate RecoversTo(l: Layout, d: Disk, t: Disk) {
    HeaderOk(l, d) && Holds(l, d, Header(d[l.start]), t)
  }

  lemma RecoveredIs(l: Layout, d: Disk)
    requires HeaderOk(l, d)
    ensures var lh := Header(d[l.start]);
            && (forall i | 0 <= i < |lh| :: Recovered(l, d)[lh[i]] == d[l.start + 1 + i])
            && (forall b {:trigger IsHome(l, b)} | IsHome(l, b) && b !in lh :: Recovered(l, d)[b] == d[b])
    ensures Header(Recovered(l, d)[l.start]) == []
  {
    var lh := Header(d[l.start]);
    InstallIs(l, d, lh, |lh|);
    assert lh[..|lh|] == lh;
  }

  lemma RecoversToIff(l: Layout, d: Disk, t: Disk)
    requires HeaderOk(l, d)
    ensures RecoversTo(l, d, t) <==> SameHome(l, Recovered(l, d), t)
    ensures Header(Recovered(l, d)[l.start]) == []
  {
    RecoveredIs(l, d);
    SameHomeIff(l, d, Header(d[l.start]), Recovered(l, d), t);
  }

  /** r being d with the logged copies at home, d holds t exactly if r is t. */
  lemma SameHomeIff(l: Layout, d: Disk, lh: seq<int>, r: Disk, t: Disk)
    requires Fits(l, d) && LogList(l, lh) && |r| == |d|
    requires forall i {:trigger lh[i]} | 0 <= i < |lh| :: r[lh[i]] == d[l.start + 1 + i]
    requires forall b {:trigger IsHome(l, b)} | IsHome(l, b) && b !in lh :: r[b] == d[b]
    ensures Holds(l, d, lh, t) <==> SameHome(l, r, t)
  {
    if SameHome(l, r, t) {
      forall i | 0 <= i < |lh| ensures d[l.start + 1 + i] == t[lh[i]] { assert IsHome(l, lh[i]); }
    }
    if Holds(l, d, lh, t) {
      forall b | IsHome(l, b) ensures r[b] == t[b] {
        if b in lh { var i :| 0 <= i < |lh| && lh[i] == b; }
      }
    }
  }

  /** One installing write, by commit or by recovery, does not change what recovery leads to. */
  lemma InstallOneKeeps(l: Layout, d: Disk, t: Disk, lh: seq<int>, k: nat, e: Disk)
    requires RecoversTo(l, d, t) && lh == Header(d[l.start]) && k < |lh|
    requires IsHome(l, lh[k]) && e == d[lh[k] := d[l.start + 1 + k]]
    ensures RecoversTo(l, e, t)
  {
    HoldsInstall(l, d, t, lh, k);
  }

  lemma HoldsInstall(l: Layout, d: Disk, t: Disk, lh: seq<int>, k: nat)
    requires Fits(l, d) && LogList(l, lh) && Holds(l, d, lh, t) && k < |lh|
    ensures IsHome(l, lh[k])
    ensures var e := d[lh[k] := d[l.start + 1 + k]]; Fits(l, e) && Holds(l, e, lh, t)
  {
    assert IsHome(l, lh[k]);
    var e := d[lh[k] := d[l.start + 1 + k]];
    forall i | 0 <= i < |lh| ensures e[l.start + 1 + i] == t[lh[i]] {
      assert !IsHome(l, l.start + 1 + i);
    }
    forall b | IsHome(l, b) && b !in lh ensures e[b] == t[b] { assert b != lh[k]; }
  }

  /** Erasing the header is harmless once every logged block is home. */
  lemma ClearKeeps(l: Layout, d: Disk, t: Disk)
    requires RecoversTo(l, d, t)
    requires forall i | 0 <= i < |Header(d[l.start])| :: d[Header(d[l.start])[i]] == t[Header(d[l.start])[i]]
    ensures RecoversTo(l, d[l.start := PutHeader(d[l.start], [])], t)
  {
    var lh := Header(d[l.start]);
    var e := d[l.start := PutHeader(d[l.start], [])];
    forall b | IsHome(l, b) ensures e[b] == t[b] {
      assert IsHome(l, b);
      if b in lh { var i :| 0 <= i < |lh| && lh[i] == b; }
    }
  }

  /** The contents a client sees: the modified cached copy if there is one, else the disk. */
  function View(d: Disk, dirty: map<int, Block>, b: int): (v: Block)
    requires 0 <= b < |d|
  {
    if b in dirty then dirty[b] else d[b]
  }

  /** The whole disk as clients see it. */
  function Overlay(d: Disk, dirty: map<int, Block>): (r: Disk)
    ensures |r| == |d| && forall b | 0 <= b < |d| :: r[b] == View(d, dirty, b)
  {
    seq(|d|, b requires 0 <= b < |d| => View(d, dirty, b))
  }

  /** Writing a log block cannot matter while the header on disk is empty. */
  lemma LogBlockKeeps(l: Layout, d: Disk, t: Disk, k: nat, v: Block)
    requires RecoversTo(l, d, t) && Header(d[l.start]) == [] && k + 1 < l.size
    ensures RecoversTo(l, d[l.start + 1 + k := v], t)
  {
    var e := d[l.start + 1 + k := v];
    assert e[l.start] == d[l.start];
    forall b | IsHome(l, b) ensures e[b] == t[b] { assert IsHome(l, b); }
  }

  /** A header block that lists lh, written over d, makes recovery lead to o. */
  lemma HeaderSwitch(l: Layout, d: Disk, h: Block, lh: seq<int>, o: Disk)
    requires Fits(l, d) && LogList(l, lh) && |h| == WORDS && Header(h) == lh && h[0] <= LOGSIZE && |o| == |d|
    requires forall i {:trigger lh[i]} | 0 <= i < |lh| :: IsHome(l, lh[i]) && d[l.start + 1 + i] == o[lh[i]]
    requires forall b {:trigger IsHome(l, b)} | IsHome(l, b) && b !in lh :: d[b] == o[b]
    ensures RecoversTo(l, d[l.start := h], o)
  {
    var e := d[l.start := h];
    forall i | 0 <= i < |lh| ensures e[l.start + 1 + i] == o[lh[i]] {
      assert IsHome(l, lh[i]);
    }
    forall b | IsHome(l, b) && b !in lh ensures e[b] == o[b] { assert b != l.start; }
  }

  /** The commit point: the header write switches recovery from the home blocks of d0 to the logged ones. */
  lemma HeaderCommits(l: Layout, d0: Disk, d: Disk, dirty: map<int, Block>, lh: seq<int>)
    requires HeaderOk(l, d) && LogList(l, lh) && SameHome(l, d, d0)
    requires forall b | b in dirty :: b in lh
    requires forall i | 0 <= i < |lh| :: IsHome(l, lh[i]) && d[l.start + 1 + i] == View(d0, dirty, lh[i])
    ensures RecoversTo(l, d[l.start := PutHeader(d[l.start], lh)], Overlay(d0, dirty))
  {
    var o := Overlay(d0, dirty);
    forall i | 0 <= i < |lh| ensures IsHome(l, lh[i]) && d[l.start + 1 + i] == o[lh[i]] {}
    forall b | IsHome(l, b) && b !in lh ensures d[b] == o[b] { assert d[b] == d0[b]; }
    HeaderSwitch(l, d, PutHeader(d[l.start], lh), lh, o);
  }

  /** The disks install_trans writes, in order. */
  function InstallImages(l: Layout, d: Disk, lh: seq<int>, k: nat): (r: seq<Disk>)
    requires Fits(l, d) && LogList(l, lh) && k <= |lh|
    ensures |r| == k
  {
    if k == 0 then [] else InstallImages(l, d, lh, k - 1) + [Install(l, d, lh, k)]
  }

  /** `d` after the first k logged blocks have been copied from the cache to the log. */
  function CopyToLog(l: Layout, d: Disk, dirty: map<int, Block>, lh: seq<int>, k: nat): (r: Disk)
    requires Fits(l, d) && LogList(l, lh) && k <= |lh|
    ensures Fits(l, r) && r[l.start] == d[l.start]
  {
    if k == 0 then d else
      var r := CopyToLog(l, d, dirty, lh, k - 1);
      r[l.start + k := View(r, dirty, lh[k - 1])]
  }

  /** The disks write_log writes, in order. */
  function CopyImages(l: Layout, d: Disk, dirty: map<int, Block>, lh: seq<int>, k: nat): (r: seq<Disk>)
    requires Fits(l, d) && LogList(l, lh) && k <= |lh|
    ensures |r| == k
  {
    if k == 0 then [] else CopyImages(l, d, dirty, lh, k - 1) + [CopyToLog(l, d, dirty, lh, k)]
  }

  /** write_head. */
  function WithHeader(l: Layout, d: Disk, lh: seq<int>): (r: Disk)
    requires Fits(l, d) && |lh| <= LOGSIZE
    ensures Fits(l, r) && Header(r[l.start]) == lh
  {
    d[l.start := PutHeader(d[l.start], lh)]
  }

  /** The disks recover_from_log writes, in order. */
  function RecoveryImages(l: Layout, d: Disk): (r: seq<Disk>)
    requires HeaderOk(l, d)
  {
    var lh := Header(d[l.start]);
    InstallImages(l, d, lh, |lh|) + [Recovered(l, d)]
  }

  /** The disks commit writes, in order: log blocks, header, home blocks, empty header. */
  function CommitImages(l: Layout, d: Disk, dirty: map<int, Block>, lh: seq<int>): (r: seq<Disk>)
    requires Fits(l, d) && LogList(l, lh)
    ensures |r| == if lh == [] then 0 else 2 * |lh| + 2
  {
    if lh == [] then [] else
      var c := WithHeader(l, CopyToLog(l, d, dirty, lh, |lh|), lh);
      CopyImages(l, d, dirty, lh, |lh|) + [c] + RecoveryImages(l, c)
  }

  /** What a commit may assume: the previous transaction is fully installed, and what is modified is logged. */
  ghost predicate Ready(l: Layout, d: Disk, dirty: map<int, Block>, lh: seq<int>) {
    && HeaderOk(l, d) && Header(d[l.start]) == []
    && LogList(l, lh)
    && forall b | b in dirty :: b in lh
  }

  lemma {:induction false} CopyToLogIs(l: Layout, d: Disk, dirty: map<int, Block>, lh: seq<int>, k: nat)
    requires Fits(l, d) && LogList(l, lh) && k <= |lh|
    ensures SameHome(l, CopyToLog(l, d, dirty, lh, k), d)
    ensures forall i {:trigger lh[i]} | 0 <= i < k ::
              IsHome(l, lh[i]) && CopyToLog(l, d, dirty, lh, k)[l.start + 1 + i] == View(d, dirty, lh[i])
  {
    if k > 0 {
      CopyToLogIs(l, d, dirty, lh, k - 1);
      assert IsHome(l, lh[k - 1]);
    }
  }

  lemma {:induction false} InstallKeeps(l: Layout, d: Disk, t: Disk, lh: seq<int>, k: nat)
    requires RecoversTo(l, d, t) && lh == Header(d[l.start]) && k <= |lh|
    ensures RecoversTo(l, Install(l, d, lh, k), t)
  {
    if k > 0 {
      InstallKeeps(l, d, t, lh, k - 1);
      var r, e := Install(l, d, lh, k - 1), Install(l, d, lh, k);
      assert IsHome(l, lh[k - 1]) && e == r[lh[k - 1] := r[l.start + k]];
      InstallOneKeeps(l, r, t, lh, k - 1, e);
    }
  }

  lemma {:induction false} InstallImagesAre(l: Layout, d: Disk, lh: seq<int>, k: nat, i: nat)
    requires Fits(l, d) && LogList(l, lh) && i < k <= |lh|
    ensures InstallImages(l, d, lh, k)[i] == Install(l, d, lh, i + 1)
  {
    if i < k - 1 { InstallImagesAre(l, d, lh, k - 1, i); }
  }

  lemma {:induction false} CopyImagesAre(l: Layout, d: Disk, dirty: map<int, Block>, lh: seq<int>, k: nat, i: nat)
    requires Fits(l, d) && LogList(l, lh) && i < k <= |lh|
    ensures CopyImages(l, d, dirty, lh, k)[i] == CopyToLog(l, d, dirty, lh, i + 1)
  {
    if i < k - 1 { CopyImagesAre(l, d, dirty, lh, k - 1, i); }
  }

  lemma RecoveredKeeps(l: Layout, d: Disk, t: Disk)
    requires RecoversTo(l, d, t)
    ensures RecoversTo(l, Recovered(l, d), t)
  {
    RecoversToIff(l, d, t);
  }

  lemma CopyKeeps(l: Layout, d: Disk, dirty: map<int, Block>, lh: seq<int>, k: nat)
    requires Ready(l, d, dirty, lh) && k <= |lh|
    ensures RecoversTo(l, CopyToLog(l, d, dirty, lh, k), d)
  {
    CopyToLogIs(l, d, dirty, lh, k);
  }

  /** A crash after any write of a recovery leaves a disk that recovers to the same home blocks. */
  lemma RecoveryIsCrashSafe(l: Layout, d: Disk, t: Disk, i: nat)
    requires RecoversTo(l, d, t) && i < |RecoveryImages(l, d)|
    ensures RecoversTo(l, RecoveryImages(l, d)[i], t)
  {
    var lh := Header(d[l.start]);
    RecoveryImagesAre(l, d, lh, i);
    ImageRecovers(l, d, t, lh, i, RecoveryImages(l, d)[i]);
  }

  lemma ImageRecovers(l: Layout, d: Disk, t: Disk, lh: seq<int>, i: nat, e: Disk)
    requires RecoversTo(l, d, t) && lh == Header(d[l.start])
    requires e == if i < |lh| then Install(l, d, lh, i + 1) else Recovered(l, d)
    ensures RecoversTo(l, e, t)
  {
    if i < |lh| {
      InstallKeeps(l, d, t, lh, i + 1);
    } else {
      RecoveredKeeps(l, d, t);
    }
  }

  lemma RecoveryImagesAre(l: Layout, d: Disk, lh: seq<int>, i: nat)
    requires HeaderOk(l, d) && lh == Header(d[l.start]) && i < |RecoveryImages(l, d)|
    ensures RecoveryImages(l, d)[i] == if i < |lh| then Install(l, d, lh, i + 1) else Recovered(l, d)
  {
    if i < |lh| { InstallImagesAre(l, d, lh, |lh|, i); }
  }

  lemma CommitPoint(l: Layout, d: Disk, dirty: map<int, Block>, lh: seq<int>)
    requires Ready(l, d, dirty, lh)
    ensures RecoversTo(l, WithHeader(l, CopyToLog(l, d, dirty, lh, |lh|), lh), Overlay(d, dirty))
  {
    CopyToLogIs(l, d, dirty, lh, |lh|);
    HeaderCommits(l, d, CopyToLog(l, d, dirty, lh, |lh|), dirty, lh);
  }

  lemma CommitResult(l: Layout, d: Disk, dirty: map<int, Block>, lh: seq<int>)
    requires Ready(l, d, dirty, lh)
    ensures var c := WithHeader(l, CopyToLog(l, d, dirty, lh, |lh|), lh);
            SameHome(l, Recovered(l, c), Overlay(d, dirty)) && Ready(l, Recovered(l, c), map[], [])
  {
    CommitPoint(l, d, dirty, lh);
    RecoversToIff(l, WithHeader(l, CopyToLog(l, d, dirty, lh, |lh|), lh), Overlay(d, dirty));
  }

  /** A crash after any write of a commit recovers to all the old home blocks before the header write, and to
      all the new ones from the header write on. */
  lemma CommitIsCrashSafe(l: Layout, d: Disk, dirty: map<int, Block>, lh: seq<int>, i: nat)
    requires Ready(l, d, dirty, lh) && i < |CommitImages(l, d, dirty, lh)|
    ensures RecoversTo(l, CommitImages(l, d, dirty, lh)[i], if i < |lh| then d else Overlay(d, dirty))
  {
    if i < |lh| {
      CopyImagesAre(l, d, dirty, lh, |lh|, i);
      assert CommitImages(l, d, dirty, lh)[i] == CopyToLog(l, d, dirty, lh, i + 1);
      CopyKeeps(l, d, dirty, lh, i + 1);
    } else {
      var c := WithHeader(l, CopyToLog(l, d, dirty, lh, |lh|), lh);
      CommitPoint(l, d, dirty, lh);
      if i == |lh| {
        assert CommitImages(l, d, dirty, lh)[i] == c;
      } else {
        assert CommitImages(l, d, dirty, lh)[i] == RecoveryImages(l, c)[i - |lh| - 1];
        RecoveryIsCrashSafe(l, c, Overlay(d, dirty), i - |lh| - 1);
      }
    }
  }

  /** Disks on which successive recoveries start: each was left by a crash during the one before. */
  ghost predicate CrashChain(l: Layout, ds: seq<Disk>) {
    && (forall i | 0 <= i < |ds| :: HeaderOk(l, ds[i]))
    && (forall i | 0 < i < |ds| :: ds[i] == ds[i - 1] || ds[i] in RecoveryImages(l, ds[i - 1]))
  }

  /** All or nothing: commit crashes after write i, then recovery crashes any number of times; the first recovery
      to complete leaves the home blocks all old or all new, as write i alone decides. */
  lemma {:induction false} CrashAtomicity(l: Layout, d: Disk, dirty: map<int, Block>, lh: seq<int>, i: nat,
                                          ds: seq<Disk>)
    requires Ready(l, d, dirty, lh) && i < |CommitImages(l, d, dirty, lh)|
    requires CrashChain(l, ds) && ds != [] && ds[0] == CommitImages(l, d, dirty, lh)[i]
    ensures SameHome(l, Recovered(l, ds[|ds| - 1]), if i < |lh| then d else Overlay(d, dirty))
  {
    CommitIsCrashSafe(l, d, dirty, lh, i);
    ChainEnds(l, ds, if i < |lh| then d else Overlay(d, dirty));
  }

  /** However often recovery crashes, completing it leads where the first disk did. */
  lemma ChainEnds(l: Layout, ds: seq<Disk>, t: Disk)
    requires CrashChain(l, ds) && ds != [] && RecoversTo(l, ds[0], t)
    ensures SameHome(l, Recovered(l, ds[|ds| - 1]), t)
  {
    ChainKeeps(l, ds, |ds| - 1, t);
    RecoversToIff(l, ds[|ds| - 1], t);
  }

  lemma ImageKeeps(l: Layout, d: Disk, e: Disk, t: Disk)
    requires RecoversTo(l, d, t) && e in RecoveryImages(l, d)
    ensures RecoversTo(l, e, t)
  {
    var i :| 0 <= i < |RecoveryImages(l, d)| && RecoveryImages(l, d)[i] == e;
    RecoveryIsCrashSafe(l, d, t, i);
  }

  lemma {:induction false} ChainKeeps(l: Layout, ds: seq<Disk>, n: nat, t: Disk)
    requires CrashChain(l, ds) && n < |ds| && RecoversTo(l, ds[0], t)
    ensures RecoversTo(l, ds[n], t)
  {
    if n > 0 {
      ChainKeeps(l, ds, n - 1, t);
      if ds[n] != ds[n - 1] { ImageKeeps(l, ds[n - 1], ds[n], t); }
    }
  }

  /** The first k blocks of a list. */
  function Listed(lh: seq<int>, k: nat): (r: set<int>)
    requires k <= |lh|
    ensures forall b :: b in r <==> b in lh[..k]
  {
    set i | 0 <= i < k :: lh[i]
  }

  lemma {:induction false} ListedSize(lh: seq<int>, k: nat)
    requires k <= |lh| && forall i, j | 0 <= i < j < |lh| :: lh[i] != lh[j]
    ensures |Listed(lh, k)| == k
  {
    if k > 0 {
      ListedSize(lh, k - 1);
      assert lh[..k] == lh[..k - 1] + [lh[k - 1]];
      assert Listed(lh, k) == Listed(lh, k - 1) + {lh[k - 1]};
    }
  }

  /** bpin minus bunpin of block b. */
  function Count(pins: map<int, int>, b: int): (n: int) {
    if b in pins then pins[b] else 0
  }

  /** `pins` after one bunpin for each of the first k blocks. */
  function Unpinned(pins: map<int, int>, lh: seq<int>, k: nat): (r: map<int, int>)
    requires k <= |lh|
  {
    if k == 0 then pins else
      var r := Unpinned(pins, lh, k - 1);
      r[lh[k - 1] := Count(r, lh[k - 1]) - 1]
  }

  lemma {:induction false} UnpinnedIs(pins: map<int, int>, lh: seq<int>, k: nat, b: int)
    requires k <= |lh| && forall i, j | 0 <= i < j < |lh| :: lh[i] != lh[j]
    ensures Count(Unpinned(pins, lh, k), b) == Count(pins, b) - if b in lh[..k] then 1 else 0
  {
    if k > 0 {
      UnpinnedIs(pins, lh, k - 1, b);
      assert lh[..k] == lh[..k - 1] + [lh[k - 1]];
    }
  }

  /** Every logged block is pinned once, and no other block is. */
  ghost predicate PinnedOnce(pins: map<int, int>, lh: seq<int>) {
    forall b :: Count(pins, b) == if b in lh then 1 else 0
  }

  /** Installing a transaction takes every pin away. */
  lemma AllUnpinned(pins: map<int, int>, lh: seq<int>)
    requires PinnedOnce(pins, lh) && forall i, j | 0 <= i < j < |lh| :: lh[i] != lh[j]
    ensures PinnedOnce(Unpinned(pins, lh, |lh|), [])
  {
    assert lh[..|lh|] == lh;
    forall b ensures Count(Unpinned(pins, lh, |lh|), b) == 0 { UnpinnedIs(pins, lh, |lh|, b); }
  }

  lemma Joined(w: seq<Disk>, x: seq<Disk>, c: Disk, y: seq<Disk>, z: Disk)
    ensures w + x + [c] + y + [z] == w + (x + [c] + (y + [z]))
  {
  }

  lemma NothingAhead(dirty: map<int, Block>, lh: seq<int>)
    requires forall b | b in dirty :: b in lh
    ensures dirty - Listed(lh, |lh|) == map[]
  {
    var r := dirty - Listed(lh, |lh|);
    assert forall b :: b !in r;
  }

  /** struct log together with the disk under it. `writes` records the disk after each block write. */
  class Log {
    const l: Layout
    var disk: Disk
    var dirty: map<int, Block>  // cached copies ahead of the disk
    var pins: map<int, int>     // bpin minus bunpin, by block
    var lh: seq<int>            // lh.block[0..lh.n]
    ghost var writes: seq<Disk>

    constructor (l: Layout, disk: Disk)
      ensures this.l == l && this.disk == disk && dirty == map[] && pins == map[] && lh == [] && writes == []
    {
      this.l, this.disk, dirty, pins, lh, writes := l, disk, map[], map[], [], [];
    }

    /** bwrite: the only operation that changes the disk. */
    method WriteBlock(b: nat, v: Block)
      requires b < |disk|
      modifies `disk, `writes
      ensures disk == old(disk)[b := v] && writes == old(writes) + [disk]
    {
      disk := disk[b := v];
      writes := writes + [disk];
    }

    /** read_head. */
    method ReadHead()
      requires HeaderOk(l, disk)
      modifies `lh
      ensures lh == Header(disk[l.start])
    {
      var b := disk[l.start];
      var n := b[0];
      var i := 0;
      lh := [];
      while i < n
        invariant 0 <= i && (i <= n || i == 0) && lh == Entries(b, i)
        modifies `lh
      {
        lh := lh + [b[i + 1]];
        i := i + 1;
      }
    }

    /** write_head. */
    method WriteHead()
      requires Fits(l, disk) && |lh| <= LOGSIZE
      modifies `disk, `writes
      ensures disk == WithHeader(l, old(disk), lh) && writes == old(writes) + [disk]
    {
      var hb: seq<int> := disk[l.start];
      hb := hb[0 := |lh|];
      var i := 0;
      while i < |lh|
        invariant 0 <= i <= |lh| && hb == PutEntries(disk[l.start][0 := |lh|], lh, i)
      {
        hb := hb[1 + i := lh[i]];
        i := i + 1;
      }
      WriteBlock(l.start, hb);
    }

    /** write_log. */
    method WriteLog()
      requires Fits(l, disk) && LogList(l, lh)
      modifies `disk, `writes
      ensures disk == CopyToLog(l, old(disk), dirty, lh, |lh|)
      ensures writes == old(writes) + CopyImages(l, old(disk), dirty, lh, |lh|)
    {
      var tail := 0;
      while tail < |lh|
        invariant 0 <= tail <= |lh|
        invariant disk == CopyToLog(l, old(disk), dirty, lh, tail)
        invariant writes == old(writes) + CopyImages(l, old(disk), dirty, lh, tail)
        modifies `disk, `writes
      {
        assert IsHome(l, lh[tail]);
        WriteBlock(l.start + tail + 1, View(disk, dirty, lh[tail]));
        tail := tail + 1;
      }
    }

    /** install_trans; a block copied home is no longer ahead of the disk, and is unpinned. */
    method InstallTrans()
      requires Fits(l, disk) && LogList(l, lh)
      modifies `disk, `writes, `dirty, `pins
      ensures disk == Install(l, old(disk), lh, |lh|)
      ensures dirty == old(dirty) - Listed(lh, |lh|)
      ensures pins == Unpinned(old(pins), lh, |lh|)
      ensures writes == old(writes) + InstallImages(l, old(disk), lh, |lh|)
    {
      var tail := 0;
      while tail < |lh|
        invariant 0 <= tail <= |lh|
        invariant disk == Install(l, old(disk), lh, tail)
        invariant dirty == old(dirty) - Listed(lh, tail)
        invariant pins == Unpinned(old(pins), lh, tail)
        invariant writes == old(writes) + InstallImages(l, old(disk), lh, tail)
        modifies `disk, `writes, `dirty, `pins
      {
        assert IsHome(l, lh[tail]);
        WriteBlock(lh[tail], disk[l.start + tail + 1]);
        MarkHome(tail, old(dirty));
        tail := tail + 1;
      }
      assert lh[..|lh|] == lh;
    }

    /** The buffer of the block just written is clean, and unpinned. */
    method MarkHome(tail: nat, ghost was: map<int, Block>)
      requires tail < |lh| && dirty == was - Listed(lh, tail)
      modifies `dirty, `pins
      ensures dirty == was - Listed(lh, tail + 1)
      ensures pins == old(pins)[lh[tail] := Count(old(pins), lh[tail]) - 1]
    {
      assert lh[..tail + 1] == lh[..tail] + [lh[tail]];
      dirty := dirty - {lh[tail]};
      pins := pins[lh[tail] := Count(pins, lh[tail]) - 1];
    }

    /** recover_from_log. */
    method RecoverFromLog()
      requires HeaderOk(l, disk)
      modifies `disk, `writes, `lh, `dirty, `pins
      ensures disk == Recovered(l, old(disk)) && lh == []
      ensures var h := Header(old(disk)[l.start]);
              dirty == old(dirty) - Listed(h, |h|) && pins == Unpinned(old(pins), h, |h|)
      ensures writes == old(writes) + RecoveryImages(l, old(disk))
    {
      ReadHead();
      InstallTrans();
      lh := [];
      WriteHead();
    }

    /** commit. */
    method Commit()
      requires Ready(l, disk, dirty, lh)
      modifies `disk, `writes, `lh, `dirty, `pins
      ensures old(PinnedOnce(pins, lh)) ==> PinnedOnce(pins, lh)
      ensures Ready(l, disk, dirty, lh) && lh == [] && dirty == map[]
      ensures SameHome(l, disk, Overlay(old(disk), old(dirty)))
      ensures writes == old(writes) + CommitImages(l, old(disk), old(dirty), old(lh))
    {
      if |lh| > 0 {
        CommitResult(l, disk, dirty, lh);
        WriteLog();
        WriteHead();
        ghost var c := disk;
        InstallTrans();
        NothingAhead(old(dirty), lh);
        if old(PinnedOnce(pins, lh)) { AllUnpinned(old(pins), lh); }
        lh := [];
        WriteHead();
        assert disk == Recovered(l, c);
        Joined(old(writes), CopyImages(l, old(disk), old(dirty), old(lh), |old(lh)|), c,
          InstallImages(l, c, old(lh), |old(lh)|), disk);
      } else {
        assert forall b :: b !in dirty;
        assert dirty == map[];
      }
    }

    /** log_write: a block already logged is absorbed, a new one is appended; `panic` is the size check. */
    method LogWrite(b: int, v: Block) returns (panic: bool)
      requires Ready(l, disk, dirty, lh) && IsHome(l, b)
      modifies `lh, `dirty, `pins
      ensures panic <==> old(|lh| >= LOGSIZE || |lh| >= l.size - 1)
      ensures panic ==> lh == old(lh) && dirty == old(dirty) && pins == old(pins)
      ensures old(PinnedOnce(pins, lh)) ==> PinnedOnce(pins, lh)
      ensures !panic ==> Ready(l, disk, dirty, lh) && dirty == old(dirty)[b := v]
      ensures !panic ==> lh == if b in old(lh) then old(lh) else old(lh) + [b]
      ensures !panic ==> Overlay(disk, dirty) == Overlay(disk, old(dirty))[b := v]
    {
      if |lh| >= LOGSIZE || |lh| >= l.size - 1 {
        return true;
      }
      panic := false;
      var i := 0;
      while i < |lh|
        invariant 0 <= i <= |lh|
        invariant b !in lh[..i]
      {
        if lh[i] == b { break; }
        i := i + 1;
      }
      if i == |lh| {
        assert forall c | c in lh :: c in lh + [b];
        pins := pins[b := Count(pins, b) + 1];
        lh := lh + [b];
      } else {
        assert lh[i := b] == lh;
        lh := lh[i := b];
      }
      dirty := dirty[b := v];
    }
  }
}
