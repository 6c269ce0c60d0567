/** The log and the buffer cache together: when does bread find a buffer?

    The count of a block's buffer is what the log machine says: its pins, which recovery may have left short, and its
    holders. A buffer whose count is not zero cannot be given to another block.
 */
module LogCache {
  import opened Basics
  import B = BufferCache
  import opened LogDisk
  import opened LogMachine
  import opened LogLedger
  import opened LogLimits

  const NBUF: nat := MAXOPBLOCKS * 3

  // ---- the buffers in use ----

  /** The blocks whose buffers have a count other than zero. */
  function Busy(s: State): (r: set<int>)
    ensures forall b :: b in r <==> Refcnt(s, b) != 0
  {
    set b | b in s.pins.Keys + s.held.Keys && Refcnt(s, b) != 0
  }

  ghost predicate TiedAt(c: B.Bufs, n: int, dev: int, s: State, a: int)
    requires B.Shape(c, n) && 0 <= a < n
  {
    c.refcnt[a] == if c.dev[a] == dev then Refcnt(s, c.blk[a]) else 0
  }

  /** The n buffers are those of a machine in state s, whose file system is on device dev. */
  ghost predicate Tied(c: B.Bufs, n: int, dev: int, s: State)
    requires B.Shape(c, n)
  {
    && (forall a {:trigger TiedAt(c, n, dev, s, a)} | 0 <= a < n :: TiedAt(c, n, dev, s, a))
    && (forall b | b in Busy(s) :: exists a :: 0 <= a < n && B.KeyOf(c, a) == (dev, b))
  }

  /** The blocks of those of the first k buffers that are in use. */
  function Used(c: B.Bufs, k: nat): (r: seq<int>)
    requires k <= |c.refcnt| == |c.blk|
    ensures |r| <= k
  {
    if k == 0 then [] else if c.refcnt[k - 1] != 0 then Used(c, k - 1) + [c.blk[k - 1]] else Used(c, k - 1)
  }

  lemma {:induction false} AllUsedIff(c: B.Bufs, k: nat)
    requires k <= |c.refcnt| == |c.blk|
    ensures |Used(c, k)| == k <==> forall a | 0 <= a < k :: c.refcnt[a] != 0
  {
    if k > 0 { AllUsedIff(c, k - 1); }
  }

  lemma {:induction false} UsedHas(c: B.Bufs, k: nat, b: int)
    requires k <= |c.refcnt| == |c.blk|
    ensures b in Used(c, k) <==> exists a :: 0 <= a < k && c.refcnt[a] != 0 && c.blk[a] == b
  {
    if k > 0 { UsedHas(c, k - 1, b); }
  }

  /** Buffers in use have different blocks. */
  ghost predicate Apart(c: B.Bufs, k: nat)
    requires k <= |c.refcnt| == |c.blk|
  {
    forall a, b | 0 <= a < b < k && c.refcnt[a] != 0 && c.refcnt[b] != 0 :: c.blk[a] != c.blk[b]
  }

  lemma {:induction false} UsedDistinct(c: B.Bufs, k: nat)
    requires k <= |c.refcnt| == |c.blk| && Apart(c, k)
    ensures forall i, j | 0 <= i < j < |Used(c, k)| :: Used(c, k)[i] != Used(c, k)[j]
  {
    if k > 0 {
      UsedDistinct(c, k - 1);
      UsedHas(c, k - 1, c.blk[k - 1]);
    }
  }

  lemma UsedIsBusy(c: B.Bufs, n: nat, dev: int, s: State, b: int)
    requires B.Shape(c, n) && Tied(c, n, dev, s)
    ensures b in Used(c, n) <==> b in Busy(s)
  {
    UsedHas(c, n, b);
    if b in Used(c, n) {
      var a :| 0 <= a < n && c.refcnt[a] != 0 && c.blk[a] == b;
      assert TiedAt(c, n, dev, s, a);
    }
    if b in Busy(s) {
      var a :| 0 <= a < n && B.KeyOf(c, a) == (dev, b);
      assert TiedAt(c, n, dev, s, a);
    }
  }

  lemma UsedApart(c: B.Bufs, n: nat, disk: B.Disk, dev: int, s: State)
    requires B.Coherent(c, n, disk) && dev != 0 && Tied(c, n, dev, s)
    ensures Apart(c, n)
  {
    forall a, b | 0 <= a < b < n && c.refcnt[a] != 0 && c.refcnt[b] != 0 ensures c.blk[a] != c.blk[b] {
      assert TiedAt(c, n, dev, s, a) && TiedAt(c, n, dev, s, b) && B.OneAt(c, n, a, b);
    }
  }

  lemma UsedSize(c: B.Bufs, n: nat, disk: B.Disk, dev: int, s: State)
    requires B.Coherent(c, n, disk) && dev != 0 && Tied(c, n, dev, s)
    ensures |Used(c, n)| == |Busy(s)|
  {
    var u := Used(c, n);
    UsedApart(c, n, disk, dev, s);
    UsedDistinct(c, n);
    ListedSize(u, |u|);
    assert u[..|u|] == u;
    forall b ensures b in Listed(u, |u|) <==> b in Busy(s) { UsedIsBusy(c, n, dev, s, b); }
    assert Listed(u, |u|) == Busy(s);
  }

  /** No buffer can be had for a block that is not in use if and only if as many blocks are in use as there are
      buffers: logged ones, ones that recovery left short, and ones that somebody holds. */
  lemma NoBufferIff(c: B.Bufs, n: nat, disk: B.Disk, dev: int, s: State, b: int)
    requires B.Coherent(c, n, disk) && dev != 0 && Tied(c, n, dev, s) && Refcnt(s, b) == 0
    ensures (forall a | 0 <= a < n :: B.KeyOf(c, a) != (dev, b) && c.refcnt[a] != 0) <==> |Busy(s)| == n
  {
    UsedSize(c, n, disk, dev, s);
    AllUsedIff(c, n);
    forall a | 0 <= a < n && c.refcnt[a] != 0 ensures B.KeyOf(c, a) != (dev, b) { assert TiedAt(c, n, dev, s, a); }
  }

  /** bread of block b, which is not in use: it panics exactly then. */
  method ReadBlock(cache: B.Cache, dev: int, b: int, ghost s: State) returns (r: Option<int>)
    requires cache.Valid() && dev != 0 && (dev, b) in cache.disk && Refcnt(s, b) == 0
             && Tied(cache.bufs, cache.n, dev, s)
    modifies cache
    ensures cache.Valid()
    ensures r.None? <==> |Busy(s)| == cache.n
  {
    NoBufferIff(cache.bufs, cache.n, cache.disk, dev, s, b);
    r := cache.Bread((dev, b));
  }

  // ---- how many can be in use ----

  /** The blocks that somebody holds. */
  function Readers(s: State): (r: set<int>)
    ensures forall b :: b in r <==> Held(s, b) != 0
  {
    set b | b in s.held.Keys && Held(s, b) != 0
  }

  lemma {:induction false} DistinctMost(debt: multiset<int>)
    ensures |set b | b in debt| <= |debt|
    decreases |debt|
  {
    if b :| b in debt {
      var rest := debt[b := 0];
      DistinctMost(rest);
      assert (set c | c in debt) == (set c | c in rest) + {b};
    } else {
      assert forall c :: c !in debt;
      assert (set c | c in debt) == {};
    }
  }

  lemma PendingMost(lh: seq<int>, x: PState)
    requires Distinct(lh)
    ensures |Pending(lh, x)| <= |lh|
  {
    ListedSize(lh, |lh|);
    forall b | b in Pending(lh, x) ensures b in Listed(lh, |lh|) {}
    SubsetSize(Pending(lh, x), Listed(lh, |lh|));
  }

  /** At no time of any run are more blocks in use, or yet to be unpinned, than can be logged, than recovery can have
      installed, and than are held. */
  lemma BusyMost(l: Layout, s: State)
    requires Ledger(l, s) && s.mode.Running?
    ensures |Busy(s) + Pending(s.lh, Phase(s.procs))| <= 2 * Cap(l) + |Readers(s)|
  {
    var d, h, r := Pending(s.lh, Phase(s.procs)), Short(s), Readers(s);
    forall b | b in Busy(s) ensures b in d + h + r { assert Count(s.pins, b) + s.debt[b] == if b in d then 1 else 0; }
    SubsetSize(Busy(s) + d, d + h + r);
    assert |d + h| == |d| + |h| - |d * h| && |d + h + r| == |d + h| + |r| - |(d + h) * r|;
    PendingMost(s.lh, Phase(s.procs));
    DistinctMost(s.debt);
  }

  predicate ReadsAt(s: State, k: nat, p: int)
    requires 0 <= p < |s.procs|
  {
    (s.procs[p] == Copying(k) || s.procs[p] == Installing(k)) && k < |s.lh|
  }

  /** A commit about to read in block number k of the log and the home block that goes with it. */
  predicate Reads(s: State, k: nat)
    ensures Reads(s, k) ==> k < |s.lh|
  {
    exists p | 0 <= p < |s.procs| :: ReadsAt(s, k, p)
  }

  /** The blocks that must have a buffer for that. */
  function Needed(l: Layout, s: State, k: nat): (r: set<int>)
    requires k < |s.lh|
  {
    Busy(s) + {l.start + 1 + k, s.lh[k]}
  }

  lemma ReadsPending(l: Layout, s: State, k: nat)
    requires GroupInv(l, s) && Reads(s, k)
    ensures s.lh[k] in Pending(s.lh, Phase(s.procs))
  {
    var p :| 0 <= p < |s.procs| && ReadsAt(s, k, p);
    CommitterStep(l, s, p, s.procs[p], s);
    if s.procs[p].Installing? { assert s.lh[k..][0] == s.lh[k]; }
  }

  lemma NeededMost(l: Layout, s: State, k: nat)
    requires Ledger(l, s) && s.mode.Running? && Reads(s, k)
    ensures |Needed(l, s, k)| <= 2 * Cap(l) + |Readers(s)| + 1
  {
    ReadsPending(l, s, k);
    BusyMost(l, s);
    NeededWithin(l, s, k, Pending(s.lh, Phase(s.procs)));
  }

  lemma NeededWithin(l: Layout, s: State, k: nat, pend: set<int>)
    requires k < |s.lh| && s.lh[k] in pend
    ensures |Needed(l, s, k)| <= |Busy(s) + pend| + 1
  {
    SubsetSize(Needed(l, s, k), Busy(s) + pend + {l.start + 1 + k});
  }

  /** A state of some run since the disk was made, crashes allowed, and any use of any block. */
  ghost predicate Occurs(l: Layout, s0: State, s: State) {
    exists states: seq<State>, events: seq<Event> ::
      Run(l, states, events) && states[0] == s0 && states[|events|] == s
  }

  lemma OccursLedger(l: Layout, s0: State, s: State)
    requires Occurs(l, s0, s)
    ensures Ledger(l, s)
  {
    var states: seq<State>, events: seq<Event> :| Run(l, states, events) && states[0] == s0 && states[|events|] == s;
    LedgerRun(l, states, events, |events|);
  }

  /** Distinct home blocks, k of them. */
  ghost predicate Plenty(l: Layout, bs: seq<int>, k: nat) {
    |bs| == k && HomeList(l, bs)
  }

  /** Readers read in the first n of the blocks ks. */
  lemma {:induction false} HoldAll(l: Layout, s0: State, s: State, a: Store, on: Use, ks: seq<int>, n: nat)
      returns (s': State)
    requires Leads(l, s0, s, a, on) && s.mode.Running? && Quiet(s) && n <= |ks| && Distinct(ks)
    requires HomeList(l, ks) && Uses(on, ks)
    ensures Leads(l, s0, s', a, on) && s' == s.(held := s'.held)
    ensures forall b {:trigger Count(s'.held, b)} :: Count(s'.held, b) == if b in ks[..n] then 1 else 0
  {
    if n == 0 {
      s' := s;
    } else {
      var r := HoldAll(l, s0, s, a, on, ks, n - 1);
      var b := ks[n - 1];
      s' := ReadIn(l, s0, r, a, on, b);
      assert ks[..n] == ks[..n - 1] + [b];
      assert forall i | 0 <= i < n - 1 :: ks[i] != b;
      forall c ensures Count(s'.held, c) == if c in ks[..n] then 1 else 0 {
        assert Count(r.held, c) == if c in ks[..n - 1] then 1 else 0;
      }
    }
  }

  /** After a recovery, three operations log the first n of gs and come to commit, while readers hold ks. */
  lemma BusyCommit(l: Layout, s0: State, s1: State, gs: seq<int>, n: nat, ks: seq<int>, on: Use) returns (s: State)
    requires Reachable(l, s0, s1) && Idle(l, s1) && |s1.procs| >= 3 && HomeList(l, gs) && 0 < n <= |gs| && n <= Cap(l)
    requires HomeList(l, ks) && Uses(on, gs) && Uses(on, ks) && on.touch !! Short(s1)
    ensures Reachable(l, s0, s) && s.mode.Running? && Reads(s, 0) && s.lh == gs[..n] && s.debt == s1.debt
    ensures Ledger(l, s) && Phase(s.procs) == Copying(0)
    ensures forall b {:trigger Count(s.held, b)} :: Count(s.held, b) == if b in ks then 1 else 0
  {
    var r, c := FillUp(l, s1, gs, n, [], on);
    var q, d := EndAll(l, s1, r, c, on);
    s := HoldAll(l, s1, q, d, on, ks, |ks|);
    assert ks[..|ks|] == ks && s.procs[2] == Copying(0);
    LeadsReach(l, s0, s1, s, d, on);
    ReachLedger(l, s0, s);
    CommitterStep(l, s, 2, s.procs[2], s);
    assert ReadsAt(s, 0, 2);
  }

  lemma ReachOccurs(l: Layout, s0: State, s: State)
    requires Reachable(l, s0, s)
    ensures Occurs(l, s0, s)
  {
  }

  /** The use of gs and of ks. */
  function UseOf(gs: seq<int>, ks: seq<int>): (on: Use)
    ensures Uses(on, gs) && Uses(on, ks) && forall b | b in on.touch :: b in gs || b in ks
  {
    var all := (set i | 0 <= i < |gs| :: gs[i]) + set i | 0 <= i < |ks| :: ks[i];
    Use(all, all)
  }

  lemma AvoidsShort(s: State, hs: seq<int>, n: nat, on: Use)
    requires DebtIs(s.debt, hs, n) && forall b | b in on.touch :: b !in hs[..n]
    ensures on.touch !! Short(s)
  {
    forall b | b in on.touch ensures b !in Short(s) { assert s.debt[b] == 0; }
  }

  /** A commit that begins: hs are short, gs logged, and ks held, all of them different home blocks. */
  ghost predicate Spread(l: Layout, s: State, hs: seq<int>, gs: seq<int>, ks: seq<int>) {
    && s.mode.Running? && Ledger(l, s) && Phase(s.procs) == Copying(0) && Reads(s, 0)
    && HomeList(l, hs + gs + ks) && DebtIs(s.debt, hs, |hs|) && s.lh == gs
    && forall b {:trigger Count(s.held, b)} :: Count(s.held, b) == if b in ks then 1 else 0
  }

  lemma TwoParts(xs: seq<int>, ys: seq<int>, b: int)
    requires Distinct(xs + ys) && b in ys
    ensures b !in xs
  {
    var y :| 0 <= y < |ys| && ys[y] == b;
    forall x | 0 <= x < |xs| ensures xs[x] != b { assert (xs + ys)[x] != (xs + ys)[|xs| + y]; }
  }

  /** A block is in at most one of the three. */
  lemma OnePart(hs: seq<int>, gs: seq<int>, ks: seq<int>, b: int)
    requires Distinct(hs + gs + ks)
    ensures !(b in hs && b in gs) && !(b in hs && b in ks) && !(b in gs && b in ks)
  {
    if b in ks { TwoParts(hs + gs, ks, b); }
    if b in gs {
      assert hs + (gs + ks) == hs + gs + ks;
      TwoParts(hs, gs + ks, b);
    }
  }

  lemma PartHome(l: Layout, xs: seq<int>, ys: seq<int>, zs: seq<int>)
    requires HomeList(l, xs + ys + zs)
    ensures HomeList(l, ys)
  {
    var all := xs + ys + zs;
    forall i, j | 0 <= i < j < |ys| ensures ys[i] != ys[j] { assert all[|xs| + i] != all[|xs| + j]; }
    forall i | 0 <= i < |ys| ensures IsHome(l, ys[i]) { assert all[|xs| + i] == ys[i]; }
  }

  lemma PartsHome(l: Layout, hs: seq<int>, gs: seq<int>, ks: seq<int>)
    requires HomeList(l, hs + gs + ks)
    ensures HomeList(l, hs) && HomeList(l, gs) && HomeList(l, ks)
  {
    assert [] + hs + (gs + ks) == hs + gs + ks && hs + gs + ks + [] == hs + gs + ks;
    PartHome(l, [], hs, gs + ks);
    PartHome(l, hs, gs, ks);
    PartHome(l, hs + gs, ks, []);
  }

  /** Such a state occurs, with as many blocks short and as many logged as the log allows. */
  lemma SpreadOccurs(l: Layout, s0: State, hs: seq<int>, gs: seq<int>, ks: seq<int>) returns (s: State)
    requires Init(l, s0) && |s0.procs| >= 3 && 0 < |hs| <= Cap(l) && 0 < |gs| <= Cap(l) && l.start + |hs| < l.nblocks
    requires HomeList(l, hs + gs + ks)
    ensures Occurs(l, s0, s) && Spread(l, s, hs, gs, ks)
  {
    PartsHome(l, hs, gs, ks);
    var s1 := ShortIsReachable(l, s0, hs, |hs|);
    var on := UseOf(gs, ks);
    assert hs[..|hs|] == hs && gs[..|gs|] == gs;
    forall b | b in on.touch ensures b !in hs { OnePart(hs, gs, ks, b); }
    AvoidsShort(s1, hs, |hs|, on);
    s := BusyCommit(l, s0, s1, gs, |gs|, ks, on);
    ReachOccurs(l, s0, s);
  }

  lemma SpreadAt(l: Layout, s: State, hs: seq<int>, gs: seq<int>, ks: seq<int>, b: int)
    requires Spread(l, s, hs, gs, ks)
    ensures b in Busy(s) <==> b in hs + gs + ks
    ensures b in Readers(s) <==> b in ks
  {
    OnePart(hs, gs, ks, b);
    assert hs[..|hs|] == hs;
    assert s.debt[b] == if b in hs then 1 else 0;
    assert Count(s.pins, b) + s.debt[b] == if b in Pending(s.lh, Phase(s.procs)) then 1 else 0;
    assert Count(s.held, b) == if b in ks then 1 else 0;
  }

  /** Then all of them are in use, and nothing else. */
  lemma SpreadBusy(l: Layout, s: State, hs: seq<int>, gs: seq<int>, ks: seq<int>)
    requires Spread(l, s, hs, gs, ks)
    ensures |Busy(s)| == |hs| + |gs| + |ks| && |Readers(s)| == |ks| && forall b | b in Busy(s) :: IsHome(l, b)
  {
    var all := hs + gs + ks;
    forall b ensures (b in Busy(s) <==> b in all) && (b in Readers(s) <==> b in ks) { SpreadAt(l, s, hs, gs, ks, b); }
    assert all[..|all|] == all && ks[..|ks|] == ks;
    assert Busy(s) == Listed(all, |all|) && Readers(s) == Listed(ks, |ks|);
    ListedSize(all, |all|);
    assert all[|hs| + |gs|..] == ks;
    forall i, j | 0 <= i < j < |ks| ensures ks[i] != ks[j] { assert all[|hs| + |gs| + i] != all[|hs| + |gs| + j]; }
    ListedSize(ks, |ks|);
  }

  /** The worst case: as many blocks short and as many others logged as the log allows, and r more held. */
  lemma MostBusy(l: Layout, s0: State, bs: seq<int>, r: nat) returns (s: State)
    requires Init(l, s0) && |s0.procs| >= 3 && l.size >= 2 && l.start + Cap(l) < l.nblocks
    requires Plenty(l, bs, 2 * Cap(l) + r)
    ensures Occurs(l, s0, s) && Reads(s, 0) && |Readers(s)| == r && |Needed(l, s, 0)| > |Busy(s)| == 2 * Cap(l) + r
  {
    var n := Cap(l);
    var hs, gs, ks := bs[..n], bs[n..n + n], bs[n + n..];
    assert hs + gs + ks == bs;
    s := SpreadOccurs(l, s0, hs, gs, ks);
    SpreadBusy(l, s, hs, gs, ks);
    LogBlockNeeded(l, s);
  }

  lemma LogBlockNeeded(l: Layout, s: State)
    requires l.size >= 2 && s.lh != [] && forall b | b in Busy(s) :: IsHome(l, b)
    ensures |Needed(l, s, 0)| > |Busy(s)|
  {
    assert !IsHome(l, l.start + 1);
    SubsetSize(Busy(s) + {l.start + 1}, Needed(l, s, 0));
  }

  /** With at most r blocks held, every commit of every run, crashes included, finds buffers for the block of the log
      and for the home block that it is to read, if and only if there are more than twice as many as can be logged,
      and r. */
  lemma BuffersSufficeIff(l: Layout, s0: State, bs: seq<int>, r: nat, nbuf: nat)
    requires Init(l, s0) && |s0.procs| >= 3 && l.size >= 2 && l.start + Cap(l) < l.nblocks
    requires Plenty(l, bs, 2 * Cap(l) + r)
    ensures (forall s, k: nat | Occurs(l, s0, s) && Reads(s, k) && |Readers(s)| <= r :: |Needed(l, s, k)| <= nbuf) <==>
              nbuf > 2 * Cap(l) + r
  {
    if nbuf > 2 * Cap(l) + r {
      forall s, k: nat | Occurs(l, s0, s) && Reads(s, k) && |Readers(s)| <= r ensures |Needed(l, s, k)| <= nbuf {
        EnoughBuffers(l, s0, s, k);
      }
    } else {
      var s := MostBusy(l, s0, bs, r);
      assert |Needed(l, s, 0)| > nbuf;
    }
  }

  /** Half of that, for a log of any size and whatever the disk holds. */
  lemma EnoughBuffers(l: Layout, s0: State, s: State, k: nat)
    requires Occurs(l, s0, s) && Reads(s, k)
    ensures |Needed(l, s, k)| <= 2 * Cap(l) + |Readers(s)| + 1
  {
    OccursLedger(l, s0, s);
    var p :| 0 <= p < |s.procs| && ReadsAt(s, k, p);
    assert IsCommitter(s.procs[p]);
    NeededMost(l, s, k);
  }

  /** A commit of one block can panic: after a recovery that installed n blocks, n + 1 are in use when it begins. */
  lemma PanicAfterRecovery(l: Layout, s0: State, bs: seq<int>, n: nat) returns (s: State)
    requires Init(l, s0) && |s0.procs| >= 3 && 0 < n <= Cap(l) && l.start + n < l.nblocks && Plenty(l, bs, n + 1)
    ensures Occurs(l, s0, s) && |s.lh| == 1 && Reads(s, 0) && Readers(s) == {} && |Busy(s)| == n + 1
  {
    assert bs[..n] + [bs[n]] + [] == bs;
    s := SpreadOccurs(l, s0, bs[..n], [bs[n]], []);
    SpreadBusy(l, s, bs[..n], [bs[n]], []);
  }

  /** What recovery has installed is in use. */
  lemma RecoveryBusy(l: Layout, s0: State, s: State)
    requires Occurs(l, s0, s) && s.mode.Recovering?
    ensures |Busy(s)| == s.mode.k <= |s.lh| <= Cap(l) && Busy(s) == Listed(s.lh, s.mode.k)
  {
    OccursLedger(l, s0, s);
    var all := Listed(s.lh, s.mode.k);
    forall b ensures b in Busy(s) <==> b in all {
      assert Count(s.pins, b) + s.debt[b] == 0 && (b in s.debt <==> b in all);
    }
    assert Busy(s) == all;
    ListedSize(s.lh, s.mode.k);
  }

  /** A recovery about to read in the last of as many blocks as can be logged. */
  lemma RecoveryOccurs(l: Layout, s0: State, hs: seq<int>) returns (s: State)
    requires Init(l, s0) && |s0.procs| >= 3 && l.size >= 2 && l.start + Cap(l) < l.nblocks && Plenty(l, hs, Cap(l))
             && l.start + Cap(l) !in hs
    ensures Occurs(l, s0, s) && s.mode == Recovering(Cap(l) - 1) && |s.lh| == Cap(l)
    ensures |Needed(l, s, Cap(l) - 1)| == Cap(l) + 1
  {
    var n := Cap(l);
    var r := CrashedAfter(l, s0, hs, n);
    assert hs[..n] == hs;
    s := RecoverTo(l, s0, r, n - 1);
    ReachOccurs(l, s0, s);
    RecoveryBusy(l, s0, s);
    LastNeeded(l, s, n - 1);
  }

  lemma LastNeeded(l: Layout, s: State, k: nat)
    requires |s.lh| == k + 1 && Busy(s) == Listed(s.lh, k) && Distinct(s.lh) && l.start + 1 + k !in s.lh
    ensures |Needed(l, s, k)| == k + 2
  {
    LastTwo(s.lh, k, l.start + 1 + k);
  }

  lemma LastTwo(lh: seq<int>, k: nat, x: int)
    requires |lh| == k + 1 && Distinct(lh) && x !in lh
    ensures |Listed(lh, k) + {x, lh[k]}| == k + 2
  {
    assert forall i | 0 <= i < k :: lh[i] != lh[k];
    ListedSize(lh, k);
    TwoMore(Listed(lh, k), x, lh[k]);
  }

  lemma TwoMore(a: set<int>, x: int, y: int)
    requires x != y && x !in a && y !in a
    ensures |a + {x, y}| == |a| + 2
  {
    assert a + {x, y} == a + {x} + {y};
  }

  /** Every recovery of every run finds a buffer for the log block and one for the home block of each copy, if and only
      if there are more than can be logged. */
  lemma RecoverySufficesIff(l: Layout, s0: State, hs: seq<int>, nbuf: nat)
    requires Init(l, s0) && |s0.procs| >= 3 && l.size >= 2 && l.start + Cap(l) < l.nblocks && Plenty(l, hs, Cap(l))
             && l.start + Cap(l) !in hs
    ensures (forall s | Occurs(l, s0, s) && s.mode.Recovering? && s.mode.k < |s.lh| :: |Needed(l, s, s.mode.k)| <= nbuf)
            <==> nbuf > Cap(l)
  {
    if nbuf > Cap(l) {
      forall s | Occurs(l, s0, s) && s.mode.Recovering? && s.mode.k < |s.lh| ensures |Needed(l, s, s.mode.k)| <= nbuf {
        RecoveryBusy(l, s0, s);
      }
    } else {
      var s := RecoveryOccurs(l, s0, hs);
      assert Occurs(l, s0, s) && |Needed(l, s, s.mode.k)| > nbuf;
    }
  }

  /** With the kernel's NBUF buffers and a log of LOGSIZE blocks, as mkfs makes it, one less, or any more: a commit of
      one block panics after a recovery of NBUF - 1, with nothing held, and a recovery of NBUF blocks panics itself. */
  lemma NbufTooFew(l: Layout, s0: State, bs: seq<int>) returns (s: State, r: State)
    requires Init(l, s0) && |s0.procs| >= 3 && l.size >= LOGSIZE - 1 && l.start + LOGSIZE < l.nblocks
    requires Plenty(l, bs, LOGSIZE) && l.start + LOGSIZE !in bs
    ensures Occurs(l, s0, s) && |s.lh| == 1 && Reads(s, 0) && Readers(s) == {} && |Busy(s)| == NBUF
    ensures Occurs(l, s0, r) && r.mode.Recovering? && r.mode.k < |r.lh| && |Needed(l, r, r.mode.k)| > NBUF
  {
    s := PanicAfterRecovery(l, s0, bs, NBUF - 1);
    r := RecoveryOccurs(l, s0, bs);
  }

  /** How a buffer that is one short changes hands, in the cache itself: of the buffers with a count of zero once k is
      held, it is the one released longest ago, and so it is given to k' while the holder of k still has it; when
      that one lets go, the holder of k' is left with a count of zero. */
  method ChangesHands(cache: B.Cache, k: B.Key, k': B.Key, ghost x: int) returns (r: Option<int>, r': Option<int>)
    requires cache.Valid() && k != B.BLANK && k' != B.BLANK && 0 <= x < cache.n && B.KeyOf(cache.bufs, x) == k
    requires cache.bufs.refcnt[x] == -1 && (forall a | 0 <= a < cache.n :: B.KeyOf(cache.bufs, a) != k') && k != k'
    requires forall a | 0 <= a < cache.n && cache.bufs.refcnt[a] == 0 :: cache.stamp[x] < cache.stamp[a]
    modifies cache
    ensures r == r' == Some(x) && 0 <= x < |cache.bufs.refcnt| && cache.bufs.refcnt[x] == 0
    ensures B.Shape(cache.bufs, cache.n) && B.KeyOf(cache.bufs, x) == k'
  {
    ghost var before := cache.bufs;
    r := cache.Bget(k);
    forall a | 0 <= a < cache.n && B.KeyOf(before, a) == k ensures a == x { assert B.OneAt(before, cache.n, a, x); }
    r' := cache.Bget(k');
    cache.Brelse(r.value);
  }
}
