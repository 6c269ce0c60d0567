/** The log in use by concurrent file system calls, as a transition system.

    Each process is outside the log, inside an operation, or is the one committing. Every step is what one
    process does under log.lock, the size check that log_write makes before it takes the lock, one block write of
    commit or recovery, or a buffer read in, let go of, dropped, or given to another block; a crash may come between
    any two.
    The machine is proved to refine an atomic store: clients write to a volatile current image, and the
    durable image catches up only when no operation is open. Two things are asked for that: that the
    log is never overfilled, as it cannot be unless it is too small, and no use, not even for reading, of a block that
    this boot's recovery installed; module LogLimits shows both to be exact.

    A buffer's reference count is the pins of its block plus the holders of the buffer. Recovery unpins what nobody
    pinned, and so leaves the buffers of the blocks it installs one short. The machine keeps an account of that, `debt`:
    how many unpins of a block have come, or will come, without a pin.
 */
module LogMachine {
  import opened Basics
  import opened LogDisk

  datatype PState =
    | Out
    | InOp(unused: nat, passed: bool)  // in an operation: reserved space left, and whether past log_write's size check
    | Copying(k: nat)       // in write_log, k blocks copied
    | Installing(k: nat)    // in install_trans, k blocks home
    | Finishing             // commit done, log.committing not yet cleared

  datatype Mode = Running | Recovering(k: nat)

  datatype State = State(
    disk: Disk,
    dirty: map<int, Block>, // cached copies ahead of the disk
    pins: map<int, int>,    // bpin minus bunpin since boot
    debt: multiset<int>,    // unpins, done or due, of buffers that were not pinned for it
    held: map<int, int>,    // bread minus brelse since boot
    lh: seq<int>,
    outstanding: int,
    committing: bool,
    procs: seq<PState>,
    mode: Mode)

  function Pin(s: State, b: int): (n: int) {
    Count(s.pins, b)
  }

  function Held(s: State, b: int): (n: int) {
    Count(s.held, b)
  }

  /** The reference count of the buffer of b, 0 if there is none. */
  function Refcnt(s: State, b: int): (n: int) {
    Pin(s, b) + Held(s, b)
  }

  /** The blocks whose buffers are short of a count. */
  function Short(s: State): (r: set<int>) {
    set b | b in s.debt
  }

  /** n of what b is short of passes to c. */
  function Move(debt: multiset<int>, b: int, c: int, n: int): (r: multiset<int>) {
    if 0 <= n <= debt[b] && b != c then debt[b := debt[b] - n][c := debt[c] + n] else debt
  }

  /** log_write would call panic("too big a transaction"). */
  predicate LogFull(l: Layout, s: State) {
    |s.lh| >= LOGSIZE || |s.lh| >= l.size - 1
  }

  datatype Event = Internal | BeginOp | Bread(b: int) | Logged(b: int, v: Block) | EndOp | Sync | Crashed

  // begin_op, once it need not sleep
  predicate Begin(l: Layout, s: State, p: nat, s': State) {
    && p < |s.procs| && s.mode.Running? && s.procs[p].Out?
    && !s.committing && |s.lh| + (s.outstanding + 1) * MAXOPBLOCKS <= LOGSIZE
    && s' == s.(outstanding := s.outstanding + 1, procs := s.procs[p := InOp(MAXOPBLOCKS, false)])
  }

  // bread of block b, of the log or not, by anyone: in an operation, outside, or committing
  predicate Hold(l: Layout, s: State, b: int, s': State) {
    s.mode.Running? && 0 <= b < l.nblocks && s' == s.(held := s.held[b := Held(s, b) + 1])
  }

  // brelse of the buffer of b
  predicate Release(s: State, b: int, s': State) {
    s.mode.Running? && Held(s, b) > 0 && s' == s.(held := s.held[b := Held(s, b) - 1])
  }

  // bread of block c, which no buffer has, given the buffer of b: its count is zero although somebody holds it. It is
  // set to one, and there is one holder more
  predicate Reuse(l: Layout, s: State, b: int, c: int, s': State) {
    && s.mode.Running? && 0 <= c < l.nblocks && b != c && Held(s, b) > 0 && Refcnt(s, b) == 0
    && Pin(s, c) == 0 && Held(s, c) == 0 && c !in s.dirty
    && var h := Held(s, b);
       s' == s.(dirty := s.dirty - {b}, pins := s.pins[b := 0][c := -h], held := s.held[b := 0][c := h + 1],
                debt := Move(s.debt, b, c, h))
  }

  // log_write's check of the size of the log, made without log.lock; where it fails the kernel panics
  predicate Check(l: Layout, s: State, p: nat, s': State) {
    && p < |s.procs| && s.mode.Running? && s.procs[p].InOp? && !s.procs[p].passed && !LogFull(l, s)
    && s' == s.(procs := s.procs[p := s.procs[p].(passed := true)])
  }

  // the rest of log_write, under log.lock, by a holder of the buffer; a process adds at most MAXOPBLOCKS new blocks per
  // operation
  predicate Write(l: Layout, s: State, p: nat, b: int, v: Block, s': State) {
    && p < |s.procs| && s.mode.Running? && s.procs[p].InOp? && s.procs[p].passed && IsHome(l, b) && Held(s, b) > 0
    && if b in s.lh
       then s' == s.(dirty := s.dirty[b := v], procs := s.procs[p := InOp(s.procs[p].unused, false)])
       else
         && s.procs[p].unused > 0
         && s' == s.(dirty := s.dirty[b := v], lh := s.lh + [b], pins := s.pins[b := Pin(s, b) + 1],
                     procs := s.procs[p := InOp(s.procs[p].unused - 1, false)])
  }

  // end_op up to the call of commit
  predicate End(l: Layout, s: State, p: nat, s': State) {
    && p < |s.procs| && s.mode.Running? && s.procs[p].InOp? && !s.procs[p].passed && !s.committing
    && if s.outstanding == 1
       then s' == s.(outstanding := 0, committing := true,
                     procs := s.procs[p := if s.lh == [] then Finishing else Copying(0)])
       else s' == s.(outstanding := s.outstanding - 1, procs := s.procs[p := Out])
  }

  // one block write of write_log
  predicate CopyOne(l: Layout, s: State, p: nat, s': State) {
    && p < |s.procs| && s.mode.Running? && s.procs[p].Copying? && s.procs[p].k < |s.lh|
    && var k := s.procs[p].k;
       0 <= s.lh[k] < |s.disk| && l.start + 1 + k < |s.disk| &&
       s' == s.(disk := s.disk[l.start + 1 + k := View(s.disk, s.dirty, s.lh[k])],
         procs := s.procs[p := Copying(k + 1)])
  }

  // the first write_head of commit
  predicate WriteHead(l: Layout, s: State, p: nat, s': State) {
    && p < |s.procs| && s.mode.Running? && s.procs[p].Copying? && s.procs[p].k == |s.lh|
    && Fits(l, s.disk) && |s.lh| <= LOGSIZE
    && s' == s.(disk := WithHeader(l, s.disk, s.lh), procs := s.procs[p := Installing(0)])
  }

  // one block write of install_trans, called from commit
  predicate InstallOne(l: Layout, s: State, p: nat, s': State) {
    && p < |s.procs| && s.mode.Running? && s.procs[p].Installing? && s.procs[p].k < |s.lh|
    && var k := s.procs[p].k;
       0 <= s.lh[k] < |s.disk| && l.start + 1 + k < |s.disk| &&
       s' == s.(disk := s.disk[s.lh[k] := s.disk[l.start + 1 + k]], dirty := s.dirty - {s.lh[k]},
                pins := s.pins[s.lh[k] := Pin(s, s.lh[k]) - 1],
                procs := s.procs[p := Installing(k + 1)])
  }

  // the second write_head of commit
  predicate ClearHead(l: Layout, s: State, p: nat, s': State) {
    && p < |s.procs| && s.mode.Running? && s.procs[p].Installing? && s.procs[p].k == |s.lh|
    && Fits(l, s.disk)
    && s' == s.(disk := WithHeader(l, s.disk, []), lh := [], procs := s.procs[p := Finishing])
  }

  // end_op after commit has returned
  predicate Finish(l: Layout, s: State, p: nat, s': State) {
    && p < |s.procs| && s.mode.Running? && s.procs[p].Finishing?
    && s' == s.(committing := false, procs := s.procs[p := Out])
  }

  // power loss; memory is gone and read_head has run again
  predicate Crash(l: Layout, s: State, s': State) {
    && Fits(l, s.disk)
    && s' == State(s.disk, map[], map[], multiset{}, map[], Header(s.disk[l.start]), 0, false,
         seq(|s.procs|, _ => Out), Recovering(0))
  }

  // one block write of install_trans, called from recover_from_log: it unpins what nobody pinned
  predicate RecoverOne(l: Layout, s: State, s': State) {
    && s.mode.Recovering? && s.mode.k < |s.lh|
    && var k := s.mode.k;
       0 <= s.lh[k] < |s.disk| && l.start + 1 + k < |s.disk| &&
       s' == s.(disk := s.disk[s.lh[k] := s.disk[l.start + 1 + k]], pins := s.pins[s.lh[k] := Pin(s, s.lh[k]) - 1],
                debt := s.debt + multiset{s.lh[k]}, mode := Recovering(k + 1))
  }

  // the write_head of recover_from_log
  predicate RecoverDone(l: Layout, s: State, s': State) {
    && s.mode.Recovering? && s.mode.k == |s.lh|
    && Fits(l, s.disk)
    && s' == s.(disk := WithHeader(l, s.disk, []), lh := [], mode := Running)
  }

  // bget recycling the buffer of a modified block, which takes a reference count of zero; nobody holds it
  predicate Evict(s: State, b: int, s': State) {
    s.mode.Running? && b in s.dirty && Held(s, b) == 0 && Refcnt(s, b) == 0 && s' == s.(dirty := s.dirty - {b})
  }

  /** What process p does by itself. */
  predicate ProcStep(l: Layout, s: State, p: nat, s': State) {
    || Check(l, s, p, s')
    || CopyOne(l, s, p, s')
    || InstallOne(l, s, p, s')
    || ClearHead(l, s, p, s')
    || Finish(l, s, p, s')
  }

  ghost predicate Next(l: Layout, s: State, e: Event, s': State) {
    match e
    case BeginOp => exists p: nat :: Begin(l, s, p, s')
    case Bread(c) => Hold(l, s, c, s') || exists b :: Reuse(l, s, b, c, s')
    case Logged(b, v) => exists p: nat :: Write(l, s, p, b, v, s')
    case EndOp => exists p: nat :: End(l, s, p, s')
    case Sync => exists p: nat :: WriteHead(l, s, p, s')
    case Crashed => Crash(l, s, s')
    case Internal =>
      || (exists p: nat :: ProcStep(l, s, p, s'))
      || RecoverOne(l, s, s')
      || RecoverDone(l, s, s')
      || (exists b :: Evict(s, b, s'))
      || (exists b :: Release(s, b, s'))
  }

  /** A machine that has just booted from a well-formed image. */
  ghost predicate Init(l: Layout, s: State) {
    && HeaderOk(l, s.disk) && Header(s.disk[l.start]) == []
    && s.dirty == map[] && s.pins == map[] && s.debt == multiset{} && s.held == map[] && s.lh == []
    && s.outstanding == 0 && !s.committing
    && (forall p | 0 <= p < |s.procs| :: s.procs[p].Out?)
    && s.mode.Running?
  }

  // ---- reserved space ----

  function Ops(ps: seq<PState>): (n: nat) {
    if ps == [] then 0 else (if ps[0].InOp? then 1 else 0) + Ops(ps[1..])
  }

  function Budget(ps: seq<PState>): (n: nat) {
    if ps == [] then 0 else (if ps[0].InOp? then ps[0].unused else 0) + Budget(ps[1..])
  }

  lemma {:induction false} Update(ps: seq<PState>, p: nat, x: PState)
    requires p < |ps|
    ensures Ops(ps[p := x]) == Ops(ps) - (if ps[p].InOp? then 1 else 0) + (if x.InOp? then 1 else 0)
    ensures Budget(ps[p := x]) ==
            Budget(ps) - (if ps[p].InOp? then ps[p].unused else 0) + (if x.InOp? then x.unused else 0)
  {
    if p > 0 {
      Update(ps[1..], p - 1, x);
      assert ps[p := x][1..] == ps[1..][p - 1 := x];
    } else {
      assert ps[p := x][1..] == ps[1..];
    }
  }

  lemma {:induction false} Bounds(ps: seq<PState>, cap: nat)
    requires forall p | 0 <= p < |ps| :: ps[p].InOp? ==> ps[p].unused <= cap
    ensures Budget(ps) <= cap * Ops(ps)
  {
    if ps != [] { Bounds(ps[1..], cap); }
  }

  lemma {:induction false} NoneOpen(ps: seq<PState>)
    requires forall p | 0 <= p < |ps| :: !ps[p].InOp?
    ensures Ops(ps) == 0 && Budget(ps) == 0
  {
    if ps != [] { NoneOpen(ps[1..]); }
  }

  lemma {:induction false} SomeOpen(ps: seq<PState>, p: nat)
    requires p < |ps| && ps[p].InOp?
    ensures Ops(ps) >= 1 && Budget(ps) >= ps[p].unused
    ensures Ops(ps) == 1 ==> forall q | 0 <= q < |ps| && q != p :: !ps[q].InOp?
  {
    Update(ps, p, Out);
    if Ops(ps) == 1 {
      forall q | 0 <= q < |ps| && q != p ensures !ps[q].InOp? {
        if ps[q].InOp? { Update(ps[p := Out], q, Out); }
      }
    }
  }

  // ---- invariant ----

  predicate IsCommitter(x: PState) {
    x.Copying? || x.Installing? || x.Finishing?
  }

  /** Space is reserved for every open operation, and there is at most one committer, with no operation open. */
  ghost predicate GroupInv(l: Layout, s: State) {
    && s.outstanding == Ops(s.procs)
    && |s.lh| + Budget(s.procs) <= LOGSIZE
    && (forall p | 0 <= p < |s.procs| ::
         s.procs[p].InOp? ==> s.procs[p].unused <= MAXOPBLOCKS && (s.procs[p].passed ==> l.size > 1))
    && (forall p, q | 0 <= p < |s.procs| && 0 <= q < |s.procs| && p != q :: IsCommitter(s.procs[p]) ==> s.procs[q].Out?)
    && (s.committing <==> exists p | 0 <= p < |s.procs| :: IsCommitter(s.procs[p]))
    && (s.mode.Recovering? ==> !s.committing && forall p | 0 <= p < |s.procs| :: s.procs[p].Out?)
  }

  /** A block is pinned exactly once while it is logged and not yet home, but for what it is short of. */
  ghost predicate PinsOk(pins: map<int, int>, logged: set<int>, debt: multiset<int>) {
    forall b {:trigger Count(pins, b)} :: Count(pins, b) + debt[b] == if b in logged then 1 else 0
  }

  ghost predicate PinInv(s: State) {
    PinsOk(s.pins, s.dirty.Keys, s.debt)
  }

  /** Nobody holds a buffer that is short. */
  ghost predicate HeldOk(held: map<int, int>, debt: multiset<int>) {
    forall b {:trigger Count(held, b)} :: Count(held, b) >= 0 && (b in debt ==> Count(held, b) == 0)
  }

  ghost predicate HeldInv(s: State) {
    HeldOk(s.held, s.debt)
  }

  /** One is missing for each of the first k of lh. */
  ghost predicate DebtIs(debt: multiset<int>, lh: seq<int>, k: nat) {
    k <= |lh| && |debt| == k && forall b {:trigger debt[b]} :: debt[b] == if b in lh[..k] then 1 else 0
  }

  lemma DebtMore(debt: multiset<int>, lh: seq<int>, k: nat)
    requires DebtIs(debt, lh, k) && k < |lh| && forall i, j | 0 <= i < j < |lh| :: lh[i] != lh[j]
    ensures DebtIs(debt + multiset{lh[k]}, lh, k + 1)
  {
    var debt' := debt + multiset{lh[k]};
    assert lh[..k + 1] == lh[..k] + [lh[k]] && lh[k] !in lh[..k];
    forall b ensures debt'[b] == if b in lh[..k + 1] then 1 else 0 {
      assert debt[b] == if b in lh[..k] then 1 else 0;
    }
  }

  /** No buffer is short of more than one, and none of a logged block is short. */
  ghost predicate DebtOk(debt: multiset<int>, dirty: map<int, Block>) {
    forall b {:trigger debt[b]} :: debt[b] <= if b in dirty then 0 else 1
  }

  /** What the committer is doing, Out if there is none. */
  ghost function Phase(ps: seq<PState>): (x: PState)
    ensures IsCommitter(x) || x == Out
  {
    if p :| 0 <= p < |ps| && IsCommitter(ps[p]) then ps[p] else Out
  }

  lemma PhaseIs(s: State, p: nat)
    requires p < |s.procs| && IsCommitter(s.procs[p])
    requires forall q | 0 <= q < |s.procs| && p != q :: s.procs[q].Out?
    ensures Phase(s.procs) == s.procs[p]
  {
  }

  ghost predicate SameKeys(dirty: map<int, Block>, lh: seq<int>) {
    forall b :: b in dirty <==> b in lh
  }

  /** The disk and the cache while the machine runs, phase by phase. */
  ghost predicate DiskInv(l: Layout, d: Disk, dirty: map<int, Block>, lh: seq<int>, x: PState) {
    && HeaderOk(l, d) && LogList(l, lh)
    && match x
       case Out => Header(d[l.start]) == [] && SameKeys(dirty, lh)
       case InOp(_, _) => false
       case Copying(k) => k <= |lh| && Header(d[l.start]) == [] && SameKeys(dirty, lh) && Copied(l, d, dirty, lh, k)
       case Installing(k) => k <= |lh| && lh == Header(d[l.start]) && SameKeys(dirty, lh[k..])
       && RecoversTo(l, d, Overlay(d, dirty))
       case Finishing => Header(d[l.start]) == [] && dirty == map[] && lh == []
  }

  ghost predicate Copied(l: Layout, d: Disk, dirty: map<int, Block>, lh: seq<int>, k: nat)
    requires Fits(l, d) && LogList(l, lh) && k <= |lh|
  {
    forall i {:trigger lh[i]} | 0 <= i < k :: IsHome(l, lh[i]) && d[l.start + 1 + i] == View(d, dirty, lh[i])
  }

  /** The disk during recovery, after k blocks have been copied home. */
  ghost predicate RecoveryInv(l: Layout, d: Disk, lh: seq<int>, k: nat) {
    && HeaderOk(l, d) && lh == Header(d[l.start]) && k <= |lh|
    && forall i {:trigger lh[i]} | 0 <= i < k :: d[lh[i]] == d[l.start + 1 + i]
  }

  ghost predicate Inv(l: Layout, s: State) {
    && GroupInv(l, s) && PinInv(s) && HeldInv(s)
    && match s.mode
       case Running => DiskInv(l, s.disk, s.dirty, s.lh, Phase(s.procs)) && DebtOk(s.debt, s.dirty)
       case Recovering(k) =>
         && s.dirty == map[] && RecoveryInv(l, s.disk, s.lh, k)
         && s.held == map[] && DebtIs(s.debt, s.lh, k)
  }

  /** A log that operations within their budgets cannot outgrow, or that takes no write at all. */
  predicate Sized(l: Layout) {
    l.size == 1 || l.size > LOGSIZE
  }

  /** A block newly logged leaves the log with a place for its copy. */
  predicate FitsIn(l: Layout, s: State, e: Event) {
    e.Logged? ==> e.b in s.lh || |s.lh| < l.size - 1
  }

  /** The event does not read in a block whose buffer is one short. */
  predicate Untouched(s: State, e: Event) {
    e.Bread? ==> e.b !in s.debt
  }

  // ---- the atomic store that clients see ----

  datatype Store = Store(durable: Disk, current: Disk, open: int)

  function Apply(a: Store, e: Event): (r: Store) {
    match e
    case Internal => a
    case BeginOp => a.(open := a.open + 1)
    case Bread(_) => a
    case Logged(b, v) => if 0 <= b < |a.current| then a.(current := a.current[b := v]) else a
    case EndOp => a.(open := a.open - 1)
    case Sync => a.(durable := a.current)
    case Crashed => a.(current := a.durable, open := 0)
  }

  /** Writes belong to open operations, and the durable image is replaced only when none is open. */
  predicate Allowed(a: Store, e: Event) {
    && (e.Logged? ==> a.open > 0)
    && (e.Sync? ==> a.open == 0)
  }

  /** The store a machine state stands for: what recovery would leave, and what clients read. */
  ghost predicate Rel(l: Layout, s: State, a: Store)
    requires HeaderOk(l, s.disk)
  {
    && RecoversTo(l, s.disk, a.durable)
    && SameHome(l, if s.mode.Running? then Overlay(s.disk, s.dirty) else a.durable, a.current)
    && a.open == s.outstanding
  }

  // ---- block writes, on the disk and the cache alone ----

  lemma WriteDisk(l: Layout, d: Disk, dirty: map<int, Block>, lh: seq<int>, b: int, v: Block)
    requires DiskInv(l, d, dirty, lh, Out) && IsHome(l, b) && (b in lh || (|lh| < LOGSIZE && |lh| < l.size - 1))
    ensures DiskInv(l, d, dirty[b := v], if b in lh then lh else lh + [b], Out)
    ensures Overlay(d, dirty[b := v]) == Overlay(d, dirty)[b := v]
  {
  }

  lemma CopyDisk(l: Layout, d: Disk, dirty: map<int, Block>, lh: seq<int>, k: nat, e: Disk, t: Disk)
    requires DiskInv(l, d, dirty, lh, Copying(k)) && k < |lh| && IsHome(l, lh[k])
    requires e == d[l.start + 1 + k := View(d, dirty, lh[k])] && RecoversTo(l, d, t)
    ensures DiskInv(l, e, dirty, lh, Copying(k + 1))
    ensures RecoversTo(l, e, t) && SameHome(l, Overlay(e, dirty), Overlay(d, dirty))
  {
    LogBlockKeeps(l, d, t, k, View(d, dirty, lh[k]));
  }

  lemma HeadView(l: Layout, d: Disk, dirty: map<int, Block>, h: Block, e: Disk)
    requires Fits(l, d) && e == d[l.start := h]
    ensures SameHome(l, Overlay(e, dirty), Overlay(d, dirty))
  {
    forall b | IsHome(l, b) ensures Overlay(e, dirty)[b] == Overlay(d, dirty)[b] { assert e[b] == d[b]; }
  }

  lemma HeadPhase(l: Layout, e: Disk, dirty: map<int, Block>, lh: seq<int>)
    requires LogList(l, lh) && SameKeys(dirty, lh) && HeaderOk(l, e) && Header(e[l.start]) == lh
             && RecoversTo(l, e, Overlay(e, dirty))
    ensures DiskInv(l, e, dirty, lh, Installing(0))
  {
    assert lh[0..] == lh;
  }

  lemma HeadDisk(l: Layout, d: Disk, dirty: map<int, Block>, lh: seq<int>, e: Disk)
    requires DiskInv(l, d, dirty, lh, Copying(|lh|)) && e == WithHeader(l, d, lh)
    ensures DiskInv(l, e, dirty, lh, Installing(0))
    ensures RecoversTo(l, e, Overlay(d, dirty)) && SameHome(l, Overlay(e, dirty), Overlay(d, dirty))
  {
    HeaderCommits(l, d, d, dirty, lh);
    HeadView(l, d, dirty, PutHeader(d[l.start], lh), e);
    Retarget(l, e, Overlay(d, dirty), Overlay(e, dirty));
    HeadPhase(l, e, dirty, lh);
  }

  lemma InstallDisk(l: Layout, d: Disk, dirty: map<int, Block>, lh: seq<int>, k: nat, e: Disk, t: Disk)
    requires DiskInv(l, d, dirty, lh, Installing(k)) && k < |lh| && IsHome(l, lh[k])
    requires e == d[lh[k] := d[l.start + 1 + k]] && RecoversTo(l, d, t)
    ensures DiskInv(l, e, dirty - {lh[k]}, lh, Installing(k + 1))
    ensures RecoversTo(l, e, t) && SameHome(l, Overlay(e, dirty - {lh[k]}), Overlay(d, dirty))
  {
    var dirty' := dirty - {lh[k]};
    assert Header(e[l.start]) == lh;
    InstallOneKeeps(l, d, t, lh, k, e);
    InstallOneKeeps(l, d, Overlay(d, dirty), lh, k, e);
    KeysDrop(dirty, lh, k);
    InstallView(l, d, dirty, lh, k, e);
    Retarget(l, e, Overlay(d, dirty), Overlay(e, dirty'));
  }

  lemma KeysDrop(dirty: map<int, Block>, lh: seq<int>, k: nat)
    requires k < |lh| && SameKeys(dirty, lh[k..])
    requires forall i, j | 0 <= i < j < |lh| :: lh[i] != lh[j]
    ensures SameKeys(dirty - {lh[k]}, lh[k + 1..])
  {
    assert lh[k..] == [lh[k]] + lh[k + 1..];
  }

  lemma InstallView(l: Layout, d: Disk, dirty: map<int, Block>, lh: seq<int>, k: nat, e: Disk)
    requires RecoversTo(l, d, Overlay(d, dirty)) && lh == Header(d[l.start]) && k < |lh|
    requires IsHome(l, lh[k]) && e == d[lh[k] := d[l.start + 1 + k]]
    ensures SameHome(l, Overlay(e, dirty - {lh[k]}), Overlay(d, dirty))
  {
    assert d[l.start + 1 + k] == Overlay(d, dirty)[lh[k]];
  }

  lemma ClearDisk(l: Layout, d: Disk, dirty: map<int, Block>, lh: seq<int>, e: Disk, t: Disk)
    requires DiskInv(l, d, dirty, lh, Installing(|lh|)) && e == WithHeader(l, d, []) && RecoversTo(l, d, t)
    ensures DiskInv(l, e, dirty, [], Finishing)
    ensures RecoversTo(l, e, t) && SameHome(l, Overlay(e, dirty), Overlay(d, dirty))
  {
    NoKeys(dirty, lh);
    AllHome(l, d, lh, t);
    ClearKeeps(l, d, t);
    HeadView(l, d, dirty, PutHeader(d[l.start], []), e);
  }

  lemma NoKeys(dirty: map<int, Block>, lh: seq<int>)
    requires SameKeys(dirty, lh[|lh|..])
    ensures dirty == map[]
  {
    assert forall b :: b !in dirty;
  }

  /** Once no cached copy is ahead of the disk, every logged block is home. */
  lemma AllHome(l: Layout, d: Disk, lh: seq<int>, t: Disk)
    requires HeaderOk(l, d) && lh == Header(d[l.start]) && RecoversTo(l, d, Overlay(d, map[])) && RecoversTo(l, d, t)
    ensures forall i | 0 <= i < |lh| :: IsHome(l, lh[i]) && d[lh[i]] == t[lh[i]]
  {
    forall i | 0 <= i < |lh| ensures IsHome(l, lh[i]) && d[lh[i]] == t[lh[i]] {
      assert d[l.start + 1 + i] == Overlay(d, map[])[lh[i]] == d[lh[i]];
    }
  }

  lemma RecoverDisk(l: Layout, d: Disk, lh: seq<int>, k: nat, e: Disk, t: Disk)
    requires RecoveryInv(l, d, lh, k) && k < |lh| && IsHome(l, lh[k])
    requires e == d[lh[k] := d[l.start + 1 + k]] && RecoversTo(l, d, t)
    ensures RecoveryInv(l, e, lh, k + 1) && RecoversTo(l, e, t)
  {
    InstallOneKeeps(l, d, t, lh, k, e);
  }

  lemma RecoverDoneDisk(l: Layout, d: Disk, lh: seq<int>, e: Disk, t: Disk)
    requires RecoveryInv(l, d, lh, |lh|) && e == WithHeader(l, d, []) && RecoversTo(l, d, t)
    ensures DiskInv(l, e, map[], [], Out)
    ensures RecoversTo(l, e, t) && SameHome(l, Overlay(e, map[]), t)
  {
    ClearKeeps(l, d, t);
  }

  /** The target of recovery matters only on home blocks. */
  lemma Retarget(l: Layout, d: Disk, t: Disk, u: Disk)
    requires RecoversTo(l, d, t) && SameHome(l, u, t)
    ensures RecoversTo(l, d, u)
  {
    RecoversToIff(l, d, t);
    RecoversToIff(l, d, u);
  }

  // ---- every step keeps the invariant and simulates the store ----

  lemma BeginSim(l: Layout, s: State, p: nat, s': State, a: Store)
    requires Inv(l, s) && Rel(l, s, a) && Begin(l, s, p, s')
    ensures Inv(l, s') && Rel(l, s', Apply(a, BeginOp))
  {
    Update(s.procs, p, InOp(MAXOPBLOCKS, false));
    Bounds(s.procs, MAXOPBLOCKS);
    NoCommitter(s');
    NoCommitter(s);
  }

  lemma WritePins(l: Layout, s: State, p: nat, b: int, v: Block, s': State)
    requires PinInv(s) && HeldInv(s) && Write(l, s, p, b, v, s') && (b in s.lh <==> b in s.dirty)
    ensures PinInv(s') && b !in s.debt
  {
    assert Count(s.held, b) > 0;
    forall c ensures Count(s'.pins, c) + s'.debt[c] == (if c in s'.dirty then 1 else 0) {
      assert Count(s.pins, c) + s.debt[c] == if c in s.dirty then 1 else 0;
    }
  }

  lemma WriteSim(l: Layout, s: State, p: nat, b: int, v: Block, s': State, a: Store)
    requires Inv(l, s) && Rel(l, s, a) && Write(l, s, p, b, v, s') && FitsIn(l, s, Logged(b, v))
    ensures Inv(l, s') && Allowed(a, Logged(b, v)) && Rel(l, s', Apply(a, Logged(b, v)))
  {
    SomeOpen(s.procs, p);
    Update(s.procs, p, s'.procs[p]);
    NoCommitter(s);
    NoCommitter(s');
    WritePins(l, s, p, b, v, s');
    WriteDisk(l, s.disk, s.dirty, s.lh, b, v);
  }

  lemma HoldSim(l: Layout, s: State, b: int, s': State, a: Store)
    requires Inv(l, s) && Rel(l, s, a) && (Release(s, b, s') || (Hold(l, s, b, s') && b !in s.debt))
    ensures Inv(l, s') && Rel(l, s', a)
  {
    forall c ensures Count(s'.held, c) >= 0 && (c in s'.debt ==> Count(s'.held, c) == 0) {
      assert Count(s.held, c) >= 0 && (c in s.debt ==> Count(s.held, c) == 0);
    }
  }

  lemma CheckSim(l: Layout, s: State, p: nat, s': State, a: Store)
    requires Inv(l, s) && Rel(l, s, a) && Check(l, s, p, s')
    ensures Inv(l, s') && Rel(l, s', a)
  {
    SomeOpen(s.procs, p);
    Update(s.procs, p, s'.procs[p]);
    NoCommitter(s);
    NoCommitter(s');
  }

  lemma NoCommitter(s: State)
    requires forall p | 0 <= p < |s.procs| :: !IsCommitter(s.procs[p])
    ensures Phase(s.procs) == Out
  {
  }

  lemma EndSim(l: Layout, s: State, p: nat, s': State, a: Store)
    requires Inv(l, s) && Rel(l, s, a) && End(l, s, p, s')
    ensures Inv(l, s') && Rel(l, s', Apply(a, EndOp))
  {
    SomeOpen(s.procs, p);
    Update(s.procs, p, s'.procs[p]);
    NoCommitter(s);
    if s.outstanding == 1 {
      assert IsCommitter(s'.procs[p]);
      PhaseIs(s', p);
      if s.lh == [] {
        assert forall b :: b !in s.dirty;
        assert s.dirty == map[];
      }
    } else {
      NoCommitter(s');
    }
  }

  /** A step of the committer that leaves it committing. */
  lemma CommitterStep(l: Layout, s: State, p: nat, x: PState, s': State)
    requires GroupInv(l, s) && p < |s.procs| && IsCommitter(s.procs[p]) && IsCommitter(x)
    requires s'.procs == s.procs[p := x] && s'.outstanding == s.outstanding && s'.committing == s.committing
             && s'.mode == s.mode
    requires |s'.lh| <= |s.lh|
    ensures GroupInv(l, s') && s.outstanding == 0
    ensures Phase(s.procs) == s.procs[p] && Phase(s'.procs) == x
  {
    Update(s.procs, p, x);
    NoneOpen(s.procs);
    assert IsCommitter(s'.procs[p]);
    PhaseIs(s, p);
    PhaseIs(s', p);
  }

  lemma CopySim(l: Layout, s: State, p: nat, s': State, a: Store)
    requires Inv(l, s) && Rel(l, s, a) && CopyOne(l, s, p, s')
    ensures Inv(l, s') && Rel(l, s', a)
  {
    var k := s.procs[p].k;
    CommitterStep(l, s, p, Copying(k + 1), s');
    CopyDisk(l, s.disk, s.dirty, s.lh, k, s'.disk, a.durable);
  }

  lemma HeadSim(l: Layout, s: State, p: nat, s': State, a: Store)
    requires Inv(l, s) && Rel(l, s, a) && WriteHead(l, s, p, s')
    ensures Inv(l, s') && Allowed(a, Sync) && Rel(l, s', Apply(a, Sync))
  {
    CommitterStep(l, s, p, Installing(0), s');
    HeadDisk(l, s.disk, s.dirty, s.lh, s'.disk);
    Retarget(l, s'.disk, Overlay(s.disk, s.dirty), a.current);
  }

  lemma InstallSim(l: Layout, s: State, p: nat, s': State, a: Store)
    requires Inv(l, s) && Rel(l, s, a) && InstallOne(l, s, p, s')
    ensures Inv(l, s') && Rel(l, s', a)
  {
    var k := s.procs[p].k;
    CommitterStep(l, s, p, Installing(k + 1), s');
    InstallRest(l, s, p, k, s', a);
  }

  lemma InstallRest(l: Layout, s: State, p: nat, k: nat, s': State, a: Store)
    requires PinInv(s) && DebtOk(s.debt, s.dirty) && DiskInv(l, s.disk, s.dirty, s.lh, Installing(k)) && Rel(l, s, a)
    requires InstallOne(l, s, p, s') && k == s.procs[p].k
    ensures PinInv(s') && DebtOk(s'.debt, s'.dirty) && DiskInv(l, s'.disk, s'.dirty, s'.lh, Installing(k + 1))
    ensures Rel(l, s', a)
  {
    FirstKey(s.dirty, s.lh, k);
    InstallPins(l, s, p, s');
    InstallDisk(l, s.disk, s.dirty, s.lh, k, s'.disk, a.durable);
  }

  lemma FirstKey(dirty: map<int, Block>, lh: seq<int>, k: nat)
    requires k < |lh| && SameKeys(dirty, lh[k..])
    ensures lh[k] in dirty
  {
    assert lh[k..][0] == lh[k];
  }

  lemma InstallPins(l: Layout, s: State, p: nat, s': State)
    requires PinInv(s) && DebtOk(s.debt, s.dirty) && InstallOne(l, s, p, s') && s.lh[s.procs[p].k] in s.dirty
    ensures PinInv(s') && DebtOk(s'.debt, s'.dirty)
  {
    Unpin(s, s.lh[s.procs[p].k], s');
    forall b ensures s'.debt[b] <= if b in s'.dirty then 0 else 1 { assert s.debt[b] <= if b in s.dirty then 0 else 1; }
  }

  /** One bunpin of a block leaving the modified set, or unpinned by recovery. */
  lemma Unpin(s: State, b: int, s': State)
    requires PinInv(s) && s'.pins == s.pins[b := Pin(s, b) - 1]
    requires || (b in s.dirty && s'.dirty == s.dirty - {b} && s'.debt == s.debt)
             || (s'.dirty == s.dirty && s'.debt == s.debt + multiset{b})
    ensures PinInv(s')
  {
    forall c ensures Count(s'.pins, c) + s'.debt[c] == (if c in s'.dirty then 1 else 0) {
      assert Count(s.pins, c) + s.debt[c] == if c in s.dirty then 1 else 0;
    }
  }

  lemma ClearSim(l: Layout, s: State, p: nat, s': State, a: Store)
    requires Inv(l, s) && Rel(l, s, a) && ClearHead(l, s, p, s')
    ensures Inv(l, s') && Rel(l, s', a)
  {
    CommitterStep(l, s, p, Finishing, s');
    ClearDisk(l, s.disk, s.dirty, s.lh, s'.disk, a.durable);
  }

  lemma FinishSim(l: Layout, s: State, p: nat, s': State, a: Store)
    requires Inv(l, s) && Rel(l, s, a) && Finish(l, s, p, s')
    ensures Inv(l, s') && Rel(l, s', a)
    ensures SameHome(l, a.durable, a.current)
  {
    CommitterStep(l, s, p, Finishing, s);
    Update(s.procs, p, Out);
    NoCommitter(s');
  }

  lemma ProcSim(l: Layout, s: State, p: nat, s': State, a: Store)
    requires Inv(l, s) && Rel(l, s, a) && ProcStep(l, s, p, s')
    ensures Inv(l, s') && Rel(l, s', a)
  {
    if Check(l, s, p, s') { CheckSim(l, s, p, s', a); }
    else if CopyOne(l, s, p, s') { CopySim(l, s, p, s', a); }
    else if InstallOne(l, s, p, s') { InstallSim(l, s, p, s', a); }
    else if ClearHead(l, s, p, s') { ClearSim(l, s, p, s', a); }
    else { FinishSim(l, s, p, s', a); }
  }

  lemma CrashSim(l: Layout, s: State, s': State, a: Store)
    requires Inv(l, s) && Rel(l, s, a) && Crash(l, s, s')
    ensures Inv(l, s') && Rel(l, s', Apply(a, Crashed))
  {
    NoneOpen(s'.procs);
  }

  lemma RecoverOneSim(l: Layout, s: State, s': State, a: Store)
    requires Inv(l, s) && Rel(l, s, a) && RecoverOne(l, s, s')
    ensures Inv(l, s') && Rel(l, s', a)
  {
    RecoverGroup(l, s, s');
    RecoverPins(l, s, s');
    RecoverDisk(l, s.disk, s.lh, s.mode.k, s'.disk, a.durable);
  }

  lemma RecoverGroup(l: Layout, s: State, s': State)
    requires GroupInv(l, s) && RecoverOne(l, s, s')
    ensures GroupInv(l, s')
  {
  }

  lemma RecoverPins(l: Layout, s: State, s': State)
    requires PinInv(s) && s.held == map[] && RecoverOne(l, s, s') && DebtIs(s.debt, s.lh, s.mode.k)
    requires forall i, j | 0 <= i < j < |s.lh| :: s.lh[i] != s.lh[j]
    ensures PinInv(s') && HeldInv(s') && DebtIs(s'.debt, s.lh, s.mode.k + 1)
  {
    DebtMore(s.debt, s.lh, s.mode.k);
    Unpin(s, s.lh[s.mode.k], s');
    forall b ensures Count(s'.held, b) == 0 {}
  }

  lemma RecoverDoneSim(l: Layout, s: State, s': State, a: Store)
    requires Inv(l, s) && Rel(l, s, a) && RecoverDone(l, s, s')
    ensures Inv(l, s') && Rel(l, s', a)
  {
    RecoverDoneDisk(l, s.disk, s.lh, s'.disk, a.durable);
    NoCommitter(s');
  }

  /** The cache drops no modified block and gives no held buffer away. */
  lemma NoLoss(l: Layout, s: State, s': State)
    requires Inv(l, s)
    ensures forall b :: !Evict(s, b, s')
    ensures forall b, c :: !Reuse(l, s, b, c, s')
  {
    forall b ensures !Evict(s, b, s') {
      assert Count(s.held, b) >= 0 && Count(s.pins, b) + s.debt[b] == if b in s.dirty then 1 else 0;
    }
    forall b, c ensures !Reuse(l, s, b, c, s') {
      assert Count(s.held, b) >= 0 && (b in s.debt ==> Count(s.held, b) == 0);
      assert Count(s.pins, b) + s.debt[b] == if b in s.dirty then 1 else 0;
    }
  }

  /** One step of the machine is one step of the store, and only an allowed one. */
  lemma Simulation(l: Layout, s: State, e: Event, s': State, a: Store)
    requires Inv(l, s) && Rel(l, s, a) && Next(l, s, e, s') && Untouched(s, e) && FitsIn(l, s, e)
    ensures Inv(l, s') && Allowed(a, e) && Rel(l, s', Apply(a, e))
  {
    match e
    case BeginOp =>
      var p: nat :| Begin(l, s, p, s');
      BeginSim(l, s, p, s', a);
    case Bread(b) =>
      NoLoss(l, s, s');
      HoldSim(l, s, b, s', a);
    case Logged(b, v) =>
      var p: nat :| Write(l, s, p, b, v, s');
      WriteSim(l, s, p, b, v, s', a);
    case EndOp =>
      var p: nat :| End(l, s, p, s');
      EndSim(l, s, p, s', a);
    case Sync =>
      var p: nat :| WriteHead(l, s, p, s');
      HeadSim(l, s, p, s', a);
    case Crashed =>
      CrashSim(l, s, s', a);
    case Internal =>
      NoLoss(l, s, s');
      if p: nat :| ProcStep(l, s, p, s') { ProcSim(l, s, p, s', a); }
      else if RecoverOne(l, s, s') { RecoverOneSim(l, s, s', a); }
      else if RecoverDone(l, s, s') { RecoverDoneSim(l, s, s', a); }
      else {
        var b :| Release(s, b, s');
        HoldSim(l, s, b, s', a);
      }
  }

  /** Operations within their budgets do not overfill such a log. */
  lemma SizedFits(l: Layout, s: State, e: Event, s': State)
    requires Sized(l) && GroupInv(l, s) && Next(l, s, e, s')
    ensures FitsIn(l, s, e)
  {
    if e.Logged? {
      var p: nat :| Write(l, s, p, e.b, e.v, s');
      SomeOpen(s.procs, p);
    }
  }

  /** Successive states of the machine: states[i] goes to states[i + 1] by events[i]. */
  ghost predicate Steps(l: Layout, states: seq<State>, events: seq<Event>) {
    && |states| == |events| + 1
    && forall i {:trigger StepAt(l, states, events, i)} | 0 <= i < |events| :: StepAt(l, states, events, i)
  }

  ghost predicate StepAt(l: Layout, states: seq<State>, events: seq<Event>, i: nat)
    requires i < |events| && |states| == |events| + 1
  {
    Next(l, states[i], events[i], states[i + 1])
  }

  /** A run since the disk was made. */
  ghost predicate Run(l: Layout, states: seq<State>, events: seq<Event>) {
    Steps(l, states, events) && Init(l, states[0])
  }

  /** No block is read in while its buffer is one short: none that the boot's recovery installed. */
  ghost predicate AllUntouched(states: seq<State>, events: seq<Event>) {
    && |states| == |events| + 1
    && forall i {:trigger Untouched(states[i], events[i])} | 0 <= i < |events| ::
         Untouched(states[i], events[i])
  }

  /** No block is logged that the log has no place for: that is so of every run if the log is not too small. */
  ghost predicate AllFit(l: Layout, states: seq<State>, events: seq<Event>) {
    || Sized(l)
    || (&& |states| == |events| + 1
        && forall i {:trigger FitsIn(l, states[i], events[i])} | 0 <= i < |events| :: FitsIn(l, states[i], events[i]))
  }

  /** The store after the first n events. */
  function Replay(a: Store, events: seq<Event>, n: nat): (r: Store)
    requires n <= |events|
  {
    if n == 0 then a else Apply(Replay(a, events, n - 1), events[n - 1])
  }

  /** The store of a machine with nothing logged. */
  function Booted(s: State): (a: Store) {
    Store(s.disk, s.disk, 0)
  }

  /** Step i is one that the store can follow. */
  ghost predicate GoodAt(l: Layout, states: seq<State>, events: seq<Event>, i: nat)
    requires i < |events| && |states| == |events| + 1
  {
    StepAt(l, states, events, i) && Untouched(states[i], events[i]) && (Sized(l) || FitsIn(l, states[i], events[i]))
  }

  ghost predicate AllGood(l: Layout, states: seq<State>, events: seq<Event>) {
    && |states| == |events| + 1
    && forall i {:trigger GoodAt(l, states, events, i)} | 0 <= i < |events| :: GoodAt(l, states, events, i)
  }

  lemma Follows(l: Layout, states: seq<State>, events: seq<Event>)
    requires Steps(l, states, events) && AllUntouched(states, events) && AllFit(l, states, events)
    ensures AllGood(l, states, events)
  {
    forall i | 0 <= i < |events| ensures GoodAt(l, states, events, i) {
      assert StepAt(l, states, events, i) && Untouched(states[i], events[i]);
      assert Sized(l) || FitsIn(l, states[i], events[i]);
    }
  }

  lemma SimulationAt(l: Layout, states: seq<State>, events: seq<Event>, i: nat, a: Store)
    requires AllGood(l, states, events) && i < |events| && Inv(l, states[i]) && Rel(l, states[i], a)
    ensures Inv(l, states[i + 1]) && Rel(l, states[i + 1], Apply(a, events[i])) && Allowed(a, events[i])
  {
    assert GoodAt(l, states, events, i);
    if Sized(l) { SizedFits(l, states[i], events[i], states[i + 1]); }
    Simulation(l, states[i], events[i], states[i + 1], a);
  }

  /** A relation that holds at the start and is kept by every step holds all along. */
  lemma {:induction false} Along(states: seq<State>, events: seq<Event>, P: (State, Store) -> bool, a: Store, n: nat)
    requires |states| == |events| + 1 && n <= |events| && P(states[0], a)
    requires forall i, b | 0 <= i < |events| && P(states[i], b) :: P(states[i + 1], Apply(b, events[i]))
    ensures P(states[n], Replay(a, events, n))
  {
    if n > 0 { Along(states, events, P, a, n - 1); }
  }

  lemma RunSim(l: Layout, states: seq<State>, events: seq<Event>, n: nat)
    requires Run(l, states, events) && AllUntouched(states, events) && n <= |events|
    requires AllFit(l, states, events)
    ensures Inv(l, states[n])
    ensures Rel(l, states[n], Replay(Booted(states[0]), events, n))
  {
    var P := (s: State, a: Store) => Inv(l, s) && Rel(l, s, a);
    InitSim(l, states[0]);
    Follows(l, states, events);
    forall i, b | 0 <= i < |events| && P(states[i], b) ensures P(states[i + 1], Apply(b, events[i])) {
      SimulationAt(l, states, events, i, b);
    }
    Along(states, events, P, Booted(states[0]), n);
  }

  lemma InitSim(l: Layout, s: State)
    requires Init(l, s)
    ensures Inv(l, s) && Rel(l, s, Booted(s))
  {
    NoCommitter(s);
    NoneOpen(s.procs);
    assert Overlay(s.disk, map[]) == s.disk;
  }

  /** A recovery from the machine's disk would leave the home blocks of the durable image. */
  ghost predicate Durable(l: Layout, s: State, a: Store) {
    HeaderOk(l, s.disk) && SameHome(l, Recovered(l, s.disk), a.durable)
  }

  /** Group commit is atomic: wherever a run stops, recovery leaves exactly the writes logged before the last commit
      point that were not wiped by an earlier crash; every commit point falls where no operation is open. */
  lemma CommittedPrefix(l: Layout, states: seq<State>, events: seq<Event>, n: nat)
    requires Run(l, states, events) && AllUntouched(states, events) && n <= |events|
    requires AllFit(l, states, events)
    ensures Durable(l, states[n], Replay(Booted(states[0]), events, n))
    ensures forall i | 0 <= i < n && events[i].Sync? :: Replay(Booted(states[0]), events, i).open == 0
  {
    var a := Booted(states[0]);
    Follows(l, states, events);
    RunSim(l, states, events, n);
    RecoversToIff(l, states[n].disk, Replay(a, events, n).durable);
    forall i | 0 <= i < n && events[i].Sync? ensures Replay(a, events, i).open == 0 {
      RunSim(l, states, events, i);
      SimulationAt(l, states, events, i, Replay(a, events, i));
    }
  }
}
