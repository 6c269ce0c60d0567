/** What every run of the log keeps of the buffers' reference counts, whatever blocks it uses: the pins of a block are
    one for each unpin that is due, less what the block is short of, and within a boot as much is missing at the end
    as at the start, however buffers change hands. */
module LogLedger {
  import opened Basics
  import opened LogDisk
  import opened LogMachine

  /** The blocks that commit has yet to unpin. */
  function Pending(lh: seq<int>, x: PState): (r: set<int>) {
    if x.Installing? && x.k <= |lh| then set b | b in lh[x.k..] else set b | b in lh
  }

  // ---- how many blocks can be logged ----

  function Past(x: PState): (n: nat) {
    if x.InOp? && x.passed then 1 else 0
  }

  /** The operations that are past log_write's size check. */
  function Passing(ps: seq<PState>): (n: nat) {
    if ps == [] then 0 else Past(ps[0]) + Passing(ps[1..])
  }

  lemma {:induction false} PassingUpdate(ps: seq<PState>, p: nat, x: PState)
    requires p < |ps|
    ensures Passing(ps[p := x]) + Past(ps[p]) == Passing(ps) + Past(x)
  {
    if p > 0 {
      PassingUpdate(ps[1..], p - 1, x);
      assert ps[p := x][1..] == ps[1..][p - 1 := x];
    } else {
      assert ps[p := x][1..] == ps[1..];
    }
  }

  lemma {:induction false} PassingMost(ps: seq<PState>)
    ensures Passing(ps) <= Ops(ps)
  {
    if ps != [] { PassingMost(ps[1..]); }
  }

  /** What the unlocked size check lets through: three operations, when there is room for one block. */
  function Room(l: Layout): (n: int) {
    if l.size == 1 then 0 else l.size + 1
  }

  /** The most blocks that can be logged at a time: neither more than the check lets through nor than is reserved. */
  function Cap(l: Layout): (n: int)
    ensures n <= LOGSIZE && (l.size >= LOGSIZE - 1 ==> n == LOGSIZE)
  {
    if Room(l) < LOGSIZE then Room(l) else LOGSIZE
  }

  ghost predicate SpaceInv(l: Layout, s: State) {
    s.outstanding <= LOGSIZE / MAXOPBLOCKS && |s.lh| + Passing(s.procs) <= Room(l)
  }

  lemma SpaceStep(l: Layout, s: State, p: nat, x: PState, s': State)
    requires SpaceInv(l, s) && p < |s.procs| && s'.procs == s.procs[p := x] && s'.outstanding <= LOGSIZE / MAXOPBLOCKS
    requires |s'.lh| + Past(x) <= |s.lh| + Past(s.procs[p])
    ensures SpaceInv(l, s')
  {
    PassingUpdate(s.procs, p, x);
  }

  // ---- the account ----

  /** A list of logged blocks, which may be longer than the log. */
  predicate ListOk(l: Layout, lh: seq<int>) {
    && |lh| <= Cap(l)
    && (forall i | 0 <= i < |lh| :: IsHome(l, lh[i]))
    && (forall i, j | 0 <= i < j < |lh| :: lh[i] != lh[j])
  }

  predicate HeadOk(l: Layout, d: Disk) {
    Fits(l, d) && d[l.start][0] <= LOGSIZE && ListOk(l, Header(d[l.start]))
  }

  /** The header and the list of logged blocks, phase by phase. */
  ghost predicate LogPhase(l: Layout, d: Disk, lh: seq<int>, x: PState) {
    && HeadOk(l, d) && ListOk(l, lh)
    && match x
       case Out => Header(d[l.start]) == []
       case InOp(_, _) => false
       case Copying(k) => k <= |lh| && Header(d[l.start]) == []
       case Installing(k) => k <= |lh| && Header(d[l.start]) == lh
       case Finishing => lh == [] && Header(d[l.start]) == []
  }

  ghost predicate HeldNat(held: map<int, int>) {
    forall b {:trigger Count(held, b)} :: Count(held, b) >= 0
  }

  /** What is modified has yet to be unpinned, and what has yet to be unpinned is pinned but for what is missing. */
  ghost predicate Account(pins: map<int, int>, dirty: set<int>, pend: set<int>, debt: multiset<int>) {
    PinsOk(pins, pend, debt) && dirty <= pend
  }

  ghost predicate Ledger(l: Layout, s: State) {
    && GroupInv(l, s) && SpaceInv(l, s) && HeldNat(s.held) && |s.debt| <= Cap(l)
    && match s.mode
       case Running =>
         && LogPhase(l, s.disk, s.lh, Phase(s.procs))
         && Account(s.pins, s.dirty.Keys, Pending(s.lh, Phase(s.procs)), s.debt)
       case Recovering(k) =>
         && HeadOk(l, s.disk) && s.lh == Header(s.disk[l.start]) && k <= |s.lh|
         && s.dirty == map[] && s.held == map[] && PinsOk(s.pins, {}, s.debt) && DebtIs(s.debt, s.lh, k)
  }

  // ---- each step ----

  lemma BeginGroup(l: Layout, s: State, p: nat, s': State)
    requires GroupInv(l, s) && Begin(l, s, p, s')
    ensures GroupInv(l, s') && Phase(s.procs) == Out == Phase(s'.procs)
  {
    Update(s.procs, p, InOp(MAXOPBLOCKS, false));
    Bounds(s.procs, MAXOPBLOCKS);
    NoCommitter(s');
    NoCommitter(s);
  }

  lemma WriteGroup(l: Layout, s: State, p: nat, b: int, v: Block, s': State)
    requires GroupInv(l, s) && Write(l, s, p, b, v, s')
    ensures GroupInv(l, s') && Phase(s.procs) == Out == Phase(s'.procs) && l.size > 1
  {
    SomeOpen(s.procs, p);
    Update(s.procs, p, s'.procs[p]);
    NoCommitter(s);
    NoCommitter(s');
  }

  lemma CheckLedger(l: Layout, s: State, p: nat, s': State)
    requires Ledger(l, s) && Check(l, s, p, s')
    ensures Ledger(l, s')
  {
    PassingMost(s'.procs);
    SomeOpen(s.procs, p);
    Update(s.procs, p, s'.procs[p]);
    NoCommitter(s);
    NoCommitter(s');
  }

  lemma EndGroup(l: Layout, s: State, p: nat, s': State)
    requires GroupInv(l, s) && End(l, s, p, s')
    ensures GroupInv(l, s') && Phase(s.procs) == Out
    ensures Phase(s'.procs) == if s.outstanding != 1 then Out else if s.lh == [] then Finishing else Copying(0)
  {
    SomeOpen(s.procs, p);
    Update(s.procs, p, s'.procs[p]);
    NoCommitter(s);
    if s.outstanding == 1 {
      assert IsCommitter(s'.procs[p]);
      PhaseIs(s', p);
    } else {
      NoCommitter(s');
    }
  }

  lemma FinishLedger(l: Layout, s: State, p: nat, s': State)
    requires Ledger(l, s) && Finish(l, s, p, s')
    ensures Ledger(l, s')
  {
    SpaceStep(l, s, p, Out, s');
    CommitterStep(l, s, p, Finishing, s);
    Update(s.procs, p, Out);
    NoCommitter(s');
  }

  lemma WritePinned(pins: map<int, int>, lh: seq<int>, debt: multiset<int>, b: int)
    requires PinsOk(pins, Pending(lh, Out), debt) && b !in lh
    ensures PinsOk(pins[b := Count(pins, b) + 1], Pending(lh + [b], Out), debt)
  {
    var pins' := pins[b := Count(pins, b) + 1];
    forall c ensures Count(pins', c) + debt[c] == if c in Pending(lh + [b], Out) then 1 else 0 {
      assert Count(pins, c) + debt[c] == if c in Pending(lh, Out) then 1 else 0;
    }
  }

  lemma WriteLedger(l: Layout, s: State, p: nat, b: int, v: Block, s': State)
    requires Ledger(l, s) && Write(l, s, p, b, v, s')
    ensures Ledger(l, s')
  {
    WriteGroup(l, s, p, b, v, s');
    SpaceStep(l, s, p, s'.procs[p], s');
    if b !in s.lh { WritePinned(s.pins, s.lh, s.debt, b); }
  }

  lemma InstallPending(pins: map<int, int>, dirty: map<int, Block>, lh: seq<int>, k: nat, debt: multiset<int>, b: int)
    requires k < |lh| && lh[k] == b && Account(pins, dirty.Keys, Pending(lh, Installing(k)), debt)
    requires forall i, j | 0 <= i < j < |lh| :: lh[i] != lh[j]
    ensures Account(pins[b := Count(pins, b) - 1], (dirty - {b}).Keys, Pending(lh, Installing(k + 1)), debt)
  {
    var pins', pend, pend' := pins[b := Count(pins, b) - 1], Pending(lh, Installing(k)), Pending(lh, Installing(k + 1));
    assert lh[k..] == [b] + lh[k + 1..];
    forall c ensures c in pend' <==> c in pend && c != b {}
    forall c ensures Count(pins', c) + debt[c] == if c in pend' then 1 else 0 {
      assert Count(pins, c) + debt[c] == if c in pend then 1 else 0;
    }
  }

  lemma InstallLedger(l: Layout, s: State, p: nat, s': State)
    requires Ledger(l, s) && InstallOne(l, s, p, s')
    ensures Ledger(l, s')
  {
    var k := s.procs[p].k;
    SpaceStep(l, s, p, Installing(k + 1), s');
    CommitterStep(l, s, p, Installing(k + 1), s');
    InstallPhase(l, s.disk, s.lh, k, s'.disk);
    InstallPending(s.pins, s.dirty, s.lh, k, s.debt, s.lh[k]);
  }

  lemma InstallPhase(l: Layout, d: Disk, lh: seq<int>, k: nat, e: Disk)
    requires LogPhase(l, d, lh, Installing(k)) && k < |lh| && l.start + 1 + k < |d|
             && e == d[lh[k] := d[l.start + 1 + k]]
    ensures LogPhase(l, e, lh, Installing(k + 1))
  {
    assert IsHome(l, lh[k]);
  }

  lemma CopyLedger(l: Layout, s: State, p: nat, s': State)
    requires Ledger(l, s) && CopyOne(l, s, p, s')
    ensures Ledger(l, s')
  {
    SpaceStep(l, s, p, Copying(s.procs[p].k + 1), s');
    CommitterStep(l, s, p, Copying(s.procs[p].k + 1), s');
  }

  lemma HeadLedger(l: Layout, s: State, p: nat, s': State)
    requires Ledger(l, s) && WriteHead(l, s, p, s')
    ensures Ledger(l, s')
  {
    SpaceStep(l, s, p, Installing(0), s');
    CommitterStep(l, s, p, Installing(0), s');
    assert s.lh[0..] == s.lh;
    assert Pending(s.lh, Installing(0)) == Pending(s.lh, s.procs[p]);
  }

  lemma ClearLedger(l: Layout, s: State, p: nat, s': State)
    requires Ledger(l, s) && ClearHead(l, s, p, s')
    ensures Ledger(l, s')
  {
    SpaceStep(l, s, p, Finishing, s');
    CommitterStep(l, s, p, Finishing, s');
    assert s.lh[|s.lh|..] == [];
    assert Pending(s.lh, s.procs[p]) == {} == Pending([], Finishing);
  }

  lemma RecoverLedger(l: Layout, s: State, s': State)
    requires Ledger(l, s) && RecoverOne(l, s, s')
    ensures Ledger(l, s')
  {
    DebtMore(s.debt, s.lh, s.mode.k);
    forall c ensures Count(s'.pins, c) + s'.debt[c] == 0 { assert Count(s.pins, c) + s.debt[c] == 0; }
  }

  lemma RecoveredLedger(l: Layout, s: State, s': State)
    requires Ledger(l, s) && RecoverDone(l, s, s')
    ensures Ledger(l, s')
  {
    NoCommitter(s');
    assert Pending([], Out) == {};
  }

  lemma CrashLedger(l: Layout, s: State, s': State)
    requires Ledger(l, s) && Crash(l, s, s')
    ensures Ledger(l, s')
  {
    NoneOpen(s'.procs);
    PassingMost(s'.procs);
  }

  lemma MovePins(pins: map<int, int>, logged: set<int>, debt: multiset<int>, b: int, c: int, h: int)
    requires PinsOk(pins, logged, debt) && b != c && h > 0 && Count(pins, b) == -h && Count(pins, c) == 0
    ensures PinsOk(pins[b := 0][c := -h], logged, Move(debt, b, c, h)) && |Move(debt, b, c, h)| == |debt|
  {
    var pins', debt' := pins[b := 0][c := -h], Move(debt, b, c, h);
    assert Count(pins, b) + debt[b] == if b in logged then 1 else 0;
    forall d ensures Count(pins', d) + debt'[d] == if d in logged then 1 else 0 {
      assert Count(pins, d) + debt[d] == if d in logged then 1 else 0;
    }
  }

  lemma ReuseLedger(l: Layout, s: State, b: int, c: int, s': State)
    requires Ledger(l, s) && Reuse(l, s, b, c, s')
    ensures Ledger(l, s') && |s'.debt| == |s.debt|
  {
    MovePins(s.pins, Pending(s.lh, Phase(s.procs)), s.debt, b, c, Held(s, b));
    forall d ensures Count(s'.held, d) >= 0 { assert Count(s.held, d) >= 0; }
  }

  lemma HoldLedger(l: Layout, s: State, b: int, s': State)
    requires Ledger(l, s) && (Hold(l, s, b, s') || Release(s, b, s'))
    ensures Ledger(l, s')
  {
    forall d ensures Count(s'.held, d) >= 0 { assert Count(s.held, d) >= 0; }
  }

  lemma BreadLedger(l: Layout, s: State, c: int, s': State)
    requires Ledger(l, s) && Next(l, s, Bread(c), s')
    ensures Ledger(l, s') && |s'.debt| == |s.debt|
  {
    if b :| Reuse(l, s, b, c, s') { ReuseLedger(l, s, b, c, s'); }
    else { HoldLedger(l, s, c, s'); }
  }

  lemma ProcLedger(l: Layout, s: State, p: nat, s': State)
    requires Ledger(l, s) && ProcStep(l, s, p, s')
    ensures Ledger(l, s') && s'.debt == s.debt
  {
    if Check(l, s, p, s') { CheckLedger(l, s, p, s'); }
    else if CopyOne(l, s, p, s') { CopyLedger(l, s, p, s'); }
    else if InstallOne(l, s, p, s') { InstallLedger(l, s, p, s'); }
    else if ClearHead(l, s, p, s') { ClearLedger(l, s, p, s'); }
    else { FinishLedger(l, s, p, s'); }
  }

  lemma EvictLedger(l: Layout, s: State, b: int, s': State)
    requires Ledger(l, s) && Evict(s, b, s')
    ensures Ledger(l, s')
  {
  }

  lemma InternalLedger(l: Layout, s: State, s': State)
    requires Ledger(l, s) && Next(l, s, Internal, s')
    ensures Ledger(l, s') && (s.mode.Running? ==> s'.debt == s.debt)
  {
    if p: nat :| ProcStep(l, s, p, s') { ProcLedger(l, s, p, s'); }
    else if RecoverOne(l, s, s') { RecoverLedger(l, s, s'); }
    else if RecoverDone(l, s, s') { RecoveredLedger(l, s, s'); }
    else if b :| Release(s, b, s') { HoldLedger(l, s, b, s'); }
    else {
      var b :| Evict(s, b, s');
      EvictLedger(l, s, b, s');
    }
  }

  /** Every step keeps the account, and within a boot what is missing in all stays the same. */
  lemma LedgerStep(l: Layout, s: State, e: Event, s': State)
    requires Ledger(l, s) && Next(l, s, e, s')
    ensures Ledger(l, s')
    ensures s.mode.Running? && !e.Crashed? ==> |s'.debt| == |s.debt|
  {
    match e
    case BeginOp =>
      var p: nat :| Begin(l, s, p, s');
      BeginGroup(l, s, p, s');
      SpaceStep(l, s, p, s'.procs[p], s');
    case Bread(c) =>
      BreadLedger(l, s, c, s');
    case Logged(b, v) =>
      var p: nat :| Write(l, s, p, b, v, s');
      WriteLedger(l, s, p, b, v, s');
    case EndOp =>
      var p: nat :| End(l, s, p, s');
      EndGroup(l, s, p, s');
      SpaceStep(l, s, p, s'.procs[p], s');
    case Sync =>
      var p: nat :| WriteHead(l, s, p, s');
      HeadLedger(l, s, p, s');
    case Crashed =>
      CrashLedger(l, s, s');
    case Internal =>
      InternalLedger(l, s, s');
  }

  lemma InitLedger(l: Layout, s: State)
    requires Init(l, s)
    ensures Ledger(l, s)
  {
    NoCommitter(s);
    NoneOpen(s.procs);
    PassingMost(s.procs);
  }

  lemma LedgerAt(l: Layout, states: seq<State>, events: seq<Event>, i: nat)
    requires Steps(l, states, events) && i < |events| && Ledger(l, states[i])
    ensures Ledger(l, states[i + 1])
  {
    assert StepAt(l, states, events, i);
    LedgerStep(l, states[i], events[i], states[i + 1]);
  }

  /** So does every run, crashes and all. */
  lemma {:induction false} LedgerRun(l: Layout, states: seq<State>, events: seq<Event>, n: nat)
    requires Run(l, states, events) && n <= |events|
    ensures Ledger(l, states[n])
  {
    if n == 0 {
      InitLedger(l, states[0]);
    } else {
      LedgerRun(l, states, events, n - 1);
      LedgerAt(l, states, events, n - 1);
    }
  }

  // ---- when the cache loses a write ----

  /** No buffer changes hands as long as nobody holds one that is short. */
  lemma NoReuse(l: Layout, s: State, s': State)
    requires Ledger(l, s) && s.mode.Running? && HeldInv(s)
    ensures forall b, c :: !Reuse(l, s, b, c, s')
  {
    forall b, c ensures !Reuse(l, s, b, c, s') {
      assert Count(s.held, b) >= 0 && (b in s.debt ==> Count(s.held, b) == 0);
      assert Count(s.pins, b) + s.debt[b] == if b in Pending(s.lh, Phase(s.procs)) then 1 else 0;
    }
  }

  /** The cache may drop a logged write before it is home exactly when the block's buffer is one short and
      nobody holds it. */
  lemma EvictIff(l: Layout, s: State, b: int)
    requires Ledger(l, s) && s.mode.Running?
    ensures (exists s' :: Evict(s, b, s')) <==> b in s.dirty && s.debt[b] == 1 && Held(s, b) == 0
  {
    assert Count(s.pins, b) + s.debt[b] == if b in Pending(s.lh, Phase(s.procs)) then 1 else 0;
    if b in s.dirty && s.debt[b] == 1 && Held(s, b) == 0 { assert Evict(s, b, s.(dirty := s.dirty - {b})); }
  }

  /** The cache may give the buffer of b to block c while it is held exactly when it is short of a count for each
      holder, besides one for its own unpin if that is due. */
  lemma ReuseIff(l: Layout, s: State, b: int, c: int)
    requires Ledger(l, s) && s.mode.Running? && 0 <= c < l.nblocks && b != c && Refcnt(s, c) == 0 == Held(s, c)
             && c !in s.dirty
    ensures (exists s' :: Reuse(l, s, b, c, s')) <==>
            Held(s, b) > 0 && s.debt[b] == Held(s, b) + if b in Pending(s.lh, Phase(s.procs)) then 1 else 0
  {
    assert Count(s.pins, b) + s.debt[b] == if b in Pending(s.lh, Phase(s.procs)) then 1 else 0;
    if Held(s, b) > 0 && Refcnt(s, b) == 0 {
      var h := Held(s, b);
      assert Reuse(l, s, b, c, s.(dirty := s.dirty - {b}, pins := s.pins[b := 0][c := -h],
                                  held := s.held[b := 0][c := h + 1], debt := Move(s.debt, b, c, h)));
    }
  }
}
