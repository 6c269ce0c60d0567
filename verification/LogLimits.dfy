/** How far the log's promise reaches: the two conditions of LogMachine.CommittedPrefix are exact.

    Runs here are those of one boot, without a crash; the crash whose recovery goes wrong comes after their last state.
 */
module LogLimits {
  import opened Basics
  import opened LogDisk
  import opened LogMachine
  import opened LogLedger

  // ---- runs of one boot ----

  /** What a boot does with blocks: those it reads in, and the home blocks among them that it writes. */
  datatype Use = Use(touch: set<int>, writes: set<int>)

  ghost predicate Sensible(l: Layout, on: Use) {
    && on.writes <= on.touch && (forall b | b in on.touch :: 0 <= b < l.nblocks)
    && forall b | b in on.writes :: IsHome(l, b)
  }

  /** Not a crash, and no use of other blocks. */
  predicate Plain(e: Event, on: Use) {
    !e.Crashed? && (e.Bread? ==> e.b in on.touch) && (e.Logged? ==> e.b in on.writes)
  }

  /** Steps from s0 to s with plain events, which take the store of s0 to a. */
  ghost predicate Path(l: Layout, states: seq<State>, events: seq<Event>, s0: State, s: State, a: Store, on: Use) {
    && Steps(l, states, events) && states[0] == s0 && states[|events|] == s
    && (forall i | 0 <= i < |events| :: Plain(events[i], on))
    && Replay(Booted(s0), events, |events|) == a
  }

  ghost predicate Leads(l: Layout, s0: State, s: State, a: Store, on: Use) {
    exists states: seq<State>, events: seq<Event> :: Path(l, states, events, s0, s, a, on)
  }

  lemma LeadsSelf(l: Layout, s0: State, on: Use)
    ensures Leads(l, s0, s0, Booted(s0), on)
  {
    assert Path(l, [s0], [], s0, s0, Booted(s0), on);
  }

  lemma {:induction false} ReplayPrefix(a: Store, events: seq<Event>, e: Event, n: nat)
    requires n <= |events|
    ensures Replay(a, events + [e], n) == Replay(a, events, n)
  {
    if n > 0 {
      ReplayPrefix(a, events, e, n - 1);
      assert (events + [e])[n - 1] == events[n - 1];
    }
  }

  lemma StepsNext(l: Layout, states: seq<State>, events: seq<Event>, e: Event, s': State)
    requires Steps(l, states, events) && Next(l, states[|events|], e, s')
    ensures Steps(l, states + [s'], events + [e])
  {
    var ss, es := states + [s'], events + [e];
    forall i | 0 <= i < |es| ensures StepAt(l, ss, es, i) {
      if i < |events| {
        assert StepAt(l, states, events, i) && ss[i] == states[i] && ss[i + 1] == states[i + 1] && es[i] == events[i];
      }
    }
  }

  lemma LeadsNext(l: Layout, s0: State, s: State, a: Store, on: Use, e: Event, s': State)
    requires Leads(l, s0, s, a, on) && Next(l, s, e, s') && Plain(e, on)
    ensures Leads(l, s0, s', Apply(a, e), on)
  {
    var states: seq<State>, events: seq<Event> :| Path(l, states, events, s0, s, a, on);
    StepsNext(l, states, events, e, s');
    ReplayPrefix(Booted(s0), events, e, |events|);
    assert Path(l, states + [s'], events + [e], s0, s', Apply(a, e), on);
  }

  // ---- one boot is safe exactly when it leaves alone what its recovery installed ----

  /** Nobody holds a buffer. */
  ghost predicate Quiet(s: State) {
    forall b {:trigger Count(s.held, b)} :: Count(s.held, b) == 0
  }

  /** Up and running with nothing logged, no buffer held and no operation open, as recovery leaves the machine. */
  ghost predicate Idle(l: Layout, s: State) {
    && Inv(l, s) && s.mode.Running? && s.lh == [] && Quiet(s)
    && forall p | 0 <= p < |s.procs| :: s.procs[p].Out?
  }

  lemma IdleIs(l: Layout, s: State)
    requires Idle(l, s)
    ensures s.outstanding == 0 && !s.committing && s.dirty == map[]
    ensures HeaderOk(l, s.disk) && Header(s.disk[l.start]) == [] && Rel(l, s, Booted(s))
  {
    NoneOpen(s.procs);
    NoCommitter(s);
    NoKeys(s.dirty, s.lh);
    assert Overlay(s.disk, map[]) == s.disk;
  }

  lemma InitIdle(l: Layout, s: State)
    requires Init(l, s)
    ensures Idle(l, s)
  {
    InitSim(l, s);
  }

  /** Within a boot, and as long as no buffer changes hands, the same buffers are one short. */
  lemma ShortStays(l: Layout, s: State, e: Event, s': State)
    requires s.mode.Running? && Next(l, s, e, s') && !e.Crashed? && forall b, c :: !Reuse(l, s, b, c, s')
    ensures s'.mode.Running? && s'.debt == s.debt
  {
    if e.Internal? {
      if p: nat :| ProcStep(l, s, p, s') {}
    }
  }

  /** A boot that writes to these blocks alone can overfill the log. */
  predicate Fillable(l: Layout, on: Use) {
    l.size > 1 && l.size <= LOGSIZE && |on.writes| >= l.size
  }

  ghost predicate LogsOnly(s: State, on: Use) {
    forall b | b in s.lh :: b in on.writes
  }

  lemma OnlyStays(l: Layout, s: State, e: Event, s': State, on: Use)
    requires s.mode.Running? && LogsOnly(s, on) && Plain(e, on) && Next(l, s, e, s')
    ensures LogsOnly(s', on)
  {
    if e.Internal? {
      if p: nat :| ProcStep(l, s, p, s') {}
    }
  }

  lemma OnlyFits(l: Layout, s: State, e: Event, s': State, on: Use)
    requires Inv(l, s) && s.mode.Running? && LogsOnly(s, on) && Plain(e, on) && Next(l, s, e, s') && !Fillable(l, on)
    ensures FitsIn(l, s, e)
  {
    if Sized(l) {
      SizedFits(l, s, e, s');
    } else if e.Logged? && e.b !in s.lh {
      var all := Listed(s.lh, |s.lh|);
      ListedSize(s.lh, |s.lh|);
      SubsetSize(all + {e.b}, on.writes);
    }
  }

  lemma {:induction false} BootSim(l: Layout, states: seq<State>, events: seq<Event>, on: Use, n: nat)
    requires !Fillable(l, on) && Steps(l, states, events) && (forall i | 0 <= i < |events| :: Plain(events[i], on))
    requires Idle(l, states[0]) && on.touch !! Short(states[0]) && n <= |events|
    ensures Inv(l, states[n]) && Rel(l, states[n], Replay(Booted(states[0]), events, n))
    ensures states[n].mode.Running? && states[n].debt == states[0].debt && LogsOnly(states[n], on)
  {
    if n == 0 {
      IdleIs(l, states[0]);
    } else {
      BootSim(l, states, events, on, n - 1);
      assert Plain(events[n - 1], on) && StepAt(l, states, events, n - 1);
      BootStep(l, states[0], states[n - 1], events[n - 1], states[n], on, Replay(Booted(states[0]), events, n - 1));
    }
  }

  lemma BootStep(l: Layout, s0: State, s: State, e: Event, s': State, on: Use, a: Store)
    requires Inv(l, s) && Rel(l, s, a) && s.mode.Running? && s.debt == s0.debt && LogsOnly(s, on)
    requires !Fillable(l, on) && Plain(e, on) && Next(l, s, e, s') && on.touch !! Short(s0)
    ensures Inv(l, s') && Rel(l, s', Apply(a, e))
    ensures s'.mode.Running? && s'.debt == s0.debt && LogsOnly(s', on)
  {
    NoLoss(l, s, s');
    ShortStays(l, s, e, s');
    OnlyStays(l, s, e, s', on);
    OnlyFits(l, s, e, s', on);
    PlainUntouched(s0, s, e, on);
    Simulation(l, s, e, s', a);
  }

  lemma PlainUntouched(s1: State, s: State, e: Event, on: Use)
    requires Plain(e, on) && on.touch !! Short(s1) && s.debt == s1.debt
    ensures Untouched(s, e)
  {
    if e.Bread? { assert e.b !in Short(s1); }
  }

  lemma SafeBoot(l: Layout, s0: State, s: State, a: Store, on: Use)
    requires !Fillable(l, on) && Idle(l, s0) && on.touch !! Short(s0) && Leads(l, s0, s, a, on)
    ensures Durable(l, s, a) && Inv(l, s) && s.mode.Running? && s.debt == s0.debt
  {
    var states: seq<State>, events: seq<Event> :| Path(l, states, events, s0, s, a, on);
    BootSim(l, states, events, on, |events|);
    RecoversToIff(l, s.disk, a.durable);
  }

  /** Nothing is logged, and nobody is copying, or about to log anything if the log takes no block. */
  ghost predicate Unlogged(l: Layout, s: State, d: Disk) {
    && s.mode.Running? && s.lh == [] && s.disk == d
    && forall p | 0 <= p < |s.procs| ::
         !s.procs[p].Copying? && !s.procs[p].Installing? && (s.procs[p].InOp? && s.procs[p].passed ==> l.size > 1)
  }

  /** Such a boot logs nothing. */
  predicate Idles(l: Layout, on: Use) {
    l.size <= 1 || on.writes == {}
  }

  lemma UnloggedStays(l: Layout, s: State, e: Event, s': State, d: Disk, on: Use)
    requires Unlogged(l, s, d) && Next(l, s, e, s') && Plain(e, on) && Idles(l, on)
    ensures Unlogged(l, s', d) && !e.Sync? && !e.Logged?
  {
    match e
    case BeginOp => var p: nat :| Begin(l, s, p, s');
    case Bread(b) =>
    case Logged(b, v) =>
    case EndOp => var p: nat :| End(l, s, p, s');
    case Sync =>
    case Internal =>
      if p: nat :| ProcStep(l, s, p, s') { UnloggedProc(l, s, p, s', d); }
  }

  lemma UnloggedProc(l: Layout, s: State, p: nat, s': State, d: Disk)
    requires Unlogged(l, s, d) && ProcStep(l, s, p, s')
    ensures Unlogged(l, s', d)
  {
  }

  /** A boot that logs nothing loses nothing. */
  lemma {:induction false} IdleBoot(l: Layout, states: seq<State>, events: seq<Event>, on: Use, n: nat)
    requires Steps(l, states, events) && (forall i | 0 <= i < |events| :: Plain(events[i], on)) && Idles(l, on)
    requires Idle(l, states[0]) && n <= |events|
    ensures Unlogged(l, states[n], states[0].disk) && Replay(Booted(states[0]), events, n).durable == states[0].disk
  {
    if n > 0 {
      IdleBoot(l, states, events, on, n - 1);
      assert Plain(events[n - 1], on) && StepAt(l, states, events, n - 1);
      UnloggedStays(l, states[n - 1], events[n - 1], states[n], states[0].disk, on);
    }
  }

  lemma ReadOnlySafe(l: Layout, s0: State, s: State, a: Store, on: Use)
    requires Idle(l, s0) && Idles(l, on) && Leads(l, s0, s, a, on)
    ensures Durable(l, s, a)
  {
    var states: seq<State>, events: seq<Event> :| Path(l, states, events, s0, s, a, on);
    IdleBoot(l, states, events, on, |events|);
    IdleIs(l, s0);
    RecoversToIff(l, s0.disk, s0.disk);
  }

  /** Some contents other than v. */
  function Other(v: Block): (w: Block)
    ensures w != v
  {
    if v == [] then [0] else v[0 := v[0] + 1]
  }

  /** bread of block b. */
  lemma ReadIn(l: Layout, s0: State, s: State, a: Store, on: Use, b: int) returns (s': State)
    requires Leads(l, s0, s, a, on) && s.mode.Running? && 0 <= b < l.nblocks && b in on.touch
    ensures Leads(l, s0, s', a, on) && s' == s.(held := s.held[b := Held(s, b) + 1])
  {
    s' := s.(held := s.held[b := Held(s, b) + 1]);
    assert Hold(l, s, b, s');
    LeadsNext(l, s0, s, a, on, Bread(b), s');
  }

  /** brelse of the buffer of b. */
  lemma LetGo(l: Layout, s0: State, s: State, a: Store, on: Use, b: int) returns (s': State)
    requires Leads(l, s0, s, a, on) && s.mode.Running? && Held(s, b) > 0
    ensures Leads(l, s0, s', a, on) && s' == s.(held := s.held[b := Held(s, b) - 1])
  {
    s' := s.(held := s.held[b := Held(s, b) - 1]);
    assert Release(s, b, s');
    LeadsNext(l, s0, s, a, on, Internal, s');
  }

  /** log_write, by a holder, of a block not yet logged. */
  lemma LogHeld(l: Layout, s0: State, s: State, a: Store, on: Use, p: nat, b: int, v: Block)
      returns (s': State, a': Store)
    requires Leads(l, s0, s, a, on) && s.mode.Running? && p < |s.procs| && s.procs[p].InOp? && !s.procs[p].passed
    requires s.procs[p].unused > 0 && !LogFull(l, s) && b !in s.lh && b in on.writes && IsHome(l, b) && Held(s, b) > 0
    ensures Leads(l, s0, s', a', on) && a' == Apply(a, Logged(b, v))
    ensures s' == s.(dirty := s.dirty[b := v], lh := s.lh + [b], pins := s.pins[b := Pin(s, b) + 1],
                     procs := s.procs[p := InOp(s.procs[p].unused - 1, false)])
  {
    var r := s.(procs := s.procs[p := s.procs[p].(passed := true)]);
    assert Check(l, s, p, r) && ProcStep(l, s, p, r);
    LeadsNext(l, s0, s, a, on, Internal, r);
    s' := s.(dirty := s.dirty[b := v], lh := s.lh + [b], pins := s.pins[b := Pin(s, b) + 1],
             procs := s.procs[p := InOp(s.procs[p].unused - 1, false)]);
    assert Write(l, r, p, b, v, s');
    LeadsNext(l, s0, r, a, on, Logged(b, v), s');
    a' := Apply(a, Logged(b, v));
  }

  /** bread, log_write and brelse of a block not yet logged. */
  lemma LogOne(l: Layout, s0: State, s: State, a: Store, on: Use, p: nat, b: int, v: Block)
      returns (s': State, a': Store)
    requires Leads(l, s0, s, a, on) && s.mode.Running? && p < |s.procs| && s.procs[p].InOp? && !s.procs[p].passed
    requires s.procs[p].unused > 0 && !LogFull(l, s) && b !in s.lh && b in on.touch && b in on.writes && IsHome(l, b)
    requires Held(s, b) >= 0
    ensures Leads(l, s0, s', a', on) && a' == Apply(a, Logged(b, v))
    ensures s' == s.(dirty := s.dirty[b := v], lh := s.lh + [b], pins := s.pins[b := Pin(s, b) + 1],
                     held := s.held[b := Held(s, b)], procs := s.procs[p := InOp(s.procs[p].unused - 1, false)])
  {
    var r := ReadIn(l, s0, s, a, on, b);
    var r1, a1 := LogHeld(l, s0, r, a, on, p, b, v);
    s' := LetGo(l, s0, r1, a1, on, b);
    a' := a1;
    assert s'.held == s.held[b := Held(s, b)];
  }

  /** The first operation of a boot. */
  lemma BeginOne(l: Layout, s0: State, s: State, a: Store, on: Use) returns (s': State, a': Store)
    requires Leads(l, s0, s, a, on) && s.mode.Running? && 0 < |s.procs| && s.procs[0].Out?
    requires !s.committing && s.outstanding == 0 && s.lh == []
    ensures Leads(l, s0, s', a', on) && a' == Apply(a, BeginOp)
    ensures s' == s.(outstanding := 1, procs := s.procs[0 := InOp(MAXOPBLOCKS, false)])
  {
    s' := s.(outstanding := 1, procs := s.procs[0 := InOp(MAXOPBLOCKS, false)]);
    assert Begin(l, s, 0, s');
    LeadsNext(l, s0, s, a, on, BeginOp, s');
    a' := Apply(a, BeginOp);
  }

  /** A block that is logged, whose buffer is one short and not held, is evicted, and committed with the contents it
      has on disk. */
  lemma CommitLoses(l: Layout, s0: State, s: State, a: Store, on: Use, c: int, v: Block) returns (s': State, a': Store)
    requires Leads(l, s0, s, a, on) && s.mode.Running? && 0 < |s.procs| && s.procs[0].InOp? && !s.procs[0].passed
    requires s.lh == [c] && c in s.dirty && Held(s, c) == 0 == Pin(s, c) && s.outstanding == 1 && !s.committing
    requires HeaderOk(l, s.disk) && IsHome(l, c) && l.size > 1
    ensures Leads(l, s0, s', a', on) && a'.durable == a.current
    ensures HeaderOk(l, s'.disk) && Recovered(l, s'.disk)[c] == s.disk[c]
  {
    var r := s.(dirty := s.dirty - {c});
    assert Evict(s, c, r);
    LeadsNext(l, s0, s, a, on, Internal, r);
    s', a' := CommitOne(l, s0, r, a, on, c);
  }

  /** A write to a block whose buffer is one short is logged, dropped by the cache, and committed with
      its old contents. */
  lemma LostUpdate(l: Layout, s0: State, c: int, v: Block, on: Use) returns (s: State, a: Store)
    requires Idle(l, s0) && |s0.procs| > 0 && l.size > 1 && IsHome(l, c) && |s0.disk| == l.nblocks && v != s0.disk[c]
    requires c in s0.debt && c in on.touch && c in on.writes
    ensures Leads(l, s0, s, a, on) && a.durable == s0.disk[c := v]
    ensures HeaderOk(l, s.disk) && Recovered(l, s.disk)[c] == s0.disk[c] != v
  {
    IdleIs(l, s0);
    LeadsSelf(l, s0, on);
    assert s0.debt[c] == 1 && Count(s0.held, c) == 0 && Count(s0.pins, c) == -1;
    var s1, a1 := BeginOne(l, s0, s0, Booted(s0), on);
    var s2, a2 := LogOne(l, s0, s1, a1, on, 0, c, v);
    assert s2.lh == [c] && Held(s2, c) == 0 == Pin(s2, c);
    s, a := CommitLoses(l, s0, s2, a2, on, c, v);
  }

  /** One process reads b, whose buffer is one short, and has it to itself with a count of zero; the buffer is given to
      another process for block c. When the first has let go, the second is left with a count of zero. */
  lemma ReadGivesAway(l: Layout, s0: State, b: int, c: int, on: Use) returns (s: State)
    requires Idle(l, s0) && b in s0.debt && c !in s0.debt && b in on.touch && c in on.touch
    requires 0 <= b < l.nblocks && 0 <= c < l.nblocks
    ensures Leads(l, s0, s, Booted(s0), on) && Pin(s, c) == -1 && Held(s, c) == 1
    ensures s == s0.(pins := s.pins, held := s.held, debt := Move(s0.debt, b, c, 1))
  {
    IdleIs(l, s0);
    LeadsSelf(l, s0, on);
    assert s0.debt[b] == 1 && s0.debt[c] == 0 && Count(s0.held, b) == 0 && Count(s0.pins, b) == -1
           && Count(s0.held, c) == 0 && Count(s0.pins, c) == 0;
    var s1 := ReadIn(l, s0, s0, Booted(s0), on, b);
    var s2 := s1.(dirty := s1.dirty - {b}, pins := s1.pins[b := 0][c := -1], held := s1.held[b := 0][c := 2],
                  debt := Move(s1.debt, b, c, 1));
    assert Reuse(l, s1, b, c, s2);
    LeadsNext(l, s0, s1, Booted(s0), on, Bread(c), s2);
    s := LetGo(l, s0, s2, Booted(s0), on, c);
  }

  /** So a write to a block c that recovery did not touch is lost, because another one was read. */
  lemma LostByReading(l: Layout, s0: State, b: int, c: int, v: Block, on: Use) returns (s: State, a: Store)
    requires Idle(l, s0) && |s0.procs| > 0 && l.size > 1 && IsHome(l, c) && |s0.disk| == l.nblocks && v != s0.disk[c]
    requires b in s0.debt && c !in s0.debt && b in on.touch && c in on.touch && c in on.writes && 0 <= b < l.nblocks
    ensures Leads(l, s0, s, a, on) && a.durable == s0.disk[c := v]
    ensures HeaderOk(l, s.disk) && Recovered(l, s.disk)[c] == s0.disk[c] != v
  {
    IdleIs(l, s0);
    var s1 := ReadGivesAway(l, s0, b, c, on);
    var s2, a2 := BeginOne(l, s0, s1, Booted(s0), on);
    var s3, a3 := LogHeld(l, s0, s2, a2, on, 0, c, v);
    var s4 := LetGo(l, s0, s3, a3, on, c);
    assert s4.lh == [c] && Held(s4, c) == 0 == Pin(s4, c);
    s, a := CommitLoses(l, s0, s4, a3, on, c, v);
  }

  /** The end of an operation that logged b alone, up to its commit point. */
  lemma CommitOne(l: Layout, s0: State, s: State, a: Store, on: Use, b: int) returns (s': State, a': Store)
    requires Leads(l, s0, s, a, on) && s.mode.Running? && 0 < |s.procs| && s.procs[0].InOp? && !s.procs[0].passed
    requires s.lh == [b] && s.outstanding == 1 && !s.committing && HeaderOk(l, s.disk) && IsHome(l, b) && l.size > 1
    ensures Leads(l, s0, s', a', on) && a'.durable == a.current
    ensures HeaderOk(l, s'.disk) && Recovered(l, s'.disk)[b] == View(s.disk, s.dirty, b)
    ensures Header(s'.disk[l.start]) == [b] && |s'.procs| == |s.procs|
  {
    var s4 := s.(outstanding := 0, committing := true, procs := s.procs[0 := Copying(0)]);
    assert End(l, s, 0, s4);
    LeadsNext(l, s0, s, a, on, EndOp, s4);
    var a4 := Apply(a, EndOp);
    var s5 := CopyStep(l, s0, s4, a4, on, 0);
    s' := s5.(disk := WithHeader(l, s5.disk, [b]), procs := s5.procs[0 := Installing(0)]);
    assert WriteHead(l, s5, 0, s');
    LeadsNext(l, s0, s5, a4, on, Sync, s');
    a' := Apply(a4, Sync);
    HeaderOf(l, s5.disk, b);
  }

  lemma HeaderOf(l: Layout, d: Disk, b: int)
    requires Fits(l, d) && IsHome(l, b) && l.size > 1
    ensures var e := WithHeader(l, d, [b]);
            HeaderOk(l, e) && Header(e[l.start]) == [b] && Recovered(l, e)[b] == d[l.start + 1]
  {
    var e := WithHeader(l, d, [b]);
    RecoveredIs(l, e);
    assert Header(e[l.start])[0] == b;
  }

  /** One block write of write_log. */
  lemma CopyStep(l: Layout, s0: State, s: State, a: Store, on: Use, p: nat) returns (s': State)
    requires Leads(l, s0, s, a, on) && s.mode.Running? && p < |s.procs| && s.procs[p].Copying? && s.procs[p].k < |s.lh|
    requires 0 <= s.lh[s.procs[p].k] < |s.disk| && l.start + 1 + s.procs[p].k < |s.disk|
    ensures Leads(l, s0, s', a, on)
    ensures var k := s.procs[p].k;
            s' == s.(disk := s.disk[l.start + 1 + k := View(s.disk, s.dirty, s.lh[k])],
              procs := s.procs[p := Copying(k + 1)])
  {
    var k := s.procs[p].k;
    s' := s.(disk := s.disk[l.start + 1 + k := View(s.disk, s.dirty, s.lh[k])], procs := s.procs[p := Copying(k + 1)]);
    assert CopyOne(l, s, p, s') && ProcStep(l, s, p, s');
    LeadsNext(l, s0, s, a, on, Internal, s');
  }

  // ---- a boot with blocks that recovery installed does occur ----

  /** A run since the disk was made, crashes allowed, in which no block is used in the boot that installed it. */
  ghost predicate Reachable(l: Layout, s0: State, s: State) {
    exists states: seq<State>, events: seq<Event> ::
      Run(l, states, events) && AllUntouched(states, events) && states[0] == s0 && states[|events|] == s
  }

  lemma ReachNext(l: Layout, s0: State, s: State, e: Event, s': State)
    requires Reachable(l, s0, s) && Next(l, s, e, s') && Untouched(s, e)
    ensures Reachable(l, s0, s')
  {
    var states: seq<State>, events: seq<Event> :|
      Run(l, states, events) && AllUntouched(states, events) && states[0] == s0 && states[|events|] == s;
    var ss, es := states + [s'], events + [e];
    StepsNext(l, states, events, e, s');
    forall i | 0 <= i < |es| ensures Untouched(ss[i], es[i]) {
      if i < |events| { assert ss[i] == states[i] && es[i] == events[i] && Untouched(states[i], events[i]); }
    }
    assert Run(l, ss, es) && AllUntouched(ss, es);
  }

  lemma ReachSelf(l: Layout, s0: State)
    requires Init(l, s0)
    ensures Reachable(l, s0, s0)
  {
    assert Run(l, [s0], []) && AllUntouched([s0], []);
  }

  lemma ReachLedger(l: Layout, s0: State, s: State)
    requires Reachable(l, s0, s)
    ensures Ledger(l, s)
  {
    var states: seq<State>, events: seq<Event> :|
      Run(l, states, events) && AllUntouched(states, events) && states[0] == s0 && states[|events|] == s;
    LedgerRun(l, states, events, |events|);
  }

  lemma ReachStep(l: Layout, s0: State, states: seq<State>, events: seq<Event>, i: nat)
    requires Steps(l, states, events) && i < |events| && Reachable(l, s0, states[i]) && Untouched(states[i], events[i])
    ensures Reachable(l, s0, states[i + 1])
  {
    assert StepAt(l, states, events, i);
    ReachNext(l, s0, states[i], events[i], states[i + 1]);
  }

  lemma {:induction false} ReachAlong(l: Layout, s0: State, states: seq<State>, events: seq<Event>, n: nat)
    requires Steps(l, states, events) && AllUntouched(states, events) && n <= |events| && Reachable(l, s0, states[0])
    ensures Reachable(l, s0, states[n])
  {
    if n > 0 {
      ReachAlong(l, s0, states, events, n - 1);
      ReachStep(l, s0, states, events, n - 1);
    }
  }

  lemma {:induction false} ApartBoot(l: Layout, states: seq<State>, events: seq<Event>, on: Use, n: nat)
    requires Steps(l, states, events) && (forall i | 0 <= i < |events| :: Plain(events[i], on)) && n <= |events|
    requires Ledger(l, states[0]) && states[0].mode.Running? && HeldInv(states[0]) && on.touch !! Short(states[0])
    ensures Ledger(l, states[n]) && states[n].mode.Running? && HeldInv(states[n]) && states[n].debt == states[0].debt
  {
    if n > 0 {
      ApartBoot(l, states, events, on, n - 1);
      assert Plain(events[n - 1], on) && StepAt(l, states, events, n - 1);
      ApartStep(l, states[0], states[n - 1], events[n - 1], states[n], on);
    }
  }

  lemma ApartStep(l: Layout, s0: State, s: State, e: Event, s': State, on: Use)
    requires Ledger(l, s) && s.mode.Running? && HeldInv(s) && s.debt == s0.debt
    requires Plain(e, on) && on.touch !! Short(s0) && Next(l, s, e, s')
    ensures Ledger(l, s') && s'.mode.Running? && HeldInv(s') && s'.debt == s0.debt
  {
    LedgerStep(l, s, e, s');
    NoReuse(l, s, s');
    ShortStays(l, s, e, s');
    PlainUntouched(s0, s, e, on);
    HeldStays(l, s, e, s');
  }

  lemma HeldStays(l: Layout, s: State, e: Event, s': State)
    requires s.mode.Running? && HeldInv(s) && Next(l, s, e, s') && !e.Crashed? && Untouched(s, e)
    requires s'.debt == s.debt && forall b, c :: !Reuse(l, s, b, c, s')
    ensures HeldInv(s')
  {
    if e.Internal? {
      if p: nat :| ProcStep(l, s, p, s') {}
    }
    forall c ensures Count(s'.held, c) >= 0 && (c in s'.debt ==> Count(s'.held, c) == 0) {
      assert Count(s.held, c) >= 0 && (c in s.debt ==> Count(s.held, c) == 0);
    }
  }

  /** A boot that leaves alone what recovery installed goes on with a run. */
  lemma LeadsReach(l: Layout, s0: State, s1: State, s: State, a: Store, on: Use)
    requires Reachable(l, s0, s1) && Idle(l, s1) && on.touch !! Short(s1) && Leads(l, s1, s, a, on)
    ensures Reachable(l, s0, s)
  {
    ReachLedger(l, s0, s1);
    var states: seq<State>, events: seq<Event> :| Path(l, states, events, s1, s, a, on);
    forall i | 0 <= i < |events| ensures Untouched(states[i], events[i]) {
      ApartBoot(l, states, events, on, i);
      PlainUntouched(s1, states[i], events[i], on);
    }
    ReachAlong(l, s0, states, events, |events|);
  }

  lemma {:induction false} RecoverTo(l: Layout, s0: State, s: State, k: nat) returns (s': State)
    requires Reachable(l, s0, s) && s.mode == Recovering(0) && k <= |s.lh| && l.start + |s.lh| < l.nblocks
    ensures Reachable(l, s0, s') && s'.mode == Recovering(k) && s'.lh == s.lh && |s'.procs| == |s.procs|
  {
    if k == 0 {
      s' := s;
    } else {
      var r := RecoverTo(l, s0, s, k - 1);
      ReachLedger(l, s0, r);
      s' := RecoverNext(l, s0, r);
    }
  }

  lemma RecoverNext(l: Layout, s0: State, s: State) returns (s': State)
    requires Reachable(l, s0, s) && s.mode.Recovering? && s.mode.k < |s.lh| && HeadOk(l, s.disk)
             && s.lh == Header(s.disk[l.start]) && l.start + |s.lh| < l.nblocks
    ensures Reachable(l, s0, s') && s'.mode == Recovering(s.mode.k + 1) && s'.lh == s.lh && |s'.procs| == |s.procs|
  {
    var k, b := s.mode.k, s.lh[s.mode.k];
    assert IsHome(l, b);
    s' := s.(disk := s.disk[b := s.disk[l.start + 1 + k]], pins := s.pins[b := Pin(s, b) - 1],
             debt := s.debt + multiset{b}, mode := Recovering(k + 1));
    assert RecoverOne(l, s, s');
    ReachNext(l, s0, s, Internal, s');
  }

  /** A completed recovery leaves an idle machine in which the buffers of the blocks it installed are one short. */
  lemma RecoverAll(l: Layout, s0: State, s: State) returns (s': State)
    requires Reachable(l, s0, s) && s.mode == Recovering(0) && l.start + |s.lh| < l.nblocks
    ensures Reachable(l, s0, s') && Idle(l, s') && DebtIs(s'.debt, s.lh, |s.lh|) && |s'.procs| == |s.procs|
  {
    var r := RecoverTo(l, s0, s, |s.lh|);
    ReachLedger(l, s0, r);
    s' := r.(disk := WithHeader(l, r.disk, []), lh := [], mode := Running);
    assert RecoverDone(l, r, s');
    ReachNext(l, s0, r, Internal, s');
    ReachLedger(l, s0, s');
    RecoveredIdle(l, r, s');
  }

  lemma RecoveredIdle(l: Layout, s: State, s': State)
    requires Ledger(l, s) && s.mode == Recovering(|s.lh|) && RecoverDone(l, s, s') && Ledger(l, s')
    ensures Idle(l, s')
  {
    NoCommitter(s');
    assert Pending([], Out) == {};
    forall b ensures Count(s'.held, b) == 0 {}
  }

  // ---- filling the log ----

  /** The use of every home block, in every way. */
  function Homes(l: Layout): (on: Use)
    ensures forall b {:trigger b in on.touch} {:trigger b in on.writes} ::
              (b in on.touch <==> IsHome(l, b)) && (b in on.writes <==> IsHome(l, b))
  {
    var all := set b | 0 <= b < l.nblocks && IsHome(l, b);
    Use(all, all)
  }

  ghost predicate Uses(on: Use, hs: seq<int>) {
    forall i {:trigger hs[i]} | 0 <= i < |hs| :: hs[i] in on.touch && hs[i] in on.writes
  }

  /** Distinct home blocks. */
  ghost predicate HomeList(l: Layout, hs: seq<int>) {
    Distinct(hs) && forall i {:trigger hs[i]} | 0 <= i < |hs| :: IsHome(l, hs[i])
  }

  /** Enough of them to fill any log. */
  ghost predicate Enough(l: Layout, hs: seq<int>) {
    |hs| == LOGSIZE && HomeList(l, hs)
  }

  /** Which of three operations logs block number n, and what that leaves each of them: they all keep one block of
      their budgets to the end. */
  function Who(n: nat): (p: nat)
    ensures p < 3
  {
    if n < LOGSIZE - 3 then n / (MAXOPBLOCKS - 1) else n % 3
  }

  function Left(q: int, n: nat): (u: nat)
    requires n <= LOGSIZE
  {
    var first := q * (MAXOPBLOCKS - 1);
    if n <= first then MAXOPBLOCKS
    else if n <= first + MAXOPBLOCKS - 1 then first + MAXOPBLOCKS - n
    else if n <= LOGSIZE - 3 + q then 1 else 0
  }

  /** The first n of `hs` are logged, with contents v. */
  ghost predicate Logs(s: State, hs: seq<int>, n: nat, v: Block) {
    n <= |hs| && s.lh == hs[..n] && forall b | b in s.lh :: b in s.dirty && s.dirty[b] == v
  }

  lemma LogsNot(s: State, hs: seq<int>, n: nat, v: Block)
    requires Logs(s, hs, n, v) && Distinct(hs) && n < |hs|
    ensures hs[n] !in s.lh
  {
    assert forall i | 0 <= i < n :: hs[i] != hs[n];
  }

  lemma LogsMore(s: State, hs: seq<int>, n: nat, v: Block, s': State)
    requires Logs(s, hs, n, v) && n < |hs| && s'.lh == s.lh + [hs[n]] && s'.dirty == s.dirty[hs[n] := v]
    ensures Logs(s', hs, n + 1, v)
  {
    assert hs[..n + 1] == hs[..n] + [hs[n]];
  }

  /** Three operations have begun and have together logged the first n of `hs`, with contents v. */
  ghost predicate Filled(s0: State, s: State, hs: seq<int>, n: nat, v: Block) {
    && s.mode.Running? && !s.committing && s.outstanding == 3 && s.disk == s0.disk && |s.procs| == |s0.procs| >= 3
    && s.debt == s0.debt && Logs(s, hs, n, v) && Quiet(s) && Open(s, 0) && Open(s, 1) && Open(s, 2)
  }

  ghost predicate Shares(s: State, n: nat) {
    OpAt(s, 0, n) && OpAt(s, 1, n) && OpAt(s, 2, n)
  }

  predicate Open(s: State, q: nat) {
    q < |s.procs| && s.procs[q].InOp? && !s.procs[q].passed
  }

  predicate OpAt(s: State, q: nat, n: nat) {
    q < |s.procs| && n <= LOGSIZE && s.procs[q] == InOp(Left(q, n), false)
  }

  lemma FillNone(l: Layout, s0: State, hs: seq<int>, v: Block, on: Use) returns (s: State, a: Store)
    requires Idle(l, s0) && Uses(on, hs) && |s0.procs| >= 3
    ensures Leads(l, s0, s, a, on) && a.durable == s0.disk && Filled(s0, s, hs, 0, v) && Shares(s, 0)
  {
    var a0 := Booted(s0);
    IdleIs(l, s0);
    LeadsSelf(l, s0, on);
    var s1 := s0.(outstanding := 1, procs := s0.procs[0 := InOp(MAXOPBLOCKS, false)]);
    var s2 := s1.(outstanding := 2, procs := s1.procs[1 := InOp(MAXOPBLOCKS, false)]);
    s := s2.(outstanding := 3, procs := s2.procs[2 := InOp(MAXOPBLOCKS, false)]);
    assert Begin(l, s0, 0, s1) && Begin(l, s1, 1, s2) && Begin(l, s2, 2, s);
    LeadsNext(l, s0, s0, a0, on, BeginOp, s1);
    LeadsNext(l, s0, s1, Apply(a0, BeginOp), on, BeginOp, s2);
    LeadsNext(l, s0, s2, Apply(Apply(a0, BeginOp), BeginOp), on, BeginOp, s);
    a := Apply(Apply(Apply(a0, BeginOp), BeginOp), BeginOp);
  }

  lemma {:induction false} FillTo(l: Layout, s0: State, hs: seq<int>, n: nat, v: Block, on: Use)
      returns (s: State, a: Store)
    requires Idle(l, s0) && Uses(on, hs) && |s0.procs| >= 3 && HomeList(l, hs) && n <= |hs| && n <= LOGSIZE
             && n < l.size
    ensures Leads(l, s0, s, a, on) && a.durable == s0.disk && Filled(s0, s, hs, n, v) && Shares(s, n)
  {
    if n == 0 {
      s, a := FillNone(l, s0, hs, v, on);
    } else {
      var r, c := FillTo(l, s0, hs, n - 1, v, on);
      var p, b := Who(n - 1), hs[n - 1];
      LogsNot(r, hs, n - 1, v);
      assert Count(r.held, b) == 0;
      s, a := LogOne(l, s0, r, c, on, p, b, v);
      FilledMore(s0, r, hs, n - 1, v, p, b, s);
    }
  }

  lemma FilledMore(s0: State, s: State, hs: seq<int>, n: nat, v: Block, p: nat, b: int, s': State)
    requires Filled(s0, s, hs, n, v) && Shares(s, n) && n < |hs| && n < LOGSIZE && p == Who(n) && b == hs[n]
             && s.procs[p].unused > 0
    requires s' == s.(dirty := s.dirty[b := v], lh := s.lh + [b], pins := s.pins[b := Pin(s, b) + 1],
                      held := s.held[b := Held(s, b)], procs := s.procs[p := InOp(s.procs[p].unused - 1, false)])
    ensures Filled(s0, s', hs, n + 1, v) && Shares(s', n + 1)
  {
    LogsMore(s, hs, n, v, s');
    forall c ensures Count(s'.held, c) == 0 { assert Count(s.held, c) == 0; }
  }

  /** end_op never finds a commit in progress, and a process that still has reserved space never overflows a log
      of more than LOGSIZE blocks: neither panic of the log can happen. */
  lemma NoPanic(l: Layout, s: State, p: nat)
    requires Inv(l, s) && p < |s.procs| && s.procs[p].InOp?
    ensures !s.committing
    ensures s.outstanding >= 1
    ensures s.procs[p].unused > 0 && l.size > LOGSIZE ==> !LogFull(l, s)
  {
    SomeOpen(s.procs, p);
  }

  /** The bound is tight. On every log, three operations within their budgets can reach a full log; one of them then
      still has reserved space, so that its next new block panics, exactly when the log has LOGSIZE blocks or fewer.
      On a larger log the next write to a block already logged panics. */
  lemma FullIsReachable(l: Layout, s0: State, hs: seq<int>) returns (s: State, a: Store)
    requires Init(l, s0) && |s0.procs| >= 3 && Enough(l, hs)
    ensures Leads(l, s0, s, a, Homes(l)) && LogFull(l, s) && |s.procs| >= 3 && s.procs[2].InOp? && !s.procs[2].passed
    ensures s.procs[2].unused > 0 <==> l.size <= LOGSIZE
    ensures l.size > LOGSIZE ==> hs[0] in s.lh
  {
    var n := if l.size <= LOGSIZE then l.size - 1 else LOGSIZE;
    InitIdle(l, s0);
    s, a := FillTo(l, s0, hs, n, [], Homes(l));
    assert s.procs[2] == InOp(Left(2, n), false);
    if n > 0 { assert s.lh[0] == hs[0]; }
  }

  // ---- a log of LOGSIZE blocks or fewer can be overfilled ----

  /** Two operations that hold the next two of hs pass the size check, when there is room for one block. */
  lemma TwoPass(l: Layout, s0: State, hs: seq<int>, n: nat, v: Block, on: Use) returns (r: State, s: State, a: Store)
    requires Idle(l, s0) && Uses(on, hs) && |s0.procs| >= 3 && HomeList(l, hs) && l.size == n + 2 <= LOGSIZE
    requires l.size <= |hs|
    ensures Leads(l, s0, s, a, on) && a.durable == s0.disk && Filled(s0, r, hs, n, v)
    ensures hs[n] != hs[n + 1] && Held(r, hs[n]) == 0 == Held(r, hs[n + 1])
    ensures s == r.(held := r.held[hs[n] := 1][hs[n + 1] := 1],
                    procs := r.procs[1 := InOp(Left(1, n), true)][2 := InOp(Left(2, n), true)])
    ensures Left(1, n) > 0 && Left(2, n) > 0 && r.procs[0] == InOp(Left(0, n), false)
  {
    var c;
    r, c := FillTo(l, s0, hs, n, v, on);
    assert Count(r.held, hs[n]) == 0 && Count(r.held, hs[n + 1]) == 0 && hs[n] != hs[n + 1];
    var r1 := ReadIn(l, s0, r, c, on, hs[n]);
    var r2 := ReadIn(l, s0, r1, c, on, hs[n + 1]);
    s := BothPass(l, s0, r2, c, n, on);
    a := c;
  }

  /** Two operations pass the size check when there is room for one block, and both go on to log one. */
  lemma Overfill(l: Layout, s0: State, hs: seq<int>, v: Block, on: Use) returns (s: State, a: Store)
    requires Idle(l, s0) && Uses(on, hs) && |s0.procs| >= 3 && HomeList(l, hs) && 2 <= l.size <= LOGSIZE
    requires l.size <= |hs|
    ensures Leads(l, s0, s, a, on) && a.durable == s0.disk && Filled(s0, s, hs, l.size, v)
  {
    var n := l.size - 2;
    var r, r1, c := TwoPass(l, s0, hs, n, v, on);
    s, a := BothLog(l, s0, r1, c, hs, n, v, on);
    BothQuiet(r, hs[n], hs[n + 1], r1, s);
  }

  /** If there are budgets for it, a third one does so too. */
  lemma OverfillMore(l: Layout, s0: State, hs: seq<int>, v: Block, on: Use) returns (s: State, a: Store)
    requires Idle(l, s0) && Uses(on, hs) && |s0.procs| >= 3 && HomeList(l, hs) && 2 <= l.size < LOGSIZE
    requires l.size < |hs|
    ensures Leads(l, s0, s, a, on) && a.durable == s0.disk && Filled(s0, s, hs, l.size + 1, v)
  {
    var n := l.size - 2;
    var r, r1, c := TwoPass(l, s0, hs, n, v, on);
    var r2 := FirstPasses(l, s0, r1, c, on);
    var r3, d := BothLog(l, s0, r2, c, hs, n, v, on);
    BothQuiet(r, hs[n], hs[n + 1], r1, r3);
    s, a := ThirdLogs(l, s0, r3, d, hs, n + 2, v, on);
  }

  lemma FirstPasses(l: Layout, s0: State, s: State, a: Store, on: Use) returns (s': State)
    requires Leads(l, s0, s, a, on) && s.mode.Running? && Open(s, 0) && !LogFull(l, s)
    ensures Leads(l, s0, s', a, on) && s' == s.(procs := s.procs[0 := InOp(s.procs[0].unused, true)])
  {
    s' := s.(procs := s.procs[0 := InOp(s.procs[0].unused, true)]);
    assert Check(l, s, 0, s') && ProcStep(l, s, 0, s');
    LeadsNext(l, s0, s, a, on, Internal, s');
  }

  lemma BothQuiet(s: State, b: int, c: int, r: State, s': State)
    requires Quiet(s) && b != c && s'.held == r.held[b := Held(r, b) - 1][c := Held(r, c) - 1]
    requires r.held == s.held[b := Held(s, b) + 1][c := Held(s, c) + 1]
    ensures Quiet(s')
  {
    forall d ensures Count(s'.held, d) == 0 { assert Count(s.held, d) == 0; }
  }

  lemma ThirdLogs(l: Layout, s0: State, s: State, a: Store, hs: seq<int>, n: nat, v: Block, on: Use)
      returns (s': State, a': Store)
    requires Leads(l, s0, s, a, on) && Uses(on, hs) && HomeList(l, hs) && n < |hs| && Logs(s, hs, n, v) && Quiet(s)
    requires s.mode.Running? && |s.procs| >= 3 && s.procs[0].InOp? && s.procs[0].passed && s.procs[0].unused > 0
    ensures Leads(l, s0, s', a', on) && a'.durable == a.durable && Logs(s', hs, n + 1, v) && Quiet(s')
    ensures s' == s.(dirty := s'.dirty, lh := s'.lh, pins := s'.pins, procs := s'.procs, held := s'.held)
    ensures s'.procs == s.procs[0 := InOp(s.procs[0].unused - 1, false)]
  {
    var b := hs[n];
    assert Count(s.held, b) == 0;
    LogsNot(s, hs, n, v);
    var r := ReadIn(l, s0, s, a, on, b);
    var r1 := Append(l, s0, r, a, on, 0, b, v);
    LogsMore(s, hs, n, v, r1);
    a' := Apply(a, Logged(b, v));
    s' := LetGo(l, s0, r1, a', on, b);
    forall d ensures Count(s'.held, d) == 0 { assert Count(s.held, d) == 0; }
  }

  lemma BothLog(l: Layout, s0: State, s: State, a: Store, hs: seq<int>, n: nat, v: Block, on: Use)
      returns (s': State, a': Store)
    requires Leads(l, s0, s, a, on) && Uses(on, hs) && HomeList(l, hs) && n + 2 <= |hs| && Logs(s, hs, n, v)
    requires s.mode.Running? && |s.procs| >= 3 && Held(s, hs[n]) > 0 && Held(s, hs[n + 1]) > 0
    requires forall q | 1 <= q < 3 :: s.procs[q].InOp? && s.procs[q].passed && s.procs[q].unused > 0
    ensures Leads(l, s0, s', a', on) && a'.durable == a.durable && Logs(s', hs, n + 2, v) && |s'.procs| >= 3
    ensures s' == s.(dirty := s'.dirty, lh := s'.lh, pins := s'.pins, procs := s'.procs, held := s'.held)
    ensures s'.held == s.held[hs[n] := Held(s, hs[n]) - 1][hs[n + 1] := Held(s, hs[n + 1]) - 1] && hs[n] != hs[n + 1]
    ensures s'.procs[0] == s.procs[0] && |s'.procs| == |s.procs| && Open(s', 1) && Open(s', 2)
  {
    var e, e' := Logged(hs[n], v), Logged(hs[n + 1], v);
    assert hs[n] != hs[n + 1];
    LogsNot(s, hs, n, v);
    var r := Append(l, s0, s, a, on, 1, hs[n], v);
    LogsMore(s, hs, n, v, r);
    LogsNot(r, hs, n + 1, v);
    var r1 := Append(l, s0, r, Apply(a, e), on, 2, hs[n + 1], v);
    LogsMore(r, hs, n + 1, v, r1);
    a' := Apply(Apply(a, e), e');
    s' := BothLetGo(l, s0, r1, a', hs[n], hs[n + 1], on);
  }

  lemma BothLetGo(l: Layout, s0: State, s: State, a: Store, b: int, c: int, on: Use) returns (s': State)
    requires Leads(l, s0, s, a, on) && s.mode.Running? && Held(s, b) > 0 && Held(s, c) > 0 && b != c
    ensures Leads(l, s0, s', a, on) && s' == s.(held := s.held[b := Held(s, b) - 1][c := Held(s, c) - 1])
  {
    var r := LetGo(l, s0, s, a, on, b);
    s' := LetGo(l, s0, r, a, on, c);
  }

  lemma BothPass(l: Layout, s0: State, s: State, a: Store, n: nat, on: Use) returns (s': State)
    requires Leads(l, s0, s, a, on) && s.mode.Running? && |s.lh| == n < LOGSIZE - 1 && n < l.size - 1
    requires OpAt(s, 0, n) && OpAt(s, 1, n) && OpAt(s, 2, n)
    ensures Leads(l, s0, s', a, on)
    ensures s' == s.(procs := s.procs[1 := InOp(Left(1, n), true)][2 := InOp(Left(2, n), true)])
    ensures Left(1, n) > 0 && Left(2, n) > 0 && s.procs[0] == InOp(Left(0, n), false)
  {
    assert s.procs[1] == InOp(Left(1, n), false) && s.procs[2] == InOp(Left(2, n), false);
    var s1 := s.(procs := s.procs[1 := InOp(Left(1, n), true)]);
    s' := s1.(procs := s1.procs[2 := InOp(Left(2, n), true)]);
    assert Check(l, s, 1, s1) && ProcStep(l, s, 1, s1) && Check(l, s1, 2, s') && ProcStep(l, s1, 2, s');
    LeadsNext(l, s0, s, a, on, Internal, s1);
    LeadsNext(l, s0, s1, a, on, Internal, s');
  }

  /** The locked part of log_write, for a block not yet logged. */
  lemma Append(l: Layout, s0: State, s: State, a: Store, on: Use, p: nat, b: int, v: Block) returns (s': State)
    requires Leads(l, s0, s, a, on) && s.mode.Running? && p < |s.procs| && s.procs[p].InOp? && s.procs[p].passed
    requires s.procs[p].unused > 0 && b !in s.lh && b in on.writes && IsHome(l, b) && Held(s, b) > 0
    ensures Leads(l, s0, s', Apply(a, Logged(b, v)), on)
    ensures s' == s.(dirty := s.dirty[b := v], lh := s.lh + [b], pins := s.pins[b := Pin(s, b) + 1],
                     procs := s.procs[p := InOp(s.procs[p].unused - 1, false)])
  {
    s' := s.(dirty := s.dirty[b := v], lh := s.lh + [b], pins := s.pins[b := Pin(s, b) + 1],
             procs := s.procs[p := InOp(s.procs[p].unused - 1, false)]);
    assert Write(l, s, p, b, v, s');
    LeadsNext(l, s0, s, a, on, Logged(b, v), s');
  }

  /** All three operations end; the last one commits. */
  lemma EndAll(l: Layout, s0: State, s: State, a: Store, on: Use) returns (s': State, a': Store)
    requires Leads(l, s0, s, a, on) && s.mode.Running? && !s.committing && s.outstanding == 3 && |s.procs| >= 3
             && s.lh != []
    requires Open(s, 0) && Open(s, 1) && Open(s, 2)
    ensures Leads(l, s0, s', a', on) && a'.durable == a.durable
    ensures s'.mode.Running? && |s'.procs| >= 3 && s'.procs[2] == Copying(0)
    ensures s' == s.(outstanding := 0, committing := true, procs := s'.procs) && |s'.procs| == |s.procs|
  {
    var s1 := s.(outstanding := 2, procs := s.procs[0 := Out]);
    var s2 := s1.(outstanding := 1, procs := s1.procs[1 := Out]);
    s' := s2.(outstanding := 0, committing := true, procs := s2.procs[2 := Copying(0)]);
    assert End(l, s, 0, s1) && End(l, s1, 1, s2) && End(l, s2, 2, s');
    LeadsNext(l, s0, s, a, on, EndOp, s1);
    LeadsNext(l, s0, s1, Apply(a, EndOp), on, EndOp, s2);
    LeadsNext(l, s0, s2, Apply(Apply(a, EndOp), EndOp), on, EndOp, s');
    a' := Apply(Apply(Apply(a, EndOp), EndOp), EndOp);
  }

  /** write_log has copied k blocks, all of which hold v. */
  lemma {:induction false} CopyTo(l: Layout, s0: State, s: State, a: Store, on: Use, v: Block, k: nat)
      returns (s': State)
    requires Leads(l, s0, s, a, on) && s.mode.Running? && |s.procs| >= 3 && s.procs[2] == Copying(0)
    requires k <= |s.lh| && l.start + |s.lh| < |s.disk|
    requires forall b | b in s.lh :: 0 <= b < |s.disk| && b in s.dirty && s.dirty[b] == v
    ensures Leads(l, s0, s', a, on) && s' == s.(disk := s'.disk, procs := s.procs[2 := Copying(k)])
    ensures |s'.disk| == |s.disk| && s'.disk[l.start] == s.disk[l.start] && (k > 0 ==> s'.disk[l.start + k] == v)
  {
    if k == 0 {
      s' := s;
    } else {
      var r := CopyTo(l, s0, s, a, on, v, k - 1);
      assert s.lh[k - 1] in s.lh;
      s' := CopyStep(l, s0, r, a, on, 2);
    }
  }

  /** The log's last copy then goes to the block after the log, which is a home block. */
  lemma HomeOverwritten(l: Layout, s0: State, hs: seq<int>, on: Use) returns (s: State, a: Store)
    requires Idle(l, s0) && Uses(on, hs) && |s0.procs| >= 3 && HomeList(l, hs) && 2 <= l.size <= LOGSIZE
    requires l.size <= |hs| && l.start + l.size < l.nblocks
    ensures Leads(l, s0, s, a, on) && a.durable == s0.disk && IsHome(l, l.start + l.size)
    ensures |s.lh| == l.size && HeaderOk(l, s.disk) && |s0.disk| == l.nblocks
            && Recovered(l, s.disk)[l.start + l.size] != s0.disk[l.start + l.size]
  {
    IdleIs(l, s0);
    var v := Other(s0.disk[l.start + l.size]);
    var r, c := Overfill(l, s0, hs, v, on);
    forall b | b in r.lh ensures IsHome(l, b) { assert b in hs; }
    var q, d := EndAll(l, s0, r, c, on);
    s := CopyTo(l, s0, q, d, on, v, l.size);
    a := d;
    RecoveredIs(l, s.disk);
    assert IsHome(l, l.start + l.size);
  }

  lemma {:induction false} SomeOf(ws: set<int>, n: nat) returns (hs: seq<int>)
    requires n <= |ws|
    ensures |hs| == n && Distinct(hs) && forall i {:trigger hs[i]} | 0 <= i < n :: hs[i] in ws
  {
    if b :| b in ws && n > 0 {
      var rest := SomeOf(ws - {b}, n - 1);
      hs := rest + [b];
    } else {
      if n > 0 {
        assert forall b :: b !in ws;
        assert false;
      }
      hs := [];
    }
  }

  // ---- when a boot is safe ----

  /** Wherever a boot that uses the blocks `on` stops, it leaves a disk from which recovery restores exactly
      the committed writes, if and only if it can log nothing, or reads in none of the blocks that its own recovery
      installed and writes too few blocks to overfill the log. */
  lemma BootSafeIff(l: Layout, s0: State, on: Use)
    requires Idle(l, s0) && |s0.procs| >= 3 && Sensible(l, on) && l.start + l.size < l.nblocks
    ensures (forall s, a | Leads(l, s0, s, a, on) :: Durable(l, s, a)) <==>
              Idles(l, on) || (on.touch !! Short(s0) && !Fillable(l, on))
  {
    if c :| c in on.writes && l.size > 1 {
      if Fillable(l, on) {
        OverfillUnsafe(l, s0, on);
      } else {
        SmallBootIff(l, s0, on, c);
      }
    } else {
      if l.size > 1 {
        assert forall c :: c !in on.writes;
        assert on.writes == {};
      }
      forall s, a | Leads(l, s0, s, a, on) ensures Durable(l, s, a) { ReadOnlySafe(l, s0, s, a, on); }
    }
  }

  lemma SmallBootIff(l: Layout, s0: State, on: Use, c: int)
    requires Idle(l, s0) && |s0.procs| > 0 && Sensible(l, on) && c in on.writes && l.size > 1 && !Fillable(l, on)
    ensures (forall s, a | Leads(l, s0, s, a, on) :: Durable(l, s, a)) <==> on.touch !! Short(s0)
  {
    if b :| b in on.touch && b in s0.debt {
      Unsafe(l, s0, b, c, on);
    } else {
      assert on.touch !! Short(s0) by { assert forall b | b in on.touch :: b !in s0.debt; }
      forall s, a | Leads(l, s0, s, a, on) ensures Durable(l, s, a) { SafeBoot(l, s0, s, a, on); }
    }
  }

  lemma Unsafe(l: Layout, s0: State, b: int, c: int, on: Use)
    requires l.size > 1 && Idle(l, s0) && |s0.procs| > 0 && Sensible(l, on)
    requires b in on.touch && b in s0.debt && c in on.writes
    ensures exists s, a :: Leads(l, s0, s, a, on) && !Durable(l, s, a)
  {
    IdleIs(l, s0);
    var s, a;
    if c in s0.debt {
      s, a := LostUpdate(l, s0, c, Other(s0.disk[c]), on);
    } else {
      s, a := LostByReading(l, s0, b, c, Other(s0.disk[c]), on);
    }
    assert IsHome(l, c) && !Durable(l, s, a);
  }

  lemma OverfillUnsafe(l: Layout, s0: State, on: Use)
    requires Idle(l, s0) && |s0.procs| >= 3 && Sensible(l, on) && Fillable(l, on) && l.start + l.size < l.nblocks
    ensures exists s, a :: Leads(l, s0, s, a, on) && !Durable(l, s, a)
  {
    var hs := SomeOf(on.writes, l.size);
    var s, a := HomeOverwritten(l, s0, hs, on);
    assert !Durable(l, s, a);
  }

  /** Every run of one boot leaves, wherever it stops, a disk from which recovery restores exactly the committed
      writes, if and only if the log has more than LOGSIZE blocks, or takes no writes at all. */
  lemma SizeSafeIff(l: Layout, s0: State, hs: seq<int>)
    requires Init(l, s0) && |s0.procs| >= 3 && Enough(l, hs) && l.start + l.size < l.nblocks
    ensures (forall s, a | Leads(l, s0, s, a, Homes(l)) :: Durable(l, s, a)) <==> Sized(l)
  {
    InitIdle(l, s0);
    if Sized(l) {
      forall s, a | Leads(l, s0, s, a, Homes(l)) ensures Durable(l, s, a) { SafeBoot(l, s0, s, a, Homes(l)); }
    } else {
      var s, a := HomeOverwritten(l, s0, hs, Homes(l));
      assert !Durable(l, s, a);
    }
  }

  // ---- what recovery may leave short ----

  /** Three operations log the first n of hs, as many as can be logged at all. */
  lemma FillUp(l: Layout, s0: State, hs: seq<int>, n: nat, v: Block, on: Use) returns (s: State, a: Store)
    requires Idle(l, s0) && Uses(on, hs) && |s0.procs| >= 3 && HomeList(l, hs) && n <= |hs| && n <= Cap(l)
    ensures Leads(l, s0, s, a, on) && a.durable == s0.disk && Filled(s0, s, hs, n, v)
  {
    if n < l.size {
      s, a := FillTo(l, s0, hs, n, v, on);
    } else if n == l.size {
      s, a := Overfill(l, s0, hs, v, on);
    } else {
      s, a := OverfillMore(l, s0, hs, v, on);
    }
  }

  /** Some run has n blocks logged at a time if and only if that is within Cap. */
  lemma LoggedIff(l: Layout, s0: State, hs: seq<int>, n: nat)
    requires Init(l, s0) && |s0.procs| >= 3 && HomeList(l, hs) && n <= |hs|
    ensures (exists s :: Reachable(l, s0, s) && |s.lh| == n) <==> n <= Cap(l)
  {
    if n <= Cap(l) {
      InitIdle(l, s0);
      ReachSelf(l, s0);
      var s, a := FillUp(l, s0, hs, n, [], Homes(l));
      LeadsReach(l, s0, s0, s, a, Homes(l));
      assert |s.lh| == n;
    }
    forall s | Reachable(l, s0, s) ensures |s.lh| <= Cap(l) { ReachLedger(l, s0, s); }
  }

  /** The first n of hs are committed, up to the commit point. */
  lemma CommitMany(l: Layout, s0: State, hs: seq<int>, n: nat, on: Use) returns (s: State, a: Store)
    requires Idle(l, s0) && Uses(on, hs) && |s0.procs| >= 3 && HomeList(l, hs) && 0 < n <= |hs| && n <= Cap(l)
             && l.start + n < l.nblocks
    ensures Leads(l, s0, s, a, on) && Fits(l, s.disk) && Header(s.disk[l.start]) == hs[..n] && |s.procs| == |s0.procs|
  {
    IdleIs(l, s0);
    var r, c := FillUp(l, s0, hs, n, [], on);
    forall b | b in r.lh ensures IsHome(l, b) { assert b in hs; }
    var q, d := EndAll(l, s0, r, c, on);
    var q' := CopyTo(l, s0, q, d, on, [], n);
    s := q'.(disk := WithHeader(l, q'.disk, q'.lh), procs := q'.procs[2 := Installing(0)]);
    assert WriteHead(l, q', 2, s);
    LeadsNext(l, s0, q', d, on, Sync, s);
    a := Apply(d, Sync);
  }

  /** A crash just after a commit point and a completed recovery leave an idle machine in which the buffers of any
      chosen blocks, as many as can be logged at all, are one short. */
  lemma ShortIsReachable(l: Layout, s0: State, hs: seq<int>, n: nat) returns (s: State)
    requires Init(l, s0) && |s0.procs| >= 3 && HomeList(l, hs) && 0 < n <= |hs| && n <= Cap(l)
             && l.start + n < l.nblocks
    ensures Reachable(l, s0, s) && Idle(l, s) && DebtIs(s.debt, hs, n) && |s.procs| == |s0.procs|
  {
    var r := CrashedAfter(l, s0, hs, n);
    s := RecoverAll(l, s0, r);
    assert hs[..n][..n] == hs[..n];
  }

  lemma CrashedAfter(l: Layout, s0: State, hs: seq<int>, n: nat) returns (s: State)
    requires Init(l, s0) && |s0.procs| >= 3 && HomeList(l, hs) && 0 < n <= |hs| && n <= Cap(l)
             && l.start + n < l.nblocks
    ensures Reachable(l, s0, s) && s.mode == Recovering(0) && s.lh == hs[..n] && |s.procs| == |s0.procs|
  {
    InitIdle(l, s0);
    ReachSelf(l, s0);
    var r, a := CommitMany(l, s0, hs, n, Homes(l));
    LeadsReach(l, s0, s0, r, a, Homes(l));
    s := State(r.disk, map[], map[], multiset{}, map[], hs[..n], 0, false, seq(|r.procs|, _ => Out), Recovering(0));
    assert Crash(l, r, s);
    ReachNext(l, s0, r, Crashed, s);
  }
}
