/** CPUs, their scheduler loops and the kernel threads they run, with spinlock nesting and the hand-over of p->lock
    across swtch, for any number of CPUs and processes and every interleaving.

    Locks 0..N-1 are the p->lock of the N processes, the rest are any other spinlocks. A step is one action of one
    CPU. `held`, `on` and `want` only record what has happened: the locks a CPU has taken, the CPU a process was given,
    and the interrupt setting a thread last ran with while it held no lock.
 */
module Scheduler {

  const NONE: int := -1

  datatype ProcState = Unused | Sleeping | Runnable | Running | Zombie

  /** What a CPU is doing. */
  datatype Cpc =
    | Loop(i: int)      // scheduler, about to lock proc[i], or past the last one
    | Try(i: int)       // scheduler, has locked proc[i]
    | Resumed(i: int)   // in proc[i], just after swtch
    | Kernel(i: int)    // in proc[i]
    | Leaving(i: int)   // in proc[i], p->state already changed, on the way to sched
    | Back(i: int)      // scheduler again, just after swtch from proc[i]

  datatype State = State(
    st: seq<ProcState>, saved: seq<bool>, newborn: seq<bool>, on: seq<int>, want: seq<bool>,  // per process
    lock: seq<int>,                                                                         // holder of each lock
    cpc: seq<Cpc>, cur: seq<int>, noff: seq<int>, intena: seq<bool>, intr: seq<bool>, held: seq<set<int>>)  // per CPU

  predicate Shape(s: State) {
    && |s.st| == |s.saved| == |s.newborn| == |s.on| == |s.want| <= |s.lock|
    && |s.cpc| == |s.cur| == |s.noff| == |s.intena| == |s.intr| == |s.held|
  }

  predicate Cpu(s: State, c: int) { 0 <= c < |s.cpc| }
  predicate Proc(s: State, p: int) { 0 <= p < |s.st| }
  predicate Lock(s: State, l: int) { 0 <= l < |s.lock| }

  /** acquire, once the lock is free: push_off, then take it. Nesting depth and number of locks stay equal. */
  function Acquired(s: State, c: int, l: int): (r: State)
    requires Shape(s) && Cpu(s, c) && Lock(s, l)
    ensures Shape(r) && Cpu(r, c)
    ensures l !in s.held[c] && s.noff[c] == |s.held[c]| ==> r.noff[c] == |r.held[c]|
  {
    s.(lock := s.lock[l := c], held := s.held[c := s.held[c] + {l}], noff := s.noff[c := s.noff[c] + 1],
       intena := if s.noff[c] == 0 then s.intena[c := s.intr[c]] else s.intena, intr := s.intr[c := false])
  }

  /** release: let it go, then pop_off; interrupts come back only with the last lock. */
  function Released(s: State, c: int, l: int): (r: State)
    requires Shape(s) && Cpu(s, c) && Lock(s, l)
    ensures Shape(r) && Cpu(r, c)
    ensures l in s.held[c] && s.noff[c] == |s.held[c]| ==> r.noff[c] == |r.held[c]|
    ensures r.noff[c] > 0 && !s.intr[c] ==> !r.intr[c]
  {
    s.(lock := s.lock[l := NONE], held := s.held[c := s.held[c] - {l}], noff := s.noff[c := s.noff[c] - 1],
       intr := if s.noff[c] == 1 && s.intena[c] then s.intr[c := true] else s.intr)
  }

  /** sched would call panic. */
  predicate SchedPanics(s: State, c: int, p: int)
    requires Shape(s) && Cpu(s, c) && Proc(s, p)
  {
    s.lock[p] != c || s.noff[c] != 1 || s.st[p] == Running || s.intr[c]
  }

  /** The scheduler loop on CPU c. */
  predicate LoopStep(s: State, c: int, s': State)
    requires Shape(s) && Cpu(s, c)
  {
    match s.cpc[c]
    case Loop(i) =>
      if !Proc(s, i) then s' == s.(cpc := s.cpc[c := Loop(0)], intr := s.intr[c := true])
      else s.lock[i] == NONE && var r := Acquired(s, c, i); s' == r.(cpc := r.cpc[c := Try(i)])
    case Try(i) =>
      Proc(s, i) &&
      if s.st[i] == Runnable
      then s' == s.(cpc := s.cpc[c := Resumed(i)], st := s.st[i := Running], cur := s.cur[c := i], on := s.on[i := c])
      else var r := Released(s, c, i); s' == r.(cpc := r.cpc[c := Loop(i + 1)])
    case Back(i) =>
      Proc(s, i) &&
      var r := Released(s, c, i);
      s' == r.(cpc := r.cpc[c := Loop(i + 1)], cur := r.cur[c := NONE], on := r.on[i := NONE])
    case _ => false
  }

  /** swtch, on the process side: the end of sched in proc[p], or forkret the first time; and sched up to swtch. */
  predicate SwitchStep(s: State, c: int, s': State)
    requires Shape(s) && Cpu(s, c)
  {
    match s.cpc[c]
    case Resumed(p) =>
      Proc(s, p) &&
      if s.newborn[p]
      then s' == s.(cpc := s.cpc[c := Kernel(p)], newborn := s.newborn[p := false], want := s.want[p := s.intena[c]])
      else s' == s.(cpc := s.cpc[c := Kernel(p)], intena := s.intena[c := s.saved[p]])
    case Leaving(p) =>
      Proc(s, p) && !SchedPanics(s, c, p) && s' == s.(cpc := s.cpc[c := Back(p)], saved := s.saved[p := s.intena[c]])
    case _ => false
  }

  /** Kernel code of the process on CPU c taking or dropping a lock, or changing the interrupt enable with none held. */
  predicate LockStep(s: State, c: int, l: int, b: bool, s': State)
    requires Shape(s) && Cpu(s, c)
  {
    && (s.cpc[c].Kernel? || s.cpc[c].Leaving?) && Proc(s, s.cpc[c].i)
    && (|| (Lock(s, l) && s.lock[l] == NONE && s.cpc[c].Kernel? && s' == Acquired(s, c, l))
        || (Lock(s, l) && l in s.held[c] && (s.cpc[c].Kernel? || l != s.cpc[c].i) && s' == Released(s, c, l))
        || (s.cpc[c].Kernel? && s.held[c] == {} && s' == s.(intr := s.intr[c := b], want := s.want[s.cpc[c].i := b])))
  }

  /** Kernel code changing a process state under that process's lock: another's, or its own before it gives
      up the CPU. */
  predicate StateStep(s: State, c: int, q: int, x: ProcState, s': State)
    requires Shape(s) && Cpu(s, c)
  {
    && s.cpc[c].Kernel? && Proc(s, q) && q in s.held[c]
    && if q == s.cpc[c].i then
         x != Running && x != Unused && s' == s.(cpc := s.cpc[c := Leaving(q)], st := s.st[q := x])
       else
         // wakeup and kill; allocproc and fork; freeproc in wait
         || (s.st[q] == Sleeping && x == Runnable && s' == s.(st := s.st[q := x]))
         || (s.st[q] == Unused && x == Runnable && s' == s.(st := s.st[q := x], newborn := s.newborn[q := true]))
         || (s.st[q] == Zombie && x == Unused && s' == s.(st := s.st[q := x]))
  }

  ghost predicate Step(s: State, c: int, l: int, b: bool, x: ProcState, s': State)
    requires Shape(s) && Cpu(s, c)
  {
    LoopStep(s, c, s') || SwitchStep(s, c, s') || LockStep(s, c, l, b, s') || StateStep(s, c, l, x, s')
  }

  ghost predicate Next(s: State, s': State) {
    Shape(s) && Shape(s') && |s'.cpc| == |s.cpc| && |s'.st| == |s.st| && |s'.lock| == |s.lock| &&  // fixed tables
    exists c, l: int, b: bool, x: ProcState | Cpu(s, c) :: Step(s, c, l, b, x, s')
  }

  /** All CPUs in their schedulers, no lock held; no process has run. */
  ghost predicate Init(s: State) {
    && Shape(s)
    && (forall p | 0 <= p < |s.st| :: (s.st[p] == Unused || s.st[p] == Runnable) && s.on[p] == NONE && s.newborn[p])
    && (forall l | 0 <= l < |s.lock| :: s.lock[l] == NONE)
    && (forall c | 0 <= c < |s.cpc| :: s.cpc[c] == Loop(0) && s.cur[c] == NONE && s.noff[c] == 0 && s.held[c] == {})
  }

  // ---- invariant ----

  /** The locks a CPU must hold at cpc; in kernel code it may hold any, on the way out at least its own p->lock. */
  predicate HeldOk(pc: Cpc, held: set<int>) {
    match pc
    case Loop(_) => held == {}
    case Try(i) => held == {i}
    case Resumed(i) => held == {i}
    case Kernel(_) => true
    case Leaving(i) => i in held
    case Back(i) => held == {i}
  }

  predicate InProc(pc: Cpc) { !pc.Loop? && !pc.Try? }

  /** Every lock a CPU holds, and only those, has switched its interrupts off. */
  ghost predicate HeldAt(s: State, c: int)
    requires Shape(s) && Cpu(s, c)
  {
    && HeldOk(s.cpc[c], s.held[c])
    && s.noff[c] == |s.held[c]|
    && (s.noff[c] > 0 ==> !s.intr[c])
  }

  /** c->proc is the process the CPU is in. */
  ghost predicate CpuAt(s: State, c: int)
    requires Shape(s) && Cpu(s, c)
  {
    && (if InProc(s.cpc[c]) then s.cur[c] == s.cpc[c].i && Proc(s, s.cur[c]) && s.on[s.cur[c]] == c
       else s.cur[c] == NONE)
    && (s.cpc[c].Try? ==> Proc(s, s.cpc[c].i))
  }

  /** The state of a process fits what its CPU is doing. */
  ghost predicate ProcAt(s: State, p: int)
    requires Shape(s) && Proc(s, p)
  {
    && (s.on[p] != NONE ==> Cpu(s, s.on[p]) && InProc(s.cpc[s.on[p]]) && s.cpc[s.on[p]].i == p)
    && (s.st[p] == Running <==> s.on[p] != NONE && (s.cpc[s.on[p]].Resumed? || s.cpc[s.on[p]].Kernel?))
    && (s.on[p] != NONE && !s.cpc[s.on[p]].Resumed? ==> !s.newborn[p])
  }

  ghost predicate LockAt(s: State, c: int, l: int)
    requires Shape(s) && Cpu(s, c) && Lock(s, l)
  {
    s.lock[l] == c <==> l in s.held[c]
  }

  ghost predicate RangeAt(s: State, c: int, l: int)
    requires Shape(s) && Cpu(s, c)
  {
    l in s.held[c] ==> Lock(s, l)
  }

  /** A thread's interrupt setting is in its CPU while it runs, and on its stack while it does not. */
  ghost predicate IntrAt(s: State, p: int)
    requires Shape(s) && Proc(s, p)
  {
    if s.on[p] != NONE && Cpu(s, s.on[p]) && !s.cpc[s.on[p]].Resumed? && !s.cpc[s.on[p]].Back? then
      s.want[p] == if s.noff[s.on[p]] == 0 then s.intr[s.on[p]] else s.intena[s.on[p]]
    else
      !s.newborn[p] ==> s.saved[p] == s.want[p]
  }

  ghost predicate Inv(s: State) {
    && Shape(s)
    && (forall c {:trigger HeldAt(s, c)} | 0 <= c < |s.cpc| :: HeldAt(s, c))
    && (forall c {:trigger CpuAt(s, c)} | 0 <= c < |s.cpc| :: CpuAt(s, c))
    && (forall p {:trigger ProcAt(s, p)} | 0 <= p < |s.st| :: ProcAt(s, p))
    && (forall p {:trigger IntrAt(s, p)} | 0 <= p < |s.st| :: IntrAt(s, p))
    && (forall c, l {:trigger LockAt(s, c, l)} | 0 <= c < |s.cpc| && 0 <= l < |s.lock| :: LockAt(s, c, l))
    && (forall c, l {:trigger RangeAt(s, c, l)} | 0 <= c < |s.cpc| :: RangeAt(s, c, l))
  }

  lemma InitInv(s: State)
    requires Init(s)
    ensures Inv(s)
  {
  }

  ghost predicate Before(s: State, c: int, s': State) {
    Inv(s) && Cpu(s, c) && Shape(s') && |s'.cpc| == |s.cpc| && |s'.st| == |s.st| && |s'.lock| == |s.lock|
  }

  /** Whoever holds proc[q].lock, q is on no other CPU unless it is running there. */
  lemma Excludes(s: State, c: int, q: int)
    requires Inv(s) && Cpu(s, c) && Proc(s, q) && q in s.held[c] && s.st[q] != Running
    ensures s.on[q] == NONE || s.on[q] == c
  {
    assert ProcAt(s, q) && LockAt(s, c, q);
    if s.on[q] != NONE { assert HeldAt(s, s.on[q]) && LockAt(s, s.on[q], q); }
  }

  /** The process that CPU c works on, at the step it is about to take. */
  lemma Hints(s: State, c: int, l: int)
    requires Inv(s) && Cpu(s, c)
    ensures CpuAt(s, c) && HeldAt(s, c)
    ensures s.cpc[c].Try? && s.st[s.cpc[c].i] == Runnable ==> s.on[s.cpc[c].i] == NONE
    ensures Proc(s, l) && l in s.held[c] && s.cpc[c].Kernel? && l != s.cpc[c].i && s.st[l] != Running ==>
              s.on[l] == NONE
  {
    assert CpuAt(s, c) && HeldAt(s, c);
    if s.cpc[c].Try? {
      var i := s.cpc[c].i;
      assert ProcAt(s, i);
      if s.st[i] == Runnable { Excludes(s, c, i); }
    }
    if Proc(s, l) && l in s.held[c] && s.st[l] != Running {
      assert ProcAt(s, l);
      Excludes(s, c, l);
    }
  }

  lemma KeepsCpu(s: State, c: int, l: int, b: bool, x: ProcState, s': State, d: int)
    requires Before(s, c, s') && Step(s, c, l, b, x, s') && Cpu(s, d)
    ensures CpuAt(s', d)
  {
    Hints(s, c, l);
    assert CpuAt(s, d);
    if InProc(s.cpc[d]) { assert ProcAt(s, s.cpc[d].i); }
  }

  lemma LoopStepHeld(s: State, c: int, s': State, d: int)
    requires Before(s, c, s') && LoopStep(s, c, s') && Cpu(s, d)
    ensures HeldAt(s', d)
  {
    assert HeldAt(s, c) && HeldAt(s, d) && CpuAt(s, c);
    if s.cpc[c].Loop? && Proc(s, s.cpc[c].i) { assert LockAt(s, c, s.cpc[c].i); }
  }

  lemma OnlyOne(h: set<int>, l: int)
    requires l in h
    ensures |h| == 1 <==> h == {l}
  {
    assert h == h - {l} + {l};
  }

  lemma SwitchStepHeld(s: State, c: int, s': State, d: int)
    requires Before(s, c, s') && SwitchStep(s, c, s') && Cpu(s, d)
    ensures HeldAt(s', d)
  {
    assert HeldAt(s, c) && HeldAt(s, d);
    if s.cpc[c].Leaving? { OnlyOne(s.held[c], s.cpc[c].i); }
  }

  lemma KeepsHeld(s: State, c: int, l: int, b: bool, x: ProcState, s': State, d: int)
    requires Before(s, c, s') && Step(s, c, l, b, x, s') && Cpu(s, d)
    ensures HeldAt(s', d)
  {
    if LoopStep(s, c, s') {
      LoopStepHeld(s, c, s', d);
    } else if SwitchStep(s, c, s') {
      SwitchStepHeld(s, c, s', d);
    } else {
      assert HeldAt(s, c) && HeldAt(s, d);
      if Lock(s, l) { assert LockAt(s, c, l); }
    }
  }

  lemma KeepsProc(s: State, c: int, l: int, b: bool, x: ProcState, s': State, p: int)
    requires Before(s, c, s') && Step(s, c, l, b, x, s') && Proc(s, p)
    ensures ProcAt(s', p)
  {
    Hints(s, c, l);
    assert ProcAt(s, p);
  }

  lemma KeepsLock(s: State, c: int, l: int, b: bool, x: ProcState, s': State, d: int, m: int)
    requires Before(s, c, s') && Step(s, c, l, b, x, s') && Cpu(s, d)
    requires Lock(s, m)
    ensures LockAt(s', d, m)
  {
    assert HeldAt(s, c) && LockAt(s, d, m) && LockAt(s, c, m);
  }

  lemma KeepsRange(s: State, c: int, l: int, b: bool, x: ProcState, s': State, d: int, m: int)
    requires Before(s, c, s') && Step(s, c, l, b, x, s') && Cpu(s, d)
    ensures RangeAt(s', d, m)
  {
    assert RangeAt(s, d, m);
  }

  lemma KeepsIntr(s: State, c: int, l: int, b: bool, x: ProcState, s': State, p: int)
    requires Before(s, c, s') && Step(s, c, l, b, x, s') && Proc(s, p)
    ensures IntrAt(s', p)
  {
    if LockStep(s, c, l, b, s') {
      LockStepIntr(s, c, l, b, s', p);
    } else if LoopStep(s, c, s') {
      LoopStepIntr(s, c, s', p);
    } else {
      Hints(s, c, l);
      assert ProcAt(s, p) && IntrAt(s, p);
    }
  }

  lemma LoopStepIntr(s: State, c: int, s': State, p: int)
    requires Before(s, c, s') && LoopStep(s, c, s') && Proc(s, p)
    ensures IntrAt(s', p)
  {
    Hints(s, c, NONE);
    assert ProcAt(s, p) && IntrAt(s, p);
  }

  lemma LockStepIntr(s: State, c: int, l: int, b: bool, s': State, p: int)
    requires Before(s, c, s') && LockStep(s, c, l, b, s') && Proc(s, p)
    ensures IntrAt(s', p)
  {
    assert CpuAt(s, c) && HeldAt(s, c) && ProcAt(s, p) && IntrAt(s, p);
    if Lock(s, l) && l in s.held[c] { assert s.held[c] != {}; }
  }

  lemma StepInv(s: State, c: int, l: int, b: bool, x: ProcState, s': State)
    requires Before(s, c, s') && Step(s, c, l, b, x, s')
    ensures Inv(s')
  {
    forall d | 0 <= d < |s'.cpc| ensures HeldAt(s', d) { KeepsHeld(s, c, l, b, x, s', d); }
    forall d | 0 <= d < |s'.cpc| ensures CpuAt(s', d) { KeepsCpu(s, c, l, b, x, s', d); }
    forall p | 0 <= p < |s'.st| ensures ProcAt(s', p) { KeepsProc(s, c, l, b, x, s', p); }
    forall p | 0 <= p < |s'.st| ensures IntrAt(s', p) { KeepsIntr(s, c, l, b, x, s', p); }
    forall d, m | 0 <= d < |s'.cpc| && 0 <= m < |s'.lock|
      ensures LockAt(s', d, m)
    {
      KeepsLock(s, c, l, b, x, s', d, m);
    }
    forall d, m | 0 <= d < |s'.cpc| ensures RangeAt(s', d, m) { KeepsRange(s, c, l, b, x, s', d, m); }
  }

  ghost predicate Run(ss: seq<State>) {
    ss != [] && Init(ss[0]) && forall i | 0 <= i < |ss| - 1 :: StepAt(ss, i)
  }

  ghost predicate StepAt(ss: seq<State>, i: nat)
    requires i < |ss| - 1
  {
    Next(ss[i], ss[i + 1])
  }

  lemma {:induction false} RunInv(ss: seq<State>, n: nat)
    requires Run(ss) && n < |ss|
    ensures Inv(ss[n])
  {
    if n == 0 {
      InitInv(ss[0]);
    } else {
      RunInv(ss, n - 1);
      var s, s' := ss[n - 1], ss[n];
      assert StepAt(ss, n - 1);
      var c, l: int, b: bool, x: ProcState :| Cpu(s, c) && Step(s, c, l, b, x, s');
      StepInv(s, c, l, b, x, s');
    }
  }

  // ---- what the kernel relies on ----

  /** While p->lock is free, p is RUNNING exactly if some CPU has c->proc == p; and at any time at most one has. */
  lemma RunningIffOnOneCpu(ss: seq<State>, n: nat, p: int)
    requires Run(ss) && n < |ss| && Shape(ss[n]) && Proc(ss[n], p)
    ensures ss[n].lock[p] == NONE ==> (ss[n].st[p] == Running <==> exists c :: Cpu(ss[n], c) && ss[n].cur[c] == p)
    ensures forall c, d | Cpu(ss[n], c) && Cpu(ss[n], d) && ss[n].cur[c] == p && ss[n].cur[d] == p :: c == d
  {
    RunInv(ss, n);
    var s := ss[n];
    assert ProcAt(s, p);
    if s.st[p] == Running { assert CpuAt(s, s.on[p]); }
    forall c | Cpu(s, c) && s.cur[c] == p ensures s.on[p] == c && (s.lock[p] == NONE ==> s.st[p] == Running) {
      assert CpuAt(s, c) && HeldAt(s, c) && LockAt(s, c, p);
    }
  }

  /** sched's checks fail exactly for a caller that holds a spinlock besides its own p->lock. */
  lemma SchedPanicsIff(ss: seq<State>, n: nat, c: int)
    requires Run(ss) && n < |ss| && Shape(ss[n]) && Cpu(ss[n], c) && ss[n].cpc[c].Leaving?
             && Proc(ss[n], ss[n].cpc[c].i)
    ensures SchedPanics(ss[n], c, ss[n].cpc[c].i) <==> ss[n].held[c] != {ss[n].cpc[c].i}
  {
    RunInv(ss, n);
    var s := ss[n];
    var p := s.cpc[c].i;
    assert CpuAt(s, c) && HeldAt(s, c) && ProcAt(s, p) && LockAt(s, c, p);
    OnlyOne(s.held[c], p);
  }

  /** Hand-over: a CPU coming out of swtch, on either side, holds the p->lock of the process switched to or from and
      no other lock; back in its loop it holds none. So each p->lock taken before swtch is released once after it. */
  lemma LockCrossesSwitch(ss: seq<State>, n: nat, c: int)
    requires Run(ss) && n < |ss| && Shape(ss[n]) && Cpu(ss[n], c)
    ensures ss[n].cpc[c].Resumed? || ss[n].cpc[c].Back? ==>
              forall l | Lock(ss[n], l) :: ss[n].lock[l] == c <==> l == ss[n].cpc[c].i
    ensures ss[n].cpc[c].Loop? ==> ss[n].noff[c] == 0 && forall l | Lock(ss[n], l) :: ss[n].lock[l] != c
  {
    RunInv(ss, n);
    var s := ss[n];
    assert CpuAt(s, c) && HeldAt(s, c);
    forall l | Lock(s, l) ensures s.lock[l] == c <==> l in s.held[c] { assert LockAt(s, c, l); }
  }

  /** The interrupt setting belongs to the thread: whenever a process runs kernel code with no lock held, interrupts
      are as they last were when it held none, whatever CPUs it has been on in between. */
  lemma InterruptsFollowThread(ss: seq<State>, n: nat, c: int)
    requires Run(ss) && n < |ss| && Shape(ss[n]) && Cpu(ss[n], c) && ss[n].cpc[c].Kernel? && Proc(ss[n], ss[n].cpc[c].i)
    ensures ss[n].held[c] == {} ==> ss[n].intr[c] == ss[n].want[ss[n].cpc[c].i]
    ensures ss[n].held[c] != {} ==> !ss[n].intr[c] && ss[n].intena[c] == ss[n].want[ss[n].cpc[c].i]
  {
    RunInv(ss, n);
    var s := ss[n];
    assert CpuAt(s, c) && HeldAt(s, c) && IntrAt(s, s.cpc[c].i);
    assert s.held[c] != {} ==> |s.held[c]| > 0;
  }
}
