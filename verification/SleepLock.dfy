/** Sleep locks over sleep and wakeup, for any number of processes and locks and every interleaving.

    One step is one action of one process between two lock operations: an acquire or a release of a spinlock
    (the sleep lock's inner lock or a p->lock), or a change made under one. A process that calls sched gives its
    p->lock to the scheduler, which releases it; the scheduler takes it again before running the process.
 */
module SleepLock {
  import opened Basics

  datatype RunState = Running | Sleeping | Runnable

  /** Where a process is; the argument is the sleep lock it is working on. */
  datatype Pc =
    | Idle
    | AWant(l: nat)            // acquiresleep: at acquire(&lk->lk)
    | ATest(l: nat)            // holds lk->lk, at while (lk->locked)
    | ARelease(l: nat)         // holds lk->lk, has set lk->locked
    | SWant(l: nat)            // sleep: holds lk->lk, at acquire(&p->lock)
    | SRelease(l: nat)         // holds both, at release(lk)
    | SMark(l: nat)            // holds p->lock, about to set chan and state
    | SSched(l: nat)           // holds p->lock, state set, at swtch
    | SOff(l: nat)             // switched out
    | SBack(l: nat)            // switched in, holds p->lock, about to clear chan
    | RWant(l: nat)            // releasesleep: at acquire(&lk->lk)
    | RClear(l: nat)           // holds lk->lk, about to clear lk->locked
    | Wake(l: nat, i: nat)     // wakeup: holds lk->lk, at acquire(&proc[i].lock), or past the last one
    | WakeHold(l: nat, i: nat) // wakeup: holds lk->lk and proc[i].lock

  /** Per process: pc, p->state, p->chan, who holds p->lock, and the sleep locks it holds.
      Per sleep lock: who holds lk->lk, lk->locked and lk->pid. */
  datatype State = State(
    pc: seq<Pc>, run: seq<RunState>, chan: seq<Option<nat>>, plock: seq<Option<nat>>, held: seq<set<nat>>,
    inner: seq<Option<nat>>, locked: seq<bool>, owner: seq<Option<nat>>)

  predicate Shape(s: State) {
    && |s.run| == |s.chan| == |s.plock| == |s.held| == |s.pc|
    && |s.locked| == |s.owner| == |s.inner|
  }

  predicate Proc(s: State, p: int) {
    0 <= p < |s.pc|
  }

  predicate Lock(s: State, l: int) {
    0 <= l < |s.inner|
  }

  /** What process p, at program counter `at`, does next. */
  ghost predicate Step(s: State, p: nat, at: Pc, s': State)
    requires Shape(s) && Proc(s, p)
  {
    match at
    case Idle =>
      || (exists l: nat | Lock(s, l) :: l !in s.held[p] && s' == s.(pc := s.pc[p := AWant(l)]))
      || (exists l: nat | Lock(s, l) :: l in s.held[p] && s' == s.(pc := s.pc[p := RWant(l)]))
    case AWant(l) =>
      Lock(s, l) && s.inner[l] == None && s' == s.(pc := s.pc[p := ATest(l)], inner := s.inner[l := Some(p)])
    case ATest(l) =>
      Lock(s, l) &&
      if s.locked[l] then s' == s.(pc := s.pc[p := SWant(l)])
      else s' == s.(pc := s.pc[p := ARelease(l)], held := s.held[p := s.held[p] + {l}],
                    locked := s.locked[l := true], owner := s.owner[l := Some(p)])
    case ARelease(l) =>
      Lock(s, l) && s' == s.(pc := s.pc[p := Idle], inner := s.inner[l := None])
    case SWant(l) =>
      s.plock[p] == None && s' == s.(pc := s.pc[p := SRelease(l)], plock := s.plock[p := Some(p)])
    case SRelease(l) =>
      Lock(s, l) && s' == s.(pc := s.pc[p := SMark(l)], inner := s.inner[l := None])
    case SMark(l) =>
      s' == s.(pc := s.pc[p := SSched(l)], chan := s.chan[p := Some(l)], run := s.run[p := Sleeping])
    case SSched(l) =>
      s' == s.(pc := s.pc[p := SOff(l)], plock := s.plock[p := None])
    case SOff(l) =>
      s.run[p] == Runnable && s.plock[p] == None &&
      s' == s.(pc := s.pc[p := SBack(l)], plock := s.plock[p := Some(p)], run := s.run[p := Running])
    case SBack(l) =>
      s' == s.(pc := s.pc[p := AWant(l)], chan := s.chan[p := None], plock := s.plock[p := None])
    case RWant(l) =>
      Lock(s, l) && s.inner[l] == None && s' == s.(pc := s.pc[p := RClear(l)], inner := s.inner[l := Some(p)])
    case RClear(l) =>
      Lock(s, l) &&
      s' == s.(pc := s.pc[p := Wake(l, 0)], held := s.held[p := s.held[p] - {l}],
               locked := s.locked[l := false], owner := s.owner[l := None])
    case Wake(l, i) =>
      if Proc(s, i) then
        s.plock[i] == None && s' == s.(pc := s.pc[p := WakeHold(l, i)], plock := s.plock[i := Some(p)])
      else
        Lock(s, l) && s' == s.(pc := s.pc[p := Idle], inner := s.inner[l := None])
    case WakeHold(l, i) =>
      Proc(s, i) &&
      var woken := s.run[i] == Sleeping && s.chan[i] == Some(l);
      s' == s.(pc := s.pc[p := Wake(l, i + 1)], plock := s.plock[i := None],
               run := if woken then s.run[i := Runnable] else s.run)
  }

  /** kill: a sleeping process may be woken whenever its lock is free. */
  predicate Kill(s: State, q: nat, s': State)
    requires Shape(s) && Proc(s, q)
  {
    s.plock[q] == None && s.run[q] == Sleeping && s' == s.(run := s.run[q := Runnable])
  }

  ghost predicate Next(s: State, s': State) {
    Shape(s) &&
    ((exists p: nat | Proc(s, p) :: Step(s, p, s.pc[p], s')) || (exists q: nat | Proc(s, q) :: Kill(s, q, s')))
  }

  ghost predicate Init(s: State) {
    && Shape(s)
    && (forall p | 0 <= p < |s.pc| ::
          s.pc[p] == Idle && s.run[p] == Running && s.chan[p] == None && s.plock[p] == None && s.held[p] == {})
    && (forall l | 0 <= l < |s.inner| :: s.inner[l] == None && !s.locked[l] && s.owner[l] == None)
  }

  // ---- invariant ----

  predicate HoldsInner(pc: Pc, l: int) {
    match pc
    case ATest(m) => m == l
    case ARelease(m) => m == l
    case SWant(m) => m == l
    case SRelease(m) => m == l
    case RClear(m) => m == l
    case Wake(m, _) => m == l
    case WakeHold(m, _) => m == l
    case _ => false
  }

  predicate HoldsProc(pc: Pc, p: int, q: int) {
    (p == q && (pc.SRelease? || pc.SMark? || pc.SSched? || pc.SBack?)) || (pc.WakeHold? && pc.i == q)
  }

  /** Each inner lock is held by exactly the process whose program counter says so. */
  ghost predicate InnerInv(s: State)
    requires Shape(s)
  {
    && (forall p | 0 <= p < |s.pc| && s.pc[p] != Idle :: Lock(s, s.pc[p].l))
    && (forall l | 0 <= l < |s.inner| && s.inner[l].Some? :: Proc(s, s.inner[l].value))
    && (forall p, l {:trigger HoldsInner(s.pc[p], l)} | 0 <= p < |s.pc| && 0 <= l < |s.inner| ::
         s.inner[l] == Some(p) <==> HoldsInner(s.pc[p], l))
  }

  /** Each p->lock is held by exactly the process whose program counter says so. */
  ghost predicate PlockInv(s: State)
    requires Shape(s)
  {
    && (forall q | 0 <= q < |s.pc| && s.plock[q].Some? :: Proc(s, s.plock[q].value))
    && (forall p, q {:trigger HoldsProc(s.pc[p], p, q)} | 0 <= p < |s.pc| && 0 <= q < |s.pc| ::
         s.plock[q] == Some(p) <==> HoldsProc(s.pc[p], p, q))
    && (forall p | 0 <= p < |s.pc| && s.pc[p].WakeHold? :: Proc(s, s.pc[p].i))
  }

  /** A sleep lock is locked exactly when the process recorded as its owner holds it. */
  ghost predicate OwnerInv(s: State)
    requires Shape(s)
  {
    && (forall l | 0 <= l < |s.inner| :: s.locked[l] <==> s.owner[l].Some?)
    && (forall l | 0 <= l < |s.inner| && s.owner[l].Some? :: Proc(s, s.owner[l].value))
    && (forall p, l: nat {:trigger l in s.held[p]} | 0 <= p < |s.pc| && 0 <= l < |s.inner| ::
         s.owner[l] == Some(p) <==> l in s.held[p])
    && (forall p | 0 <= p < |s.pc| && (s.pc[p].RWant? || s.pc[p].RClear?) :: s.pc[p].l in s.held[p])
  }

  /** p is asleep on lock l, or has let go of the inner lock in order to be. */
  predicate Committed(pc: Pc, run: RunState, chan: Option<nat>, l: int) {
    (pc.SMark? && pc.l == l) || (run == Sleeping && chan.Some? && chan.value == l)
  }

  /** pc is in wakeup for l and has yet to look at p. */
  predicate WakerFor(pc: Pc, p: int, l: int) {
    (pc.Wake? || pc.WakeHold?) && pc.l == l && pc.i <= p
  }

  /** Whoever sleeps on a lock sleeps because it is locked, or is about to be woken. */
  ghost predicate SleepInv(s: State)
    requires Shape(s)
  {
    && (forall p | 0 <= p < |s.pc| && s.run[p] == Sleeping ::
          (s.pc[p].SSched? || s.pc[p].SOff?) && s.chan[p] == Some(s.pc[p].l))
    && (forall p | 0 <= p < |s.pc| && (s.pc[p].SWant? || s.pc[p].SRelease?) ::
         Lock(s, s.pc[p].l) && s.locked[s.pc[p].l])
    && (forall p, l {:trigger Committed(s.pc[p], s.run[p], s.chan[p], l)} | 0 <= p < |s.pc| && 0 <= l < |s.inner|
       && Committed(s.pc[p], s.run[p], s.chan[p], l) ::
          s.locked[l] || (s.inner[l].Some? && Proc(s, s.inner[l].value) && WakerFor(s.pc[s.inner[l].value], p, l)))
  }

  ghost predicate Inv(s: State) {
    Shape(s) && InnerInv(s) && PlockInv(s) && OwnerInv(s) && SleepInv(s)
  }

  lemma InitInv(s: State)
    requires Init(s)
    ensures Inv(s)
  {
  }

  // ---- one step, one element of the invariant at a time ----

  lemma PcAt(s: State, p: nat, s': State, q: nat)
    requires Shape(s) && InnerInv(s) && Proc(s, p) && Step(s, p, s.pc[p], s') && Proc(s, q)
    ensures Shape(s') && |s'.pc| == |s.pc| && |s'.inner| == |s.inner|
    ensures s'.pc[q] != Idle ==> Lock(s', s'.pc[q].l)
    ensures q != p ==> s'.pc[q] == s.pc[q]
  {
  }

  lemma InnerAt(s: State, p: nat, s': State, q: nat, l: nat)
    requires Shape(s) && InnerInv(s) && Proc(s, p) && Step(s, p, s.pc[p], s') && Proc(s, q) && Lock(s, l) && Shape(s')
    ensures s'.inner[l].Some? ==> Proc(s, s'.inner[l].value)
    ensures s'.inner[l] == Some(q) <==> HoldsInner(s'.pc[q], l)
  {
    assert HoldsInner(s.pc[q], l) <==> s.inner[l] == Some(q);
    assert HoldsInner(s.pc[p], l) <==> s.inner[l] == Some(p);
  }

  lemma StepInner(s: State, p: nat, s': State)
    requires Shape(s) && InnerInv(s) && Proc(s, p) && Step(s, p, s.pc[p], s')
    ensures Shape(s') && InnerInv(s')
  {
    PcAt(s, p, s', p);
    forall q | 0 <= q < |s'.pc| && s'.pc[q] != Idle ensures Lock(s', s'.pc[q].l) { PcAt(s, p, s', q); }
    forall q, l | 0 <= q < |s'.pc| && 0 <= l < |s'.inner|
      ensures s'.inner[l] == Some(q) <==> HoldsInner(s'.pc[q], l)
    {
      InnerAt(s, p, s', q, l);
    }
    forall l | 0 <= l < |s'.inner| && s'.inner[l].Some? ensures Proc(s', s'.inner[l].value) { InnerAt(s, p, s', p, l); }
  }

  lemma PlockAt(s: State, p: nat, s': State, r: nat, q: nat)
    requires Shape(s) && PlockInv(s) && Proc(s, p) && Step(s, p, s.pc[p], s') && Proc(s, r) && Proc(s, q) && Shape(s')
    ensures s'.plock[q].Some? ==> Proc(s, s'.plock[q].value)
    ensures s'.plock[q] == Some(r) <==> HoldsProc(s'.pc[r], r, q)
    ensures s'.pc[q].WakeHold? ==> Proc(s, s'.pc[q].i)
  {
    assert HoldsProc(s.pc[r], r, q) <==> s.plock[q] == Some(r);
    assert HoldsProc(s.pc[p], p, q) <==> s.plock[q] == Some(p);
  }

  lemma StepPlock(s: State, p: nat, s': State)
    requires Shape(s) && PlockInv(s) && Proc(s, p) && Step(s, p, s.pc[p], s') && Shape(s') && |s'.pc| == |s.pc|
    ensures PlockInv(s')
  {
    forall r, q | 0 <= r < |s'.pc| && 0 <= q < |s'.pc|
      ensures s'.plock[q] == Some(r) <==> HoldsProc(s'.pc[r], r, q)
    {
      PlockAt(s, p, s', r, q);
    }
    forall q | 0 <= q < |s'.pc| ensures s'.plock[q].Some? ==> Proc(s', s'.plock[q].value) { PlockAt(s, p, s', p, q); }
    forall q | 0 <= q < |s'.pc| ensures s'.pc[q].WakeHold? ==> Proc(s', s'.pc[q].i) { PlockAt(s, p, s', p, q); }
  }

  lemma OwnerAt(s: State, p: nat, s': State, q: nat, l: nat)
    requires Shape(s) && OwnerInv(s) && Proc(s, p) && Step(s, p, s.pc[p], s') && Proc(s, q) && Lock(s, l) && Shape(s')
    requires |s'.inner| == |s.inner| && |s'.pc| == |s.pc|
    ensures s'.locked[l] <==> s'.owner[l].Some?
    ensures s'.owner[l].Some? ==> Proc(s, s'.owner[l].value)
    ensures s'.owner[l] == Some(q) <==> l in s'.held[q]
  {
    assert l in s.held[q] <==> s.owner[l] == Some(q);
    assert l in s.held[p] <==> s.owner[l] == Some(p);
  }

  lemma OwningAt(s: State, p: nat, s': State, q: nat)
    requires Shape(s) && OwnerInv(s) && Proc(s, p) && Step(s, p, s.pc[p], s') && Proc(s, q) && Shape(s')
             && |s'.pc| == |s.pc|
    ensures s'.pc[q].RWant? || s'.pc[q].RClear? ==> s'.pc[q].l in s'.held[q]
  {
  }

  lemma StepOwner(s: State, p: nat, s': State)
    requires Shape(s) && OwnerInv(s) && Proc(s, p) && Step(s, p, s.pc[p], s') && Shape(s')
    requires |s'.inner| == |s.inner| && |s'.pc| == |s.pc|
    ensures OwnerInv(s')
  {
    forall q, l: nat | 0 <= q < |s'.pc| && 0 <= l < |s'.inner| ensures s'.owner[l] == Some(q) <==> l in s'.held[q] {
      OwnerAt(s, p, s', q, l);
    }
    forall l | 0 <= l < |s'.inner| ensures s'.locked[l] <==> s'.owner[l].Some? { OwnerAt(s, p, s', p, l); }
    forall l | 0 <= l < |s'.inner| && s'.owner[l].Some? ensures Proc(s', s'.owner[l].value) { OwnerAt(s, p, s', p, l); }
    forall q | 0 <= q < |s'.pc| && (s'.pc[q].RWant? || s'.pc[q].RClear?) ensures s'.pc[q].l in s'.held[q] {
      OwningAt(s, p, s', q);
    }
  }

  lemma SleepingAt(s: State, p: nat, s': State, q: nat)
    requires Inv(s) && Proc(s, p) && Step(s, p, s.pc[p], s') && Proc(s, q) && Shape(s') && |s'.pc| == |s.pc|
    ensures s'.run[q] == Sleeping ==> (s'.pc[q].SSched? || s'.pc[q].SOff?) && s'.chan[q] == Some(s'.pc[q].l)
  {
  }

  lemma WantingAt(s: State, p: nat, s': State, q: nat, l: nat)
    requires Inv(s) && Proc(s, p) && Step(s, p, s.pc[p], s') && Proc(s, q) && Lock(s, l) && Shape(s')
    requires |s'.inner| == |s.inner| && |s'.pc| == |s.pc|
    ensures s'.pc[q] == SWant(l) || s'.pc[q] == SRelease(l) ==> s'.locked[l]
  {
    assert HoldsInner(s.pc[q], l) <==> s.inner[l] == Some(q);
    assert HoldsInner(s.pc[p], l) <==> s.inner[l] == Some(p);
  }

  lemma CommittedAt(s: State, p: nat, s': State, q: nat, l: nat)
    requires Inv(s) && Proc(s, p) && Step(s, p, s.pc[p], s') && Proc(s, q) && Lock(s, l) && Shape(s')
    requires |s'.inner| == |s.inner| && |s'.pc| == |s.pc|
    requires Committed(s'.pc[q], s'.run[q], s'.chan[q], l)
    ensures s'.locked[l]
            || (s'.inner[l].Some? && Proc(s', s'.inner[l].value) && WakerFor(s'.pc[s'.inner[l].value], q, l))
  {
    assert HoldsInner(s.pc[p], l) <==> s.inner[l] == Some(p);
    assert HoldsInner(s.pc[q], l) <==> s.inner[l] == Some(q);
    assert HoldsProc(s.pc[q], q, q) <==> s.plock[q] == Some(q);
    assert HoldsProc(s.pc[p], p, q) <==> s.plock[q] == Some(p);
    assert Committed(s.pc[q], s.run[q], s.chan[q], l) || (p == q && s.pc[p] == SRelease(l));
  }

  lemma StepSleep(s: State, p: nat, s': State)
    requires Inv(s) && Proc(s, p) && Step(s, p, s.pc[p], s') && Shape(s') && InnerInv(s')
    requires |s'.inner| == |s.inner| && |s'.pc| == |s.pc|
    ensures SleepInv(s')
  {
    forall q | 0 <= q < |s'.pc| && s'.run[q] == Sleeping
      ensures (s'.pc[q].SSched? || s'.pc[q].SOff?) && s'.chan[q] == Some(s'.pc[q].l)
    {
      SleepingAt(s, p, s', q);
    }
    forall q | 0 <= q < |s'.pc| && (s'.pc[q].SWant? || s'.pc[q].SRelease?)
      ensures Lock(s', s'.pc[q].l) && s'.locked[s'.pc[q].l]
    {
      WantingAt(s, p, s', q, s'.pc[q].l);
    }
    forall q, l | 0 <= q < |s'.pc| && 0 <= l < |s'.inner| && Committed(s'.pc[q], s'.run[q], s'.chan[q], l)
      ensures s'.locked[l]
              || (s'.inner[l].Some? && Proc(s', s'.inner[l].value) && WakerFor(s'.pc[s'.inner[l].value], q, l))
    {
      CommittedAt(s, p, s', q, l);
    }
  }

  lemma KillInv(s: State, q: nat, s': State)
    requires Inv(s) && Proc(s, q) && Kill(s, q, s')
    ensures Inv(s')
  {
  }

  lemma NextInv(s: State, s': State)
    requires Inv(s) && Next(s, s')
    ensures Inv(s')
  {
    if p: nat :| Proc(s, p) && Step(s, p, s.pc[p], s') {
      PcAt(s, p, s', p);
      StepInner(s, p, s');
      StepPlock(s, p, s');
      StepOwner(s, p, s');
      StepSleep(s, p, s');
    } else {
      var q: nat :| Proc(s, q) && Kill(s, q, s');
      KillInv(s, q, s');
    }
  }

  ghost predicate Run(ss: seq<State>) {
    ss != [] && Init(ss[0]) && forall i | 0 <= i < |ss| - 1 :: StepAt(ss, i)
  }

  ghost predicate StepAt(ss: seq<State>, i: nat)
    requires i < |ss| - 1
  {
    Next(ss[i], ss[i + 1])
  }

  lemma {:induction false} RunInv(ss: seq<State>, n: nat)
    requires Run(ss) && n < |ss|
    ensures Inv(ss[n])
  {
    if n == 0 {
      InitInv(ss[0]);
    } else {
      RunInv(ss, n - 1);
      assert StepAt(ss, n - 1);
      NextInv(ss[n - 1], ss[n]);
    }
  }

  // ---- what the kernel relies on ----

  /** No wakeup is lost: in every reachable state, if a sleep lock's inner lock is free and the sleep lock is
      unlocked, no process is asleep on it or past the point of no return on the way to sleep. */
  lemma NoLostWakeup(ss: seq<State>, n: nat, l: nat, p: nat)
    requires Run(ss) && n < |ss| && Shape(ss[n]) && Lock(ss[n], l) && Proc(ss[n], p)
    requires ss[n].inner[l] == None && !ss[n].locked[l]
    ensures !Committed(ss[n].pc[p], ss[n].run[p], ss[n].chan[p], l)
  {
    RunInv(ss, n);
  }

  /** Mutual exclusion, and holdingsleep is right: its test succeeds for a process exactly if it holds the lock,
      and no two processes hold one lock. */
  lemma OneHolder(ss: seq<State>, n: nat, l: nat, p: nat, q: nat)
    requires Run(ss) && n < |ss| && Shape(ss[n]) && Lock(ss[n], l) && Proc(ss[n], p) && Proc(ss[n], q)
    ensures l in ss[n].held[p] <==> ss[n].locked[l] && ss[n].owner[l] == Some(p)
    ensures l in ss[n].held[p] && l in ss[n].held[q] ==> p == q
  {
    RunInv(ss, n);
    var s := ss[n];
    assert l in s.held[p] <==> s.owner[l] == Some(p);
    assert l in s.held[q] <==> s.owner[l] == Some(q);
  }
}
