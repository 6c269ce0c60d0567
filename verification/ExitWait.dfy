/** fork, exit, wait and reparent over a process table, for every interleaving of their lock steps.

    A slot's p->lock protects its state, chan, pid and xstate; p->parent is read without it, as the kernel does.
    `exited` and `reaped` record the status each pid exited with and the status its parent was given, `adopted` the
    slots whose process reparent has given to init.
 */
module ExitWait {

  const INIT: int := 0  // initproc
  const NULL: int := -1

  datatype ProcState = Unused | Sleeping | Runnable | Running | Zombie

  datatype Pc =
    | Gone                                        // no thread: a free slot, or a zombie switched out for good
    | User
    | Fork(i: int)                                // allocproc: at acquire(&proc[i].lock), or past the last one
    | ForkHold(i: int)                            // holds proc[i].lock, at the test for UNUSED
    | ForkInit(i: int)                            // slot found, pid given
    | ForkReady(i: int)                           // np->parent set
    | ExitInit(status: int)                       // exit: at acquire(&initproc->lock)
    | ExitRead(status: int)                       // at the reading of p->parent
    | ExitLock(status: int, o: int)               // at acquire(&original_parent->lock)
    | ExitSelf(status: int, o: int)               // holds original_parent->lock, at acquire(&p->lock)
    | Reparent(status: int, o: int, i: int)       // holds both, at the test of proc[i].parent
    | ReparentWant(status: int, o: int, i: int)   // test succeeded, at acquire(&proc[i].lock)
    | ReparentHold(status: int, o: int, i: int)   // holds proc[i].lock too
    | ExitMark(status: int, o: int)               // parent woken, about to become a zombie
    | ExitRelease(o: int)                         // at release(&original_parent->lock)
    | ExitSched                                   // at swtch
    | WaitLock                                    // wait: at acquire(&p->lock)
    | Scan(i: int, kids: bool)                    // holds p->lock, at the test of proc[i].parent
    | ScanWant(i: int, kids: bool)                // test succeeded, at acquire(&proc[i].lock)
    | ScanHold(i: int, kids: bool)                // holds proc[i].lock too
    | WaitSched                                   // asleep, at swtch
    | WaitOff                                     // switched out

  datatype State = State(
    pc: seq<Pc>, st: seq<ProcState>, parent: seq<int>, plock: seq<int>, pid: seq<int>, xstate: seq<int>,
    nextpid: int, exited: map<int, int>, reaped: map<int, int>, adopted: set<int>)

  predicate Shape(s: State) {
    0 < |s.pc| == |s.st| == |s.parent| == |s.plock| == |s.pid| == |s.xstate|
  }

  predicate Slot(s: State, p: int) {
    0 <= p < |s.pc|
  }

  predicate Free(s: State, q: int)
    requires Shape(s)
  {
    Slot(s, q) && s.plock[q] == NULL
  }

  function Woken(st: seq<ProcState>, q: int): (r: seq<ProcState>)
    requires 0 <= q < |st|
    ensures |r| == |st|
  {
    if st[q] == Sleeping then st[q := Runnable] else st
  }

  // fork; allocproc scans the table, and may fail later for want of memory: the slot keeps its new pid if it is for a
  // trapframe
  predicate ForkStep(s: State, p: int, at: Pc, s': State)
    requires Shape(s) && Slot(s, p)
  {
    match at
    case User => s' == s.(pc := s.pc[p := Fork(0)])
    case Fork(i) =>
      if i >= |s.pc| then s' == s.(pc := s.pc[p := User])
      else Free(s, i) && s' == s.(pc := s.pc[p := ForkHold(i)], plock := s.plock[i := p])
    case ForkHold(i) =>
      Slot(s, i) &&
      if s.st[i] == Unused
      then s' == s.(pc := s.pc[p := ForkInit(i)], pid := s.pid[i := s.nextpid], nextpid := s.nextpid + 1)
      else s' == s.(pc := s.pc[p := Fork(i + 1)], plock := s.plock[i := NULL])
    case ForkInit(i) =>
      Slot(s, i) &&
      (|| s' == s.(pc := s.pc[p := User], plock := s.plock[i := NULL])
       || s' == s.(pc := s.pc[p := User], plock := s.plock[i := NULL], pid := s.pid[i := 0],
        parent := s.parent[i := NULL])
       || s' == s.(pc := s.pc[p := ForkReady(i)], parent := s.parent[i := p], adopted := s.adopted - {i}))
    case ForkReady(i) =>
      Slot(s, i) && s' == s.(pc := s.pc[p := User][i := User], st := s.st[i := Runnable], plock := s.plock[i := NULL])
    case _ => false
  }

  // exit, but for reparent; init does not exit
  predicate ExitStep(s: State, p: int, at: Pc, status: int, s': State)
    requires Shape(s) && Slot(s, p)
  {
    match at
    case User => p != INIT && s' == s.(pc := s.pc[p := ExitInit(status)])
    case ExitInit(x) => Free(s, INIT) && s' == s.(pc := s.pc[p := ExitRead(x)], st := Woken(s.st, INIT))
    case ExitRead(x) => Free(s, p) && s' == s.(pc := s.pc[p := ExitLock(x, s.parent[p])])
    case ExitLock(x, o) => Free(s, o) && s' == s.(pc := s.pc[p := ExitSelf(x, o)], plock := s.plock[o := p])
    case ExitSelf(x, o) => Free(s, p) && s' == s.(pc := s.pc[p := Reparent(x, o, 0)], plock := s.plock[p := p])
    case ExitMark(x, o) =>
      s' == s.(pc := s.pc[p := ExitRelease(o)], st := s.st[p := Zombie], xstate := s.xstate[p := x],
               exited := s.exited[s.pid[p] := x])
    case ExitRelease(o) => Slot(s, o) && s' == s.(pc := s.pc[p := ExitSched], plock := s.plock[o := NULL])
    case ExitSched => s' == s.(pc := s.pc[p := Gone], plock := s.plock[p := NULL])
    case _ => false
  }

  // reparent, and the wakeup1 after it
  predicate ReparentStep(s: State, p: int, at: Pc, s': State)
    requires Shape(s) && Slot(s, p)
  {
    match at
    case Reparent(x, o, i) =>
      if i >= |s.pc| then Slot(s, o) && s' == s.(pc := s.pc[p := ExitMark(x, o)], st := Woken(s.st, o))
      else s' == s.(pc := s.pc[p := if i >= 0 && s.parent[i] == p then ReparentWant(x, o, i)
           else Reparent(x, o, i + 1)])
    case ReparentWant(x, o, i) =>
      Free(s, i) && s' == s.(pc := s.pc[p := ReparentHold(x, o, i)], plock := s.plock[i := p])
    case ReparentHold(x, o, i) =>
      Slot(s, i)
      && s' == s.(pc := s.pc[p := Reparent(x, o, i + 1)], parent := s.parent[i := INIT], plock := s.plock[i := NULL],
                            adopted := s.adopted + {i})
    case _ => false
  }

  // wait, but for a child found; `giveUp` stands for p->killed at the end of a scan
  predicate WaitStep(s: State, p: int, at: Pc, giveUp: bool, s': State)
    requires Shape(s) && Slot(s, p)
  {
    match at
    case User => s' == s.(pc := s.pc[p := WaitLock])
    case WaitLock => Free(s, p) && s' == s.(pc := s.pc[p := Scan(0, false)], plock := s.plock[p := p])
    case Scan(i, kids) =>
      if i < |s.pc| then
        s' == s.(pc := s.pc[p := if i >= 0 && s.parent[i] == p then ScanWant(i, kids) else Scan(i + 1, kids)])
      else if !kids || giveUp then s' == s.(pc := s.pc[p := User], plock := s.plock[p := NULL])
      else s' == s.(pc := s.pc[p := WaitSched], st := s.st[p := Sleeping])
    case WaitSched => s' == s.(pc := s.pc[p := WaitOff], plock := s.plock[p := NULL])
    case WaitOff =>
      s.st[p] == Runnable && Free(s, p) &&
      s' == s.(pc := s.pc[p := Scan(0, false)], st := s.st[p := Running], plock := s.plock[p := p])
    case _ => false
  }

  // wait looking at a child; `giveUp` stands for a failed copyout
  predicate ReapStep(s: State, p: int, at: Pc, giveUp: bool, s': State)
    requires Shape(s) && Slot(s, p)
  {
    match at
    case ScanWant(i, kids) =>
      Free(s, i) && s' == s.(pc := s.pc[p := ScanHold(i, true)], plock := s.plock[i := p])
    case ScanHold(i, kids) =>
      Slot(s, i) &&
      if s.st[i] != Zombie then s' == s.(pc := s.pc[p := Scan(i + 1, kids)], plock := s.plock[i := NULL])
      else if giveUp then s' == s.(pc := s.pc[p := User], plock := s.plock[i := NULL][p := NULL])
      else s' == s.(pc := s.pc[p := User], plock := s.plock[i := NULL][p := NULL], st := s.st[i := Unused],
                    parent := s.parent[i := NULL], pid := s.pid[i := 0], xstate := s.xstate[i := 0],
                    reaped := s.reaped[s.pid[i] := s.xstate[i]])
    case _ => false
  }

  // kill
  predicate Kill(s: State, q: int, s': State)
    requires Shape(s)
  {
    Free(s, q) && s' == s.(st := Woken(s.st, q))
  }

  /** A step of process p; x is the status of an exit, g says whether wait gives up. */
  predicate ProcStep(s: State, p: int, x: int, g: bool, s': State)
    requires Shape(s) && Slot(s, p)
  {
    || ForkStep(s, p, s.pc[p], s') || ExitStep(s, p, s.pc[p], x, s') || ReparentStep(s, p, s.pc[p], s')
    || WaitStep(s, p, s.pc[p], g, s') || ReapStep(s, p, s.pc[p], g, s')
  }

  /** The setting of every lemma about one step of p from a good state. */
  ghost predicate Before(s: State, p: int, s': State) {
    Inv(s) && Slot(s, p) && Shape(s') && |s'.pc| == |s.pc|
  }

  ghost predicate Next(s: State, s': State) {
    Shape(s) &&
    Shape(s') && |s'.pc| == |s.pc| &&  // the table has a fixed size
    ((exists p, x: int, g: bool | Slot(s, p) :: ProcStep(s, p, x, g, s')) || (exists q :: Kill(s, q, s')))
  }

  /** After userinit: init alone in the table. */
  ghost predicate Init(s: State) {
    && Shape(s) && s.nextpid == 2 && s.exited == map[] && s.reaped == map[] && s.adopted == {}
    && (forall p | 0 <= p < |s.pc| ::
          s.parent[p] == NULL && s.plock[p] == NULL &&
          if p == INIT then s.pc[p] == User && s.st[p] == Runnable && s.pid[p] == 1
          else s.pc[p] == Gone && s.st[p] == Unused && s.pid[p] == 0)
  }

  // ---- invariant ----

  /** Does the thread of p, at pc, hold proc[q].lock? */
  predicate Holds(pc: Pc, p: int, q: int) {
    match pc
    case ForkHold(i) => q == i
    case ForkInit(i) => q == i
    case ForkReady(i) => q == i
    case ExitSelf(_, o) => q == o
    case Reparent(_, o, _) => q == o || q == p
    case ReparentWant(_, o, _) => q == o || q == p
    case ReparentHold(_, o, i) => q == o || q == p || q == i
    case ExitMark(_, o) => q == o || q == p
    case ExitRelease(o) => q == o || q == p
    case ExitSched => q == p
    case Scan(_, _) => q == p
    case ScanWant(_, _) => q == p
    case ScanHold(i, _) => q == p || q == i
    case WaitSched => q == p
    case _ => false
  }

  predicate Alive(st: ProcState) {
    st != Unused && st != Zombie
  }

  /** Indices are in range, and no thread names one lock twice. */
  predicate Apart(pc: Pc, p: int, n: int) {
    match pc
    case ForkHold(i) => 0 <= i < n
    case ForkInit(i) => 0 <= i < n
    case ForkReady(i) => 0 <= i < n
    case ExitSelf(_, o) => 0 <= o < n
    case Reparent(_, o, i) => 0 <= o < n && o != p && 0 <= i <= n
    case ReparentWant(_, o, i) => 0 <= o < n && o != p && 0 <= i < n
    case ReparentHold(_, o, i) => 0 <= o < n && o != p && 0 <= i < n && i != o && i != p
    case ExitMark(_, o) => 0 <= o < n && o != p
    case ExitRelease(o) => 0 <= o < n && o != p
    case Scan(i, _) => 0 <= i <= n
    case ScanWant(i, _) => 0 <= i < n
    case ScanHold(i, _) => 0 <= i < n && i != p
    case Fork(i) => 0 <= i <= n
    case _ => true
  }

  /** What a thread's program counter says about its own state. */
  predicate StateOk(pc: Pc, st: ProcState) {
    match pc
    case Gone => st == Unused || st == Zombie
    case ExitRelease(_) => st == Zombie
    case ExitSched => st == Zombie
    case WaitSched => st == Sleeping
    case WaitOff => st == Sleeping || st == Runnable
    case _ => st == Runnable || st == Running
  }

  predicate Exiting(pc: Pc) {
    pc.ExitInit? || pc.ExitRead? || pc.ExitLock? || pc.ExitSelf? || pc.Reparent? || pc.ReparentWant?
    || pc.ReparentHold? || pc.ExitMark?
  }

  /** Exiting with a copy of the parent pointer. */
  predicate HasCopy(pc: Pc) {
    pc.ExitLock? || pc.ExitSelf? || pc.Reparent? || pc.ReparentWant? || pc.ReparentHold? || pc.ExitMark?
  }

  /** How much of the table an exiting process has relieved of itself as parent. */
  function Relieved(pc: Pc, n: int): (k: int) {
    match pc
    case Reparent(_, _, i) => i
    case ReparentWant(_, _, i) => i
    case ReparentHold(_, _, i) => i
    case ExitMark(_, _) => n
    case _ => 0
  }

  /** How much of the table a waiting process knows to hold no zombie child. */
  function Scanned(pc: Pc, st: ProcState, n: int): (k: int) {
    match pc
    case Scan(i, _) => i
    case ScanWant(i, _) => i
    case ScanHold(i, _) => i
    case WaitSched => n
    case WaitOff => if st == Sleeping then n else 0
    case _ => 0
  }

  /** A thread's state fits its program counter; init lives on. */
  ghost predicate ThreadAt(s: State, p: int)
    requires Shape(s) && Slot(s, p)
  {
    StateOk(s.pc[p], s.st[p]) && (p == INIT ==> Alive(s.st[p]) && !Exiting(s.pc[p]))
  }

  ghost predicate RangeAt(s: State, p: int)
    requires Shape(s) && Slot(s, p)
  {
    Apart(s.pc[p], p, |s.pc|)
  }

  /** What a thread knows of the slot it is working on. */
  ghost predicate SlotAt(s: State, p: int)
    requires Shape(s) && Slot(s, p)
  {
    var pc := s.pc[p];
    && (pc.ForkInit? || pc.ForkReady? ==> Slot(s, pc.i) && s.st[pc.i] == Unused && s.pid[pc.i] != 0)
    && (pc.ForkReady? || pc.ReparentWant? || pc.ReparentHold? || pc.ScanWant? || pc.ScanHold? ==>
          Slot(s, pc.i) && s.parent[pc.i] == p)
  }

  /** What an exiting thread knows of its parent. */
  ghost predicate CopyAt(s: State, p: int)
    requires Shape(s) && Slot(s, p)
  {
    var pc := s.pc[p];
    && (HasCopy(pc) ==> s.parent[p] == pc.o || (s.parent[p] == INIT && p in s.adopted))
    && (pc.ExitMark? ==> Slot(s, pc.o) && s.st[pc.o] != Sleeping)
  }

  /** A parent pointer always leads to a live process; only a slot being forked has one while UNUSED. */
  ghost predicate ParentAt(s: State, q: int)
    requires Shape(s) && Slot(s, q)
  {
    && (s.parent[q] != NULL ==> Slot(s, s.parent[q]) && Alive(s.st[s.parent[q]]) && q != INIT)
    && (s.parent[q] != NULL && s.st[q] == Unused ==> s.pc[s.parent[q]] == ForkReady(q))
    && (s.st[q] != Unused && q != INIT ==> s.parent[q] != NULL)
  }

  /** proc locks are held exactly as the program counters say. */
  ghost predicate LockAt(s: State, p: int, q: int)
    requires Shape(s) && Slot(s, p) && Slot(s, q)
  {
    s.plock[q] == p <==> Holds(s.pc[p], p, q)
  }

  /** An exiting p is no longer the parent of what it has passed, and what a waiting p has passed is no zombie child. */
  ghost predicate FamilyAt(s: State, p: int, q: int)
    requires Shape(s) && Slot(s, p) && Slot(s, q)
  {
    && (q < Relieved(s.pc[p], |s.pc|) ==> s.parent[q] != p)
    && (q < Scanned(s.pc[p], s.st[p], |s.pc|) && s.parent[q] == p && (p != INIT || q !in s.adopted) ==>
         s.st[q] != Zombie)
  }

  ghost predicate DistinctAt(s: State, p: int, q: int)
    requires Shape(s) && Slot(s, p) && Slot(s, q)
  {
    s.pid[p] == s.pid[q] && p != q ==> s.pid[p] == 0
  }

  ghost predicate PidAt(s: State, q: int)
    requires Shape(s) && Slot(s, q)
  {
    && 0 <= s.pid[q] < s.nextpid
    && (s.st[q] != Unused ==> s.pid[q] != 0)
    && (s.pid[q] in s.exited ==> s.st[q] == Zombie && s.exited[s.pid[q]] == s.xstate[q])
    && (s.st[q] == Zombie ==> s.pid[q] in s.exited && s.pid[q] !in s.reaped)
  }

  /** A pid is reaped only after it exited, with the status it exited with. */
  ghost predicate HistoryInv(s: State) {
    && (forall x | x in s.exited :: 0 < x < s.nextpid)
    && (forall x | x in s.reaped :: x in s.exited && s.reaped[x] == s.exited[x])
  }

  ghost predicate Inv(s: State) {
    && Shape(s) && HistoryInv(s)
    && (forall p {:trigger ThreadAt(s, p)} | 0 <= p < |s.pc| :: ThreadAt(s, p))
    && (forall p {:trigger RangeAt(s, p)} | 0 <= p < |s.pc| :: RangeAt(s, p))
    && (forall p {:trigger SlotAt(s, p)} | 0 <= p < |s.pc| :: SlotAt(s, p))
    && (forall p {:trigger CopyAt(s, p)} | 0 <= p < |s.pc| :: CopyAt(s, p))
    && (forall q {:trigger ParentAt(s, q)} | 0 <= q < |s.pc| :: ParentAt(s, q))
    && (forall q {:trigger PidAt(s, q)} | 0 <= q < |s.pc| :: PidAt(s, q))
    && (forall p, q {:trigger LockAt(s, p, q)} | 0 <= p < |s.pc| && 0 <= q < |s.pc| :: LockAt(s, p, q))
    && (forall p, q {:trigger FamilyAt(s, p, q)} | 0 <= p < |s.pc| && 0 <= q < |s.pc| :: FamilyAt(s, p, q))
    && (forall p, q {:trigger DistinctAt(s, p, q)} | 0 <= p < |s.pc| && 0 <= q < |s.pc| :: DistinctAt(s, p, q))
  }

  lemma InitInv(s: State)
    requires Init(s)
    ensures Inv(s)
  {
    forall p | Slot(s, p) ensures s.pc[p] == User || s.pc[p] == Gone {}
  }

  // ---- one step, one element of the invariant at a time ----

  lemma ForkKeepsThread(s: State, p: int, s': State, r: int)
    requires Before(s, p, s') && ForkStep(s, p, s.pc[p], s') && Slot(s, r)
    ensures ThreadAt(s', r)
  {
    var pc := s.pc[p];
    assert ThreadAt(s, p) && ThreadAt(s, r);
    assert SlotAt(s, p);
    if pc.ForkReady? { assert ThreadAt(s, pc.i); }
  }

  lemma ForkKeepsRange(s: State, p: int, s': State, r: int)
    requires Before(s, p, s') && ForkStep(s, p, s.pc[p], s') && Slot(s, r)
    ensures RangeAt(s', r)
  {
    assert RangeAt(s, p) && RangeAt(s, r);
  }

  lemma ForkKeepsSlot(s: State, p: int, s': State, r: int)
    requires Before(s, p, s') && ForkStep(s, p, s.pc[p], s') && Slot(s, r)
    ensures SlotAt(s', r)
  {
    var pc := s.pc[p];
    assert ThreadAt(s, p) && SlotAt(s, r);
    if pc.ForkInit? {
      ForkInitKeepsSlot(s, p, s', r);
    } else if pc.ForkHold? || pc.ForkReady? {
      assert SlotAt(s, p) && RangeAt(s, p) && ParentAt(s, pc.i) && LockAt(s, p, pc.i) && LockAt(s, r, pc.i)
             && PidAt(s, pc.i);
    }
  }

  lemma ForkInitKeepsSlot(s: State, p: int, s': State, r: int)
    requires Before(s, p, s') && s.pc[p].ForkInit? && ForkStep(s, p, s.pc[p], s') && Slot(s, r)
    ensures SlotAt(s', r)
  {
    var i := s.pc[p].i;
    assert ThreadAt(s, p) && SlotAt(s, r) && SlotAt(s, p) && RangeAt(s, p) && ParentAt(s, i) && PidAt(s, i);
    assert LockAt(s, p, i) && LockAt(s, r, i);
  }

  lemma ForkKeepsCopy(s: State, p: int, s': State, r: int)
    requires Before(s, p, s') && ForkStep(s, p, s.pc[p], s') && Slot(s, r)
    ensures CopyAt(s', r)
  {
    var pc := s.pc[p];
    assert ThreadAt(s, p) && CopyAt(s, r);
    assert SlotAt(s, p);
    if pc.ForkInit? || pc.ForkReady? { assert ThreadAt(s, pc.i); }
  }

  lemma ForkKeepsParent(s: State, p: int, s': State, q: int)
    requires Before(s, p, s') && ForkStep(s, p, s.pc[p], s') && Slot(s, q)
    ensures ParentAt(s', q)
  {
    var pc := s.pc[p];
    assert ThreadAt(s, p) && ParentAt(s, q);
    assert SlotAt(s, p) && ThreadAt(s, INIT);
    if pc.ForkInit? || pc.ForkReady? { assert ThreadAt(s, pc.i); }
  }

  lemma ForkKeepsLock(s: State, p: int, s': State, r: int, q: int)
    requires Before(s, p, s') && ForkStep(s, p, s.pc[p], s') && Slot(s, r) && Slot(s, q)
    ensures LockAt(s', r, q)
  {
    var pc := s.pc[p];
    assert RangeAt(s, p) && LockAt(s, r, q) && LockAt(s, p, q);
    if pc.ForkReady? { assert ThreadAt(s, pc.i) && SlotAt(s, p); }
  }

  lemma ForkKeepsFamily(s: State, p: int, s': State, r: int, q: int)
    requires Before(s, p, s') && ForkStep(s, p, s.pc[p], s') && Slot(s, r) && Slot(s, q)
    ensures FamilyAt(s', r, q)
  {
    assert ThreadAt(s, p) && ThreadAt(s, r) && FamilyAt(s, r, q);
  }

  lemma ForkKeepsPid(s: State, p: int, s': State, q: int)
    requires Before(s, p, s') && ForkStep(s, p, s.pc[p], s') && Slot(s, q)
    ensures PidAt(s', q)
  {
    assert ThreadAt(s, p) && PidAt(s, q);
    assert SlotAt(s, p);
  }

  lemma ExitKeepsThread(s: State, p: int, x: int, s': State, r: int)
    requires Before(s, p, s') && ExitStep(s, p, s.pc[p], x, s') && Slot(s, r)
    ensures ThreadAt(s', r)
  {
    assert ThreadAt(s, p) && ThreadAt(s, r);
    assert ThreadAt(s, INIT) && LockAt(s, INIT, INIT);
  }

  lemma ExitKeepsRange(s: State, p: int, x: int, s': State, r: int)
    requires Before(s, p, s') && ExitStep(s, p, s.pc[p], x, s') && Slot(s, r)
    ensures RangeAt(s', r)
  {
    var pc := s.pc[p];
    assert RangeAt(s, p) && RangeAt(s, r);
    if pc.ExitSelf? { assert LockAt(s, p, pc.o); }
  }

  lemma ExitKeepsSlot(s: State, p: int, x: int, s': State, r: int)
    requires Before(s, p, s') && ExitStep(s, p, s.pc[p], x, s') && Slot(s, r)
    ensures SlotAt(s', r)
  {
    assert ThreadAt(s, p) && SlotAt(s, r);
  }

  lemma ExitKeepsCopy(s: State, p: int, x: int, s': State, r: int)
    requires Before(s, p, s') && ExitStep(s, p, s.pc[p], x, s') && Slot(s, r)
    ensures CopyAt(s', r)
  {
    assert ThreadAt(s, p) && CopyAt(s, r);
  }

  lemma ExitKeepsParent(s: State, p: int, x: int, s': State, q: int)
    requires Before(s, p, s') && ExitStep(s, p, s.pc[p], x, s') && Slot(s, q)
    ensures ParentAt(s', q)
  {
    assert ThreadAt(s, p) && ParentAt(s, q);
    assert FamilyAt(s, p, q);
  }

  lemma ExitKeepsLock(s: State, p: int, x: int, s': State, r: int, q: int)
    requires Before(s, p, s') && ExitStep(s, p, s.pc[p], x, s') && Slot(s, r) && Slot(s, q)
    ensures LockAt(s', r, q)
  {
    assert RangeAt(s, p) && LockAt(s, r, q) && LockAt(s, p, q);
  }

  lemma ExitKeepsFamily(s: State, p: int, x: int, s': State, r: int, q: int)
    requires Before(s, p, s') && ExitStep(s, p, s.pc[p], x, s') && Slot(s, r) && Slot(s, q)
    ensures FamilyAt(s', r, q)
  {
    assert ThreadAt(s, p) && ThreadAt(s, r) && FamilyAt(s, r, q);
    assert CopyAt(s, p) && LockAt(s, p, r) && LockAt(s, r, r);
  }

  lemma ExitKeepsPid(s: State, p: int, x: int, s': State, q: int)
    requires Before(s, p, s') && ExitStep(s, p, s.pc[p], x, s') && Slot(s, q)
    ensures PidAt(s', q)
  {
    assert ThreadAt(s, p) && PidAt(s, q);
    assert PidAt(s, p) && DistinctAt(s, p, q);
  }

  lemma ReparentKeepsThread(s: State, p: int, s': State, r: int)
    requires Before(s, p, s') && ReparentStep(s, p, s.pc[p], s') && Slot(s, r)
    ensures ThreadAt(s', r)
  {
    var pc := s.pc[p];
    assert ThreadAt(s, p) && ThreadAt(s, r);
    if pc.Reparent? { assert RangeAt(s, p) && LockAt(s, p, pc.o) && LockAt(s, pc.o, pc.o); }
  }

  lemma ReparentKeepsRange(s: State, p: int, s': State, r: int)
    requires Before(s, p, s') && ReparentStep(s, p, s.pc[p], s') && Slot(s, r)
    ensures RangeAt(s', r)
  {
    var pc := s.pc[p];
    assert RangeAt(s, p) && RangeAt(s, r);
    assert LockAt(s, p, p);
    if pc.ReparentWant? { assert LockAt(s, p, pc.o); }
  }

  lemma ReparentKeepsSlot(s: State, p: int, s': State, r: int)
    requires Before(s, p, s') && ReparentStep(s, p, s.pc[p], s') && Slot(s, r)
    ensures SlotAt(s', r)
  {
    assert ThreadAt(s, p) && SlotAt(s, r);
    assert SlotAt(s, p);
  }

  lemma ReparentKeepsCopy(s: State, p: int, s': State, r: int)
    requires Before(s, p, s') && ReparentStep(s, p, s.pc[p], s') && Slot(s, r)
    ensures CopyAt(s', r)
  {
    assert ThreadAt(s, p) && CopyAt(s, r);
  }

  lemma ReparentKeepsParent(s: State, p: int, s': State, q: int)
    requires Before(s, p, s') && ReparentStep(s, p, s.pc[p], s') && Slot(s, q)
    ensures ParentAt(s', q)
  {
    assert ThreadAt(s, p) && ParentAt(s, q);
    assert SlotAt(s, p) && ThreadAt(s, INIT);
  }

  lemma ReparentKeepsLock(s: State, p: int, s': State, r: int, q: int)
    requires Before(s, p, s') && ReparentStep(s, p, s.pc[p], s') && Slot(s, r) && Slot(s, q)
    ensures LockAt(s', r, q)
  {
    assert RangeAt(s, p) && LockAt(s, r, q) && LockAt(s, p, q);
  }

  lemma ReparentKeepsFamily(s: State, p: int, s': State, r: int, q: int)
    requires Before(s, p, s') && ReparentStep(s, p, s.pc[p], s') && Slot(s, r) && Slot(s, q)
    ensures FamilyAt(s', r, q)
  {
    assert ThreadAt(s, p) && ThreadAt(s, r) && FamilyAt(s, r, q);
  }

  lemma ReparentKeepsPid(s: State, p: int, s': State, q: int)
    requires Before(s, p, s') && ReparentStep(s, p, s.pc[p], s') && Slot(s, q)
    ensures PidAt(s', q)
  {
    assert ThreadAt(s, p) && PidAt(s, q);
  }

  lemma WaitKeepsThread(s: State, p: int, g: bool, s': State, r: int)
    requires Before(s, p, s') && WaitStep(s, p, s.pc[p], g, s') && Slot(s, r)
    ensures ThreadAt(s', r)
  {
    assert ThreadAt(s, p) && ThreadAt(s, r);
  }

  lemma WaitKeepsRange(s: State, p: int, g: bool, s': State, r: int)
    requires Before(s, p, s') && WaitStep(s, p, s.pc[p], g, s') && Slot(s, r)
    ensures RangeAt(s', r)
  {
    assert RangeAt(s, p) && RangeAt(s, r);
  }

  lemma WaitKeepsSlot(s: State, p: int, g: bool, s': State, r: int)
    requires Before(s, p, s') && WaitStep(s, p, s.pc[p], g, s') && Slot(s, r)
    ensures SlotAt(s', r)
  {
    assert ThreadAt(s, p) && SlotAt(s, r);
  }

  lemma WaitKeepsCopy(s: State, p: int, g: bool, s': State, r: int)
    requires Before(s, p, s') && WaitStep(s, p, s.pc[p], g, s') && Slot(s, r)
    ensures CopyAt(s', r)
  {
    assert ThreadAt(s, p) && CopyAt(s, r);
    assert LockAt(s, r, p) && LockAt(s, p, p);
  }

  lemma WaitKeepsParent(s: State, p: int, g: bool, s': State, q: int)
    requires Before(s, p, s') && WaitStep(s, p, s.pc[p], g, s') && Slot(s, q)
    ensures ParentAt(s', q)
  {
    assert ThreadAt(s, p) && ParentAt(s, q);
  }

  lemma WaitKeepsLock(s: State, p: int, g: bool, s': State, r: int, q: int)
    requires Before(s, p, s') && WaitStep(s, p, s.pc[p], g, s') && Slot(s, r) && Slot(s, q)
    ensures LockAt(s', r, q)
  {
    assert RangeAt(s, p) && LockAt(s, r, q) && LockAt(s, p, q);
  }

  lemma WaitKeepsFamily(s: State, p: int, g: bool, s': State, r: int, q: int)
    requires Before(s, p, s') && WaitStep(s, p, s.pc[p], g, s') && Slot(s, r) && Slot(s, q)
    ensures FamilyAt(s', r, q)
  {
    assert ThreadAt(s, p) && ThreadAt(s, r) && FamilyAt(s, r, q);
  }

  lemma WaitKeepsPid(s: State, p: int, g: bool, s': State, q: int)
    requires Before(s, p, s') && WaitStep(s, p, s.pc[p], g, s') && Slot(s, q)
    ensures PidAt(s', q)
  {
    assert ThreadAt(s, p) && PidAt(s, q);
  }

  lemma ReapKeepsThread(s: State, p: int, g: bool, s': State, r: int)
    requires Before(s, p, s') && ReapStep(s, p, s.pc[p], g, s') && Slot(s, r)
    ensures ThreadAt(s', r)
  {
    var pc := s.pc[p];
    assert ThreadAt(s, p) && ThreadAt(s, r);
    if pc.ScanHold? { assert RangeAt(s, p) && ThreadAt(s, pc.i) && LockAt(s, p, pc.i) && LockAt(s, pc.i, pc.i); }
  }

  lemma ReapKeepsRange(s: State, p: int, g: bool, s': State, r: int)
    requires Before(s, p, s') && ReapStep(s, p, s.pc[p], g, s') && Slot(s, r)
    ensures RangeAt(s', r)
  {
    assert RangeAt(s, p) && RangeAt(s, r);
    assert LockAt(s, p, p);
  }

  lemma ReapKeepsSlot(s: State, p: int, g: bool, s': State, r: int)
    requires Before(s, p, s') && ReapStep(s, p, s.pc[p], g, s') && Slot(s, r)
    ensures SlotAt(s', r)
  {
    assert ThreadAt(s, p) && SlotAt(s, r);
    assert SlotAt(s, p);
  }

  lemma ReapKeepsCopy(s: State, p: int, g: bool, s': State, r: int)
    requires Before(s, p, s') && ReapStep(s, p, s.pc[p], g, s') && Slot(s, r)
    ensures CopyAt(s', r)
  {
    var pc := s.pc[p];
    assert ThreadAt(s, p) && CopyAt(s, r);
    if pc.ScanHold? { assert RangeAt(s, p) && ThreadAt(s, pc.i); }
  }

  lemma ReapKeepsParent(s: State, p: int, g: bool, s': State, q: int)
    requires Before(s, p, s') && ReapStep(s, p, s.pc[p], g, s') && Slot(s, q)
    ensures ParentAt(s', q)
  {
    var pc := s.pc[p];
    assert ThreadAt(s, p) && ParentAt(s, q);
    assert SlotAt(s, p);
    if pc.ScanHold? { assert ThreadAt(s, p) && FamilyAt(s, p, q); }
  }

  lemma ReapKeepsLock(s: State, p: int, g: bool, s': State, r: int, q: int)
    requires Before(s, p, s') && ReapStep(s, p, s.pc[p], g, s') && Slot(s, r) && Slot(s, q)
    ensures LockAt(s', r, q)
  {
    assert RangeAt(s, p) && LockAt(s, r, q) && LockAt(s, p, q);
  }

  lemma ReapKeepsFamily(s: State, p: int, g: bool, s': State, r: int, q: int)
    requires Before(s, p, s') && ReapStep(s, p, s.pc[p], g, s') && Slot(s, r) && Slot(s, q)
    ensures FamilyAt(s', r, q)
  {
    assert ThreadAt(s, p) && ThreadAt(s, r) && FamilyAt(s, r, q);
  }

  lemma ReapKeepsPid(s: State, p: int, g: bool, s': State, q: int)
    requires Before(s, p, s') && ReapStep(s, p, s.pc[p], g, s') && Slot(s, q)
    ensures PidAt(s', q)
  {
    var pc := s.pc[p];
    assert ThreadAt(s, p) && PidAt(s, q);
    if pc.ScanHold? && Slot(s, pc.i) { assert PidAt(s, pc.i) && DistinctAt(s, pc.i, q); }
  }

  lemma ForkKeepsDistinct(s: State, p: int, s': State, r: int, q: int)
    requires Before(s, p, s') && ForkStep(s, p, s.pc[p], s') && Slot(s, r) && Slot(s, q)
    ensures DistinctAt(s', r, q)
  {
    assert DistinctAt(s, r, q) && PidAt(s, r) && PidAt(s, q);
  }

  lemma KeepsDistinct(s: State, p: int, x: int, g: bool, s': State, r: int, q: int)
    requires Before(s, p, s') && ProcStep(s, p, x, g, s') && Slot(s, r) && Slot(s, q)
    ensures DistinctAt(s', r, q)
  {
    if ForkStep(s, p, s.pc[p], s') {
      ForkKeepsDistinct(s, p, s', r, q);
    } else {
      assert DistinctAt(s, r, q);
    }
  }

  lemma ExitKeepsHistory(s: State, p: int, x: int, s': State)
    requires Before(s, p, s') && ExitStep(s, p, s.pc[p], x, s')
    ensures HistoryInv(s')
  {
    assert ThreadAt(s, p) && PidAt(s, p);
  }

  lemma ReapKeepsHistory(s: State, p: int, g: bool, s': State)
    requires Before(s, p, s') && ReapStep(s, p, s.pc[p], g, s')
    ensures HistoryInv(s')
  {
    var pc := s.pc[p];
    if pc.ScanHold? && Slot(s, pc.i) { assert PidAt(s, pc.i); }
  }

  lemma KeepsHistory(s: State, p: int, x: int, g: bool, s': State)
    requires Before(s, p, s') && ProcStep(s, p, x, g, s')
    ensures HistoryInv(s')
  {
    if ExitStep(s, p, s.pc[p], x, s') { ExitKeepsHistory(s, p, x, s'); }
    else if ReapStep(s, p, s.pc[p], g, s') { ReapKeepsHistory(s, p, g, s'); }
  }

  lemma KeepsThread(s: State, p: int, x: int, g: bool, s': State, r: int)
    requires Before(s, p, s') && ProcStep(s, p, x, g, s') && Slot(s, r)
    ensures ThreadAt(s', r)
  {
    if ForkStep(s, p, s.pc[p], s') { ForkKeepsThread(s, p, s', r); }
    else if ExitStep(s, p, s.pc[p], x, s') { ExitKeepsThread(s, p, x, s', r); }
    else if ReparentStep(s, p, s.pc[p], s') { ReparentKeepsThread(s, p, s', r); }
    else if WaitStep(s, p, s.pc[p], g, s') { WaitKeepsThread(s, p, g, s', r); }
    else { ReapKeepsThread(s, p, g, s', r); }
  }

  lemma KeepsRange(s: State, p: int, x: int, g: bool, s': State, r: int)
    requires Before(s, p, s') && ProcStep(s, p, x, g, s') && Slot(s, r)
    ensures RangeAt(s', r)
  {
    if ForkStep(s, p, s.pc[p], s') { ForkKeepsRange(s, p, s', r); }
    else if ExitStep(s, p, s.pc[p], x, s') { ExitKeepsRange(s, p, x, s', r); }
    else if ReparentStep(s, p, s.pc[p], s') { ReparentKeepsRange(s, p, s', r); }
    else if WaitStep(s, p, s.pc[p], g, s') { WaitKeepsRange(s, p, g, s', r); }
    else { ReapKeepsRange(s, p, g, s', r); }
  }

  lemma KeepsSlot(s: State, p: int, x: int, g: bool, s': State, r: int)
    requires Before(s, p, s') && ProcStep(s, p, x, g, s') && Slot(s, r)
    ensures SlotAt(s', r)
  {
    if ForkStep(s, p, s.pc[p], s') { ForkKeepsSlot(s, p, s', r); }
    else if ExitStep(s, p, s.pc[p], x, s') { ExitKeepsSlot(s, p, x, s', r); }
    else if ReparentStep(s, p, s.pc[p], s') { ReparentKeepsSlot(s, p, s', r); }
    else if WaitStep(s, p, s.pc[p], g, s') { WaitKeepsSlot(s, p, g, s', r); }
    else { ReapKeepsSlot(s, p, g, s', r); }
  }

  lemma KeepsCopy(s: State, p: int, x: int, g: bool, s': State, r: int)
    requires Before(s, p, s') && ProcStep(s, p, x, g, s') && Slot(s, r)
    ensures CopyAt(s', r)
  {
    if ForkStep(s, p, s.pc[p], s') { ForkKeepsCopy(s, p, s', r); }
    else if ExitStep(s, p, s.pc[p], x, s') { ExitKeepsCopy(s, p, x, s', r); }
    else if ReparentStep(s, p, s.pc[p], s') { ReparentKeepsCopy(s, p, s', r); }
    else if WaitStep(s, p, s.pc[p], g, s') { WaitKeepsCopy(s, p, g, s', r); }
    else { ReapKeepsCopy(s, p, g, s', r); }
  }

  lemma KeepsParent(s: State, p: int, x: int, g: bool, s': State, q: int)
    requires Before(s, p, s') && ProcStep(s, p, x, g, s') && Slot(s, q)
    ensures ParentAt(s', q)
  {
    if ForkStep(s, p, s.pc[p], s') { ForkKeepsParent(s, p, s', q); }
    else if ExitStep(s, p, s.pc[p], x, s') { ExitKeepsParent(s, p, x, s', q); }
    else if ReparentStep(s, p, s.pc[p], s') { ReparentKeepsParent(s, p, s', q); }
    else if WaitStep(s, p, s.pc[p], g, s') { WaitKeepsParent(s, p, g, s', q); }
    else { ReapKeepsParent(s, p, g, s', q); }
  }

  lemma KeepsLock(s: State, p: int, x: int, g: bool, s': State, r: int, q: int)
    requires Before(s, p, s') && ProcStep(s, p, x, g, s') && Slot(s, r) && Slot(s, q)
    ensures LockAt(s', r, q)
  {
    if ForkStep(s, p, s.pc[p], s') { ForkKeepsLock(s, p, s', r, q); }
    else if ExitStep(s, p, s.pc[p], x, s') { ExitKeepsLock(s, p, x, s', r, q); }
    else if ReparentStep(s, p, s.pc[p], s') { ReparentKeepsLock(s, p, s', r, q); }
    else if WaitStep(s, p, s.pc[p], g, s') { WaitKeepsLock(s, p, g, s', r, q); }
    else { ReapKeepsLock(s, p, g, s', r, q); }
  }

  lemma KeepsFamily(s: State, p: int, x: int, g: bool, s': State, r: int, q: int)
    requires Before(s, p, s') && ProcStep(s, p, x, g, s') && Slot(s, r) && Slot(s, q)
    ensures FamilyAt(s', r, q)
  {
    if ForkStep(s, p, s.pc[p], s') { ForkKeepsFamily(s, p, s', r, q); }
    else if ExitStep(s, p, s.pc[p], x, s') { ExitKeepsFamily(s, p, x, s', r, q); }
    else if ReparentStep(s, p, s.pc[p], s') { ReparentKeepsFamily(s, p, s', r, q); }
    else if WaitStep(s, p, s.pc[p], g, s') { WaitKeepsFamily(s, p, g, s', r, q); }
    else { ReapKeepsFamily(s, p, g, s', r, q); }
  }

  lemma KeepsPid(s: State, p: int, x: int, g: bool, s': State, q: int)
    requires Before(s, p, s') && ProcStep(s, p, x, g, s') && Slot(s, q)
    ensures PidAt(s', q)
  {
    if ForkStep(s, p, s.pc[p], s') { ForkKeepsPid(s, p, s', q); }
    else if ExitStep(s, p, s.pc[p], x, s') { ExitKeepsPid(s, p, x, s', q); }
    else if ReparentStep(s, p, s.pc[p], s') { ReparentKeepsPid(s, p, s', q); }
    else if WaitStep(s, p, s.pc[p], g, s') { WaitKeepsPid(s, p, g, s', q); }
    else { ReapKeepsPid(s, p, g, s', q); }
  }

  lemma ProcStepInv(s: State, p: int, x: int, g: bool, s': State)
    requires Before(s, p, s') && ProcStep(s, p, x, g, s')
    ensures Inv(s')
  {
    KeepsHistory(s, p, x, g, s');
    forall r | 0 <= r < |s'.pc| ensures ThreadAt(s', r) { KeepsThread(s, p, x, g, s', r); }
    forall r | 0 <= r < |s'.pc| ensures RangeAt(s', r) { KeepsRange(s, p, x, g, s', r); }
    forall r | 0 <= r < |s'.pc| ensures SlotAt(s', r) { KeepsSlot(s, p, x, g, s', r); }
    forall r | 0 <= r < |s'.pc| ensures CopyAt(s', r) { KeepsCopy(s, p, x, g, s', r); }
    forall q | 0 <= q < |s'.pc| ensures ParentAt(s', q) { KeepsParent(s, p, x, g, s', q); }
    forall q | 0 <= q < |s'.pc| ensures PidAt(s', q) { KeepsPid(s, p, x, g, s', q); }
    forall r, q | 0 <= r < |s'.pc| && 0 <= q < |s'.pc| ensures LockAt(s', r, q) { KeepsLock(s, p, x, g, s', r, q); }
    forall r, q | 0 <= r < |s'.pc| && 0 <= q < |s'.pc| ensures FamilyAt(s', r, q) { KeepsFamily(s, p, x, g, s', r, q); }
    forall r, q | 0 <= r < |s'.pc| && 0 <= q < |s'.pc|
      ensures DistinctAt(s', r, q)
    {
      KeepsDistinct(s, p, x, g, s', r, q);
    }
  }

  lemma KillInv(s: State, k: int, s': State)
    requires Inv(s) && Kill(s, k, s')
    ensures Inv(s')
  {
    forall r | 0 <= r < |s'.pc| ensures ThreadAt(s', r) { assert ThreadAt(s, r) && LockAt(s, r, r); }
    forall r | 0 <= r < |s'.pc| ensures RangeAt(s', r) { assert RangeAt(s, r); }
    forall r | 0 <= r < |s'.pc| ensures SlotAt(s', r) { assert SlotAt(s, r); }
    forall r | 0 <= r < |s'.pc| ensures CopyAt(s', r) { assert CopyAt(s, r); }
    forall q | 0 <= q < |s'.pc| ensures ParentAt(s', q) { assert ParentAt(s, q); }
    forall q | 0 <= q < |s'.pc| ensures PidAt(s', q) { assert PidAt(s, q); }
    forall r, q | 0 <= r < |s'.pc| && 0 <= q < |s'.pc| ensures LockAt(s', r, q) { assert LockAt(s, r, q); }
    forall r, q | 0 <= r < |s'.pc| && 0 <= q < |s'.pc| ensures FamilyAt(s', r, q) { assert FamilyAt(s, r, q); }
    forall r, q | 0 <= r < |s'.pc| && 0 <= q < |s'.pc| ensures DistinctAt(s', r, q) { assert DistinctAt(s, r, q); }
  }

  lemma NextInv(s: State, s': State)
    requires Inv(s) && Next(s, s')
    ensures Inv(s')
  {
    if p, x: int, g: bool :| Slot(s, p) && ProcStep(s, p, x, g, s') {
      ProcStepInv(s, p, x, g, s');
    } else {
      var q :| Kill(s, q, s');
      KillInv(s, q, s');
    }
  }

  ghost predicate Run(ss: seq<State>) {
    ss != [] && Init(ss[0]) && Steps(ss)
  }

  ghost predicate Steps(ss: seq<State>) {
    forall i {:trigger StepAt(ss, i)} | 0 <= i < |ss| - 1 :: StepAt(ss, i)
  }

  ghost predicate StepAt(ss: seq<State>, i: nat)
    requires i < |ss| - 1
  {
    Next(ss[i], ss[i + 1])
  }

  lemma {:induction false} RunInv(ss: seq<State>, n: nat)
    requires Run(ss) && n < |ss|
    ensures Inv(ss[n])
  {
    if n == 0 {
      InitInv(ss[0]);
    } else {
      RunInv(ss, n - 1);
      assert StepAt(ss, n - 1);
      NextInv(ss[n - 1], ss[n]);
    }
  }

  // ---- what the kernel relies on ----

  /** wait loses no wakeup: when a process sleeps in wait, none of its children is a zombie, except that init may sleep
      over a zombie that was given to it. */
  lemma NoZombieWhileAsleep(ss: seq<State>, n: nat, p: int, q: int)
    requires Run(ss) && n < |ss| && Shape(ss[n]) && Slot(ss[n], p) && Slot(ss[n], q)
    requires p != INIT || q !in ss[n].adopted
    requires ss[n].st[p] == Sleeping && ss[n].parent[q] == p
    ensures ss[n].st[q] != Zombie
  {
    RunInv(ss, n);
    assert ThreadAt(ss[n], p) && FamilyAt(ss[n], p, q);
  }

  /** No process, live or zombie, has a parent that is UNUSED or ZOMBIE, and every process but init has a parent. */
  lemma ParentsAreAlive(ss: seq<State>, n: nat, q: int)
    requires Run(ss) && n < |ss| && Shape(ss[n]) && Slot(ss[n], q)
    ensures ss[n].parent[q] != NULL ==> Slot(ss[n], ss[n].parent[q]) && Alive(ss[n].st[ss[n].parent[q]])
    ensures ss[n].st[q] != Unused && q != INIT ==> ss[n].parent[q] != NULL
  {
    RunInv(ss, n);
    assert ParentAt(ss[n], q);
  }

  /** From s to s', what has been recorded of pid stays, and it is handed over only as a zombie, with its own status. */
  ghost predicate Recorded(s: State, s': State, pid: int) {
    && (pid in s.reaped ==> pid in s'.reaped && s'.reaped[pid] == s.reaped[pid])
    && (pid in s'.reaped && pid !in s.reaped ==>
          && pid in s.exited && s'.reaped[pid] == s.exited[pid]
          && exists q :: Slot(s, q) && Shape(s) && s.st[q] == Zombie && s.pid[q] == pid)
    && (pid in s.exited ==> pid in s'.exited && s'.exited[pid] == s.exited[pid])
  }

  lemma ExitRecords(s: State, p: int, x: int, s': State, pid: int)
    requires Before(s, p, s') && ExitStep(s, p, s.pc[p], x, s')
    ensures Recorded(s, s', pid)
  {
    assert ThreadAt(s, p) && PidAt(s, p);
  }

  lemma ReapRecords(s: State, p: int, g: bool, s': State, pid: int)
    requires Before(s, p, s') && ReapStep(s, p, s.pc[p], g, s')
    ensures Recorded(s, s', pid)
  {
    var pc := s.pc[p];
    if pc.ScanHold? && Slot(s, pc.i) { assert PidAt(s, pc.i); }
  }

  lemma StepRecords(s: State, p: int, x: int, g: bool, s': State, pid: int)
    requires Before(s, p, s') && ProcStep(s, p, x, g, s')
    ensures Recorded(s, s', pid)
  {
    if ExitStep(s, p, s.pc[p], x, s') { ExitRecords(s, p, x, s', pid); }
    else if ReapStep(s, p, s.pc[p], g, s') { ReapRecords(s, p, g, s', pid); }
    else { assert s'.reaped == s.reaped && s'.exited == s.exited; }
  }

  /** Each exit is reaped at most once and with its own status: what has been handed to a parent never changes, a
      step adds at most the pid of a zombie not handed over before, and with the status it exited with. */
  lemma ReapedOnce(ss: seq<State>, n: nat, pid: int)
    requires Run(ss) && n + 1 < |ss|
    ensures pid in ss[n].reaped ==> pid in ss[n + 1].reaped && ss[n + 1].reaped[pid] == ss[n].reaped[pid]
    ensures pid in ss[n + 1].reaped && pid !in ss[n].reaped ==>
              pid in ss[n].exited && ss[n + 1].reaped[pid] == ss[n].exited[pid] &&
              exists q :: Slot(ss[n], q) && Shape(ss[n]) && ss[n].st[q] == Zombie && ss[n].pid[q] == pid
    ensures pid in ss[n].exited ==> pid in ss[n + 1].exited && ss[n + 1].exited[pid] == ss[n].exited[pid]
  {
    RunInv(ss, n);
    assert StepAt(ss, n);
    var s, s' := ss[n], ss[n + 1];
    if p, x: int, g: bool :| Slot(s, p) && ProcStep(s, p, x, g, s') {
      StepRecords(s, p, x, g, s', pid);
    }
    assert Recorded(s, s', pid);
  }

  // ---- init and the zombies given to it ----

  ghost predicate Reachable(s0: State, s: State) {
    exists ss: seq<State> :: Path(ss, s0, s)
  }

  ghost predicate Path(ss: seq<State>, s0: State, s: State) {
    ss != [] && Steps(ss) && ss[0] == s0 && ss[|ss| - 1] == s
  }

  /** One step more. */
  lemma Go(s0: State, s: State, p: int, x: int, s': State)
    requires Reachable(s0, s) && Shape(s) && Shape(s') && |s'.pc| == |s.pc| && Slot(s, p)
             && ProcStep(s, p, x, false, s')
    ensures Reachable(s0, s')
  {
    var ss: seq<State> :| Path(ss, s0, s);
    var tt := ss + [s'];
    forall i | 0 <= i < |tt| - 1 ensures StepAt(tt, i) {
      if i < |ss| - 1 { assert StepAt(ss, i) && tt[i] == ss[i] && tt[i + 1] == ss[i + 1]; }
    }
    assert Path(tt, s0, s');
  }

  ghost predicate Unlocked(s: State) {
    forall q | 0 <= q < |s.plock| :: s.plock[q] == NULL
  }

  lemma {:induction false} ForkPast(s0: State, s: State, p: int, k: nat) returns (s': State)
    requires Reachable(s0, s) && Shape(s) && Slot(s, p) && s.pc[p] == Fork(0) && Unlocked(s) && k <= |s.pc|
    requires forall j | 0 <= j < k :: s.st[j] != Unused
    ensures Reachable(s0, s') && s' == s.(pc := s.pc[p := Fork(k)])
  {
    if k == 0 {
      s' := s;
    } else {
      var r := ForkPast(s0, s, p, k - 1);
      var r1 := r.(pc := r.pc[p := ForkHold(k - 1)], plock := r.plock[k - 1 := p]);
      assert ForkStep(r, p, r.pc[p], r1);
      Go(s0, r, p, 0, r1);
      s' := s.(pc := s.pc[p := Fork(k)]);
      assert s'.plock == r1.plock[k - 1 := NULL];
      assert ForkStep(r1, p, r1.pc[p], s');
      Go(s0, r1, p, 0, s');
    }
  }

  /** A fork that takes slot i, all slots before it being in use. */
  lemma ForkChild(s0: State, s: State, p: int, i: int) returns (s': State)
    requires Reachable(s0, s) && Shape(s) && Slot(s, p) && Slot(s, i) && s.pc[p] == User && Unlocked(s)
    requires s.st[i] == Unused && forall j | 0 <= j < i :: s.st[j] != Unused
    ensures Reachable(s0, s')
    ensures s' == s.(pc := s.pc[p := User][i := User], st := s.st[i := Runnable], parent := s.parent[i := p],
                     pid := s.pid[i := s.nextpid], nextpid := s.nextpid + 1, adopted := s.adopted - {i})
  {
    var r0 := s.(pc := s.pc[p := Fork(0)]);
    assert ForkStep(s, p, s.pc[p], r0);
    Go(s0, s, p, 0, r0);
    var r1 := ForkPast(s0, r0, p, i);
    var r2 := r1.(pc := r1.pc[p := ForkHold(i)], plock := r1.plock[i := p]);
    assert ForkStep(r1, p, r1.pc[p], r2);
    Go(s0, r1, p, 0, r2);
    s' := ForkRest(s0, r2, p, i);
    assert s'.plock == s.plock;
  }

  lemma ForkRest(s0: State, s: State, p: int, i: int) returns (s': State)
    requires Reachable(s0, s) && Shape(s) && Slot(s, p) && Slot(s, i) && s.pc[p] == ForkHold(i) && s.st[i] == Unused
    ensures Reachable(s0, s')
    ensures s' == s.(pc := s.pc[p := User][i := User], st := s.st[i := Runnable], parent := s.parent[i := p],
                     plock := s.plock[i := NULL], pid := s.pid[i := s.nextpid], nextpid := s.nextpid + 1,
                       adopted := s.adopted - {i})
  {
    var r3 := s.(pc := s.pc[p := ForkInit(i)], pid := s.pid[i := s.nextpid], nextpid := s.nextpid + 1);
    assert ForkStep(s, p, s.pc[p], r3);
    Go(s0, s, p, 0, r3);
    var r4 := r3.(pc := r3.pc[p := ForkReady(i)], parent := r3.parent[i := p], adopted := r3.adopted - {i});
    assert ForkStep(r3, p, r3.pc[p], r4);
    Go(s0, r3, p, 0, r4);
    s' := s.(pc := s.pc[p := User][i := User], st := s.st[i := Runnable], parent := s.parent[i := p],
             plock := s.plock[i := NULL], pid := s.pid[i := s.nextpid], nextpid := s.nextpid + 1,
               adopted := s.adopted - {i});
    assert s'.pc == r4.pc[p := User][i := User];
    assert ForkStep(r4, p, r4.pc[p], s');
    Go(s0, r4, p, 0, s');
  }

  /** The start of exit, up to the reading of p->parent, while init is awake. */
  lemma ExitStart(s0: State, s: State, p: int, x: int) returns (s': State)
    requires Reachable(s0, s) && Shape(s) && Slot(s, p) && p != INIT && s.pc[p] == User && Unlocked(s)
             && s.st[INIT] != Sleeping
    ensures Reachable(s0, s') && s' == s.(pc := s.pc[p := ExitRead(x)])
  {
    var r := s.(pc := s.pc[p := ExitInit(x)]);
    assert ExitStep(s, p, s.pc[p], x, r);
    Go(s0, s, p, x, r);
    s' := s.(pc := s.pc[p := ExitRead(x)]);
    assert s'.pc == r.pc[p := ExitRead(x)];
    assert ExitStep(r, p, r.pc[p], x, s');
    Go(s0, r, p, x, s');
  }

  /** From there to the start of reparent, with both locks. */
  lemma ExitLocks(s0: State, s: State, p: int, x: int, o: int) returns (s': State)
    requires Reachable(s0, s) && Shape(s) && Slot(s, p) && Slot(s, o) && p != o && s.pc[p] == ExitRead(x)
             && s.parent[p] == o && Unlocked(s)
    ensures Reachable(s0, s') && s' == s.(pc := s.pc[p := Reparent(x, o, 0)], plock := s.plock[o := p][p := p])
  {
    var r1 := s.(pc := s.pc[p := ExitLock(x, o)]);
    assert ExitStep(s, p, s.pc[p], x, r1);
    Go(s0, s, p, x, r1);
    var r2 := r1.(pc := r1.pc[p := ExitSelf(x, o)], plock := r1.plock[o := p]);
    assert ExitStep(r1, p, r1.pc[p], x, r2);
    Go(s0, r1, p, x, r2);
    s' := s.(pc := s.pc[p := Reparent(x, o, 0)], plock := s.plock[o := p][p := p]);
    assert s'.pc == r2.pc[p := Reparent(x, o, 0)];
    assert ExitStep(r2, p, r2.pc[p], x, s');
    Go(s0, r2, p, x, s');
  }

  /** reparent passing slots that are not children. */
  lemma {:induction false} ReparentPast(s0: State, s: State, p: int, x: int, o: int, i: nat, k: nat) returns (s': State)
    requires Reachable(s0, s) && Shape(s) && Slot(s, p) && s.pc[p] == Reparent(x, o, i) && i <= k <= |s.pc|
    requires forall j | i <= j < k :: s.parent[j] != p
    ensures Reachable(s0, s') && s' == s.(pc := s.pc[p := Reparent(x, o, k)])
    decreases k
  {
    if i == k {
      s' := s;
    } else {
      var r := ReparentPast(s0, s, p, x, o, i, k - 1);
      s' := s.(pc := s.pc[p := Reparent(x, o, k)]);
      assert s'.pc == r.pc[p := Reparent(x, o, k)];
      assert ReparentStep(r, p, r.pc[p], s');
      Go(s0, r, p, x, s');
    }
  }

  /** reparent giving child i to init. */
  lemma ReparentGive(s0: State, s: State, p: int, x: int, o: int, i: nat) returns (s': State)
    requires Reachable(s0, s) && Shape(s) && Slot(s, p) && Slot(s, i) && s.pc[p] == Reparent(x, o, i)
             && s.parent[i] == p && s.plock[i] == NULL
    ensures Reachable(s0, s')
    ensures s' == s.(pc := s.pc[p := Reparent(x, o, i + 1)], parent := s.parent[i := INIT], adopted := s.adopted + {i})
  {
    var r1 := s.(pc := s.pc[p := ReparentWant(x, o, i)]);
    assert ReparentStep(s, p, s.pc[p], r1);
    Go(s0, s, p, x, r1);
    var r2 := r1.(pc := r1.pc[p := ReparentHold(x, o, i)], plock := r1.plock[i := p]);
    assert ReparentStep(r1, p, r1.pc[p], r2);
    Go(s0, r1, p, x, r2);
    s' := s.(pc := s.pc[p := Reparent(x, o, i + 1)], parent := s.parent[i := INIT], adopted := s.adopted + {i});
    assert s'.pc == r2.pc[p := Reparent(x, o, i + 1)] && s'.plock == r2.plock[i := NULL];
    assert ReparentStep(r2, p, r2.pc[p], s');
    Go(s0, r2, p, x, s');
  }

  /** The end of exit, with a parent that is not asleep. */
  lemma ExitEnd(s0: State, s: State, p: int, x: int, o: int) returns (s': State)
    requires Reachable(s0, s) && Shape(s) && Slot(s, p) && Slot(s, o) && p != o && s.pc[p] == Reparent(x, o, |s.pc|)
             && s.st[o] != Sleeping
    ensures Reachable(s0, s')
    ensures s' == s.(pc := s.pc[p := Gone], st := s.st[p := Zombie], plock := s.plock[o := NULL][p := NULL],
                     xstate := s.xstate[p := x], exited := s.exited[s.pid[p] := x])
  {
    var r1 := s.(pc := s.pc[p := ExitMark(x, o)]);
    assert ReparentStep(s, p, s.pc[p], r1);
    Go(s0, s, p, x, r1);
    var r2 := r1.(pc := r1.pc[p := ExitRelease(o)], st := r1.st[p := Zombie], xstate := r1.xstate[p := x],
                  exited := r1.exited[r1.pid[p] := x]);
    assert ExitStep(r1, p, r1.pc[p], x, r2);
    Go(s0, r1, p, x, r2);
    var r3 := r2.(pc := r2.pc[p := ExitSched], plock := r2.plock[o := NULL]);
    assert ExitStep(r2, p, r2.pc[p], x, r3);
    Go(s0, r2, p, x, r3);
    s' := s.(pc := s.pc[p := Gone], st := s.st[p := Zombie], plock := s.plock[o := NULL][p := NULL],
             xstate := s.xstate[p := x], exited := s.exited[s.pid[p] := x]);
    assert s'.pc == r3.pc[p := Gone];
    assert ExitStep(r3, p, r3.pc[p], x, s');
    Go(s0, r3, p, x, s');
  }

  lemma {:induction false} ScanPast(s0: State, s: State, p: int, kids: bool, i: nat, k: nat) returns (s': State)
    requires Reachable(s0, s) && Shape(s) && Slot(s, p) && s.pc[p] == Scan(i, kids) && i <= k <= |s.pc|
    requires forall j | i <= j < k :: s.parent[j] != p
    ensures Reachable(s0, s') && s' == s.(pc := s.pc[p := Scan(k, kids)])
    decreases k
  {
    if i == k {
      s' := s;
    } else {
      var r := ScanPast(s0, s, p, kids, i, k - 1);
      s' := s.(pc := s.pc[p := Scan(k, kids)]);
      assert s'.pc == r.pc[p := Scan(k, kids)];
      assert WaitStep(r, p, r.pc[p], false, s');
      Go(s0, r, p, 0, s');
    }
  }

  /** wait looking at child i, which is no zombie. */
  lemma ScanChild(s0: State, s: State, p: int, i: nat) returns (s': State)
    requires Reachable(s0, s) && Shape(s) && Slot(s, p) && Slot(s, i) && s.pc[p] == Scan(i, false)
    requires s.parent[i] == p && s.plock[i] == NULL && s.st[i] != Zombie
    ensures Reachable(s0, s') && s' == s.(pc := s.pc[p := Scan(i + 1, true)])
  {
    var r1 := s.(pc := s.pc[p := ScanWant(i, false)]);
    assert WaitStep(s, p, s.pc[p], false, r1);
    Go(s0, s, p, 0, r1);
    var r2 := r1.(pc := r1.pc[p := ScanHold(i, true)], plock := r1.plock[i := p]);
    assert ReapStep(r1, p, r1.pc[p], false, r2);
    Go(s0, r1, p, 0, r2);
    s' := s.(pc := s.pc[p := Scan(i + 1, true)]);
    assert s'.pc == r2.pc[p := Scan(i + 1, true)] && s'.plock == r2.plock[i := NULL];
    assert ReapStep(r2, p, r2.pc[p], false, s');
    Go(s0, r2, p, 0, s');
  }

  /** A wait by p, whose only child is i and no zombie: it goes to sleep. */
  lemma WaitSleeps(s0: State, s: State, p: int, i: nat) returns (s': State)
    requires Reachable(s0, s) && Shape(s) && Slot(s, p) && Slot(s, i) && i != p && s.pc[p] == User && Unlocked(s)
    requires s.st[i] != Zombie && forall j | 0 <= j < |s.pc| :: s.parent[j] == p <==> j == i
    ensures Reachable(s0, s') && s' == s.(pc := s.pc[p := WaitOff], st := s.st[p := Sleeping])
  {
    var r1 := s.(pc := s.pc[p := WaitLock]);
    assert WaitStep(s, p, s.pc[p], false, r1);
    Go(s0, s, p, 0, r1);
    var r2 := r1.(pc := r1.pc[p := Scan(0, false)], plock := r1.plock[p := p]);
    assert WaitStep(r1, p, r1.pc[p], false, r2);
    Go(s0, r1, p, 0, r2);
    var r3 := ScanPast(s0, r2, p, false, 0, i);
    var r4 := ScanChild(s0, r3, p, i);
    var r5 := ScanPast(s0, r4, p, true, i + 1, |s.pc|);
    s' := Sleeps(s0, r5, p);
    assert s'.pc == s.pc[p := WaitOff] && s'.plock == s.plock;
  }

  lemma Sleeps(s0: State, s: State, p: int) returns (s': State)
    requires Reachable(s0, s) && Shape(s) && Slot(s, p) && s.pc[p] == Scan(|s.pc|, true)
    ensures Reachable(s0, s')
            && s' == s.(pc := s.pc[p := WaitOff], st := s.st[p := Sleeping], plock := s.plock[p := NULL])
  {
    var r := s.(pc := s.pc[p := WaitSched], st := s.st[p := Sleeping]);
    assert WaitStep(s, p, s.pc[p], false, r);
    Go(s0, s, p, 0, r);
    s' := s.(pc := s.pc[p := WaitOff], st := s.st[p := Sleeping], plock := s.plock[p := NULL]);
    assert s'.pc == r.pc[p := WaitOff];
    assert WaitStep(r, p, r.pc[p], false, s');
    Go(s0, r, p, 0, s');
  }

  /** init forks 1, which forks 2, which forks 3, which exits. */
  ghost predicate Family(s: State) {
    && Shape(s) && |s.pc| >= 4 && Unlocked(s)
    && s.pc[0] == s.pc[1] == s.pc[2] == User && s.pc[3] == Gone
    && s.st[0] == s.st[1] == s.st[2] == Runnable && s.st[3] == Zombie
    && s.parent[0] == NULL && s.parent[1] == 0 && s.parent[2] == 1 && s.parent[3] == 2
    && (forall j | 4 <= j < |s.pc| :: s.parent[j] == NULL)
  }

  lemma MakeThree(s0: State) returns (s: State)
    requires Init(s0) && |s0.pc| >= 4
    ensures Reachable(s0, s) && Shape(s) && |s.pc| == |s0.pc| && Unlocked(s)
    ensures s.pc[0] == s.pc[1] == s.pc[2] == s.pc[3] == User
    ensures s.st[0] == s.st[1] == s.st[2] == s.st[3] == Runnable
    ensures s.parent[0] == NULL && s.parent[1] == 0 && s.parent[2] == 1 && s.parent[3] == 2
    ensures forall j | 4 <= j < |s.pc| :: s.parent[j] == NULL
  {
    assert Path([s0], s0, s0);
    assert s0.st[1] == s0.st[2] == s0.st[3] == Unused;
    var s1 := ForkChild(s0, s0, 0, 1);
    var s2 := ForkChild(s0, s1, 1, 2);
    s := ForkChild(s0, s2, 2, 3);
  }

  lemma MakeFamily(s0: State, x: int) returns (s: State)
    requires Init(s0) && |s0.pc| >= 4
    ensures Reachable(s0, s) && Family(s)
  {
    var s1 := MakeThree(s0);
    var s2 := ExitStart(s0, s1, 3, x);
    var s3 := ExitLocks(s0, s2, 3, x, 2);
    var s4 := ReparentPast(s0, s3, 3, x, 2, 0, |s3.pc|);
    s := ExitEnd(s0, s4, 3, x, 2);
  }

  /** init asleep with no zombie child; 2 is past its wakeup of init, and has a zombie child. */
  ghost predicate Asleep(s: State, x: int) {
    && Shape(s) && |s.pc| >= 4 && Unlocked(s) && s.pc[2] == ExitRead(x)
    && s.st[0] == Sleeping && s.st[1] == Runnable && s.st[3] == Zombie
    && s.parent[0] == NULL && s.parent[1] == 0 && s.parent[2] == 1 && s.parent[3] == 2
    && (forall j | 4 <= j < |s.pc| :: s.parent[j] == NULL)
  }

  lemma MakeAsleep(s0: State, x: int) returns (s: State)
    requires Init(s0) && |s0.pc| >= 4
    ensures Reachable(s0, s) && Asleep(s, x)
  {
    var s1 := MakeFamily(s0, x);
    var s2 := ExitStart(s0, s1, 2, x);
    s := WaitSleeps(s0, s2, INIT, 1);
  }

  /** A zombie given to a sleeping init does not wake it. From every start with room for four processes there is a run
      after which no lock is held, init sleeps in wait, and it has a zombie child: process 2 has woken init early in
      its exit, init has gone back to sleep, and only then has 2 given its zombie child 3 away. */
  lemma InitMayMiss(s0: State, x: int) returns (s: State)
    requires Init(s0) && |s0.pc| >= 4
    ensures Reachable(s0, s) && Shape(s) && |s.pc| >= 4 && Unlocked(s)
    ensures s.st[INIT] == Sleeping && s.parent[3] == INIT && s.st[3] == Zombie && 3 in s.adopted
  {
    var s3 := MakeAsleep(s0, x);
    var s4 := ExitLocks(s0, s3, 2, x, 1);
    var s5 := ReparentPast(s0, s4, 2, x, 1, 0, 3);
    var s6 := ReparentGive(s0, s5, 2, x, 1, 3);
    var s7 := ReparentPast(s0, s6, 2, x, 1, 4, |s6.pc|);
    s := ExitEnd(s0, s7, 2, x, 1);
  }
}
