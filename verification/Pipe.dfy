/** Pipes: a ring of PIPESIZE bytes under one lock, for any number of reading, writing and closing processes.

    One step is one turn of a loop under the pipe's lock. Sleeping lets go of the lock in the same step, and waking
    makes every sleeper on the channel want the lock again. `accepted` and `taken` record the bytes put in and taken
    out so far; `rfd` and `wfd` are the processes that hold an open descriptor of either end.
 */
module Pipe {

  const PIPESIZE := 512
  const U32 := 0x1_0000_0000

  datatype Pc =
    | Idle
    | WWant(src: seq<int>, i: int)  // pipewrite: wants the lock, i bytes written
    | WLoop(src: seq<int>, i: int)  // holds the lock
    | WSleep(src: seq<int>, i: int) // asleep on &pi->nwrite
    | RWant(n: int)                 // piperead: wants the lock
    | RTest(n: int)                 // holds the lock, at the test for an empty pipe
    | RLoop(n: int, got: seq<int>)  // holds the lock, has read got
    | RSleep(n: int)                // asleep on &pi->nread
    | CWant(w: bool)                // pipeclose of the write end or the read end: wants the lock

  /** `lost` records that, since readers were last woken, a writer gave up on a full pipe while one was asleep; rclose
      and wclose record who closes an end. */
  datatype State = State(
    data: seq<int>, nread: int, nwrite: int, readopen: bool, writeopen: bool, lock: int, freed: int,
    rfd: set<int>, wfd: set<int>, rclose: int, wclose: int,
    pc: seq<Pc>, killed: seq<bool>, accepted: seq<int>, taken: seq<int>, lost: bool)

  const NOBODY := -1

  predicate Proc(s: State, p: int) {
    0 <= p < |s.pc|
  }

  /** wakeup(&pi->nread) and wakeup(&pi->nwrite). */
  function WakeReader(pc: Pc): (r: Pc) {
    if pc.RSleep? then RWant(pc.n) else pc
  }

  function WakeWriter(pc: Pc): (r: Pc) {
    if pc.WSleep? then WWant(pc.src, pc.i) else pc
  }

  function WakeReaders(pc: seq<Pc>): (r: seq<Pc>)
    ensures |r| == |pc| && forall p | 0 <= p < |pc| :: r[p] == WakeReader(pc[p])
  {
    seq(|pc|, p requires 0 <= p < |pc| => WakeReader(pc[p]))
  }

  function WakeWriters(pc: seq<Pc>): (r: seq<Pc>)
    ensures |r| == |pc| && forall p | 0 <= p < |pc| :: r[p] == WakeWriter(pc[p])
  {
    seq(|pc|, p requires 0 <= p < |pc| => WakeWriter(pc[p]))
  }

  predicate Full(s: State) {
    s.nwrite == (s.nread + PIPESIZE) % U32
  }

  predicate Empty(s: State) {
    s.nread == s.nwrite
  }

  ghost predicate ReaderAsleep(s: State) {
    exists q | Proc(s, q) :: s.pc[q].RSleep?
  }

  // ---- steps ----

  /** A process outside the pipe starts an operation, or gives another process one of its descriptors. */
  ghost predicate Begin(s: State, p: int, s': State)
    requires Proc(s, p)
  {
    || (p in s.wfd && exists src {:trigger WWant(src, 0)} :: s' == s.(pc := s.pc[p := WWant(src, 0)]))
    || (p in s.rfd && exists n {:trigger RWant(n)} :: s' == s.(pc := s.pc[p := RWant(n)]))
    || (p in s.rfd && exists q {:trigger Proc(s, q)} | Proc(s, q) :: s' == s.(rfd := s.rfd + {q}))
    || (p in s.wfd && exists q {:trigger Proc(s, q)} | Proc(s, q) :: s' == s.(wfd := s.wfd + {q}))
    || (p in s.rfd && s' == if s.rfd == {p} then s.(rfd := {}, rclose := p, pc := s.pc[p := CWant(false)])
       else s.(rfd := s.rfd - {p}))
    || (p in s.wfd && s' == if s.wfd == {p} then s.(wfd := {}, wclose := p, pc := s.pc[p := CWant(true)])
       else s.(wfd := s.wfd - {p}))
  }

  /** Taking the lock. */
  predicate Acquire(s: State, p: int, s': State)
    requires Proc(s, p)
  {
    s.lock == NOBODY &&
    match s.pc[p]
    case WWant(src, i) => s' == s.(lock := p, pc := s.pc[p := WLoop(src, i)])
    case RWant(n) => s' == s.(lock := p, pc := s.pc[p := RTest(n)])
    case _ => false
  }

  function WriteDone(s: State, p: int): (s': State)
    requires Proc(s, p)
  {
    s.(lock := NOBODY, pc := WakeReaders(s.pc)[p := Idle], lost := false)
  }

  function ReadDone(s: State, p: int): (s': State)
    requires Proc(s, p)
  {
    s.(lock := NOBODY, pc := WakeWriters(s.pc)[p := Idle])
  }

  function Put(s: State, p: int, src: seq<int>, i: int): (s': State)
    requires Proc(s, p) && |s.data| == PIPESIZE && 0 <= i < |src|
  {
    s.(data := s.data[s.nwrite % PIPESIZE := src[i]], nwrite := (s.nwrite + 1) % U32,
       accepted := s.accepted + [src[i]], pc := s.pc[p := WLoop(src, i + 1)])
  }

  /** A turn of pipewrite's loop. */
  ghost predicate WriteStep(s: State, p: int, src: seq<int>, i: int, s': State)
    requires Proc(s, p) && |s.data| == PIPESIZE
  {
    if !(0 <= i < |src|) then
      s' == WriteDone(s, p)
    else if Full(s) then
      if !s.readopen || (p < |s.killed| && s.killed[p]) then
        s' == s.(lock := NOBODY, pc := s.pc[p := Idle], lost := s.lost || ReaderAsleep(s))
      else
        s' == s.(lock := NOBODY, pc := WakeReaders(s.pc)[p := WSleep(src, i)], lost := false)
    else
      s' == Put(s, p, src, i) || s' == WriteDone(s, p)
  }

  function Take(s: State): (s': State)
    requires |s.data| == PIPESIZE
  {
    s.(nread := (s.nread + 1) % U32, taken := s.taken + [s.data[s.nread % PIPESIZE]])
  }

  /** piperead's test for an empty pipe. */
  predicate ReadTest(s: State, p: int, n: int, s': State)
    requires Proc(s, p)
  {
    if Empty(s) && s.writeopen then
      if p < |s.killed| && s.killed[p] then s' == s.(lock := NOBODY, pc := s.pc[p := Idle])
      else s' == s.(lock := NOBODY, pc := s.pc[p := RSleep(n)])
    else
      s' == s.(pc := s.pc[p := RLoop(n, [])])
  }

  /** A turn of piperead's loop; the copy out of a byte already taken may fail. */
  ghost predicate ReadStep(s: State, p: int, n: int, got: seq<int>, s': State)
    requires Proc(s, p) && |s.data| == PIPESIZE
  {
    if |got| < n && !Empty(s) then
      var t := Take(s);
      s' == t.(pc := s.pc[p := RLoop(n, got + [s.data[s.nread % PIPESIZE]])]) || s' == ReadDone(t, p)
    else
      s' == ReadDone(s, p)
  }

  /** pipeclose, which frees the page when both ends are closed. */
  function Closed(s: State, p: int, w: bool): (s': State)
    requires Proc(s, p)
  {
    var ro, wo := s.readopen && w, s.writeopen && !w;
    s.(readopen := ro, writeopen := wo, freed := s.freed + if !ro && !wo then 1 else 0,
       pc := (if w then WakeReaders(s.pc) else WakeWriters(s.pc))[p := Idle], lost := s.lost && !w)
  }

  ghost predicate Step(s: State, p: int, s': State)
    requires Proc(s, p) && |s.data| == PIPESIZE
  {
    match s.pc[p]
    case Idle => Begin(s, p, s')
    case WWant(_, _) => Acquire(s, p, s')
    case RWant(_) => Acquire(s, p, s')
    case WLoop(src, i) => WriteStep(s, p, src, i, s')
    case RTest(n) => ReadTest(s, p, n, s')
    case RLoop(n, got) => ReadStep(s, p, n, got, s')
    case CWant(w) => s.lock == NOBODY && s' == Closed(s, p, w)
    case WSleep(_, _) => false
    case RSleep(_) => false
  }

  /** kill, which also wakes its victim. */
  predicate Kill(s: State, q: int, s': State)
    requires Proc(s, q)
  {
    q < |s.killed| && s' == s.(killed := s.killed[q := true], pc := s.pc[q := WakeReader(WakeWriter(s.pc[q]))])
  }

  ghost predicate Next(s: State, s': State) {
    |s.data| == PIPESIZE &&
    ((exists p | Proc(s, p) :: Step(s, p, s')) || (exists q | Proc(s, q) :: Kill(s, q, s')))
  }

  ghost predicate Init(s: State) {
    && |s.data| == PIPESIZE && s.nread == s.nwrite == 0 && s.readopen && s.writeopen && s.lock == NOBODY && s.freed == 0
    && s.rfd != {} && s.wfd != {} && s.rclose == s.wclose == NOBODY && s.accepted == s.taken == [] && !s.lost
    && |s.killed| == |s.pc| && (forall p | Proc(s, p) :: s.pc[p] == Idle)
    && (forall p | p in s.rfd || p in s.wfd :: Proc(s, p))
  }

  // ---- invariant ----

  /** The ring holds the bytes accepted and not yet taken, and the 32-bit counters count them. */
  ghost predicate Ring(s: State) {
    && |s.data| == PIPESIZE && s.taken <= s.accepted && |s.accepted| - |s.taken| <= PIPESIZE
    && s.nread == |s.taken| % U32 && s.nwrite == |s.accepted| % U32
    && (forall t | |s.taken| <= t < |s.accepted| :: s.data[t % PIPESIZE] == s.accepted[t])
  }

  /** got is what was taken out last. */
  predicate Got(taken: seq<int>, got: seq<int>) {
    |got| <= |taken| && got == taken[|taken| - |got|..]
  }

  /** Who may be where. */
  ghost predicate At(s: State, p: int)
    requires Proc(s, p)
  {
    && (s.pc[p].WLoop? || s.pc[p].RTest? || s.pc[p].RLoop? <==> s.lock == p)
    && (s.pc[p].WWant? || s.pc[p].WLoop? || s.pc[p].WSleep? ==> p in s.wfd)
    && (s.pc[p].RWant? || s.pc[p].RTest? || s.pc[p].RLoop? || s.pc[p].RSleep? ==> p in s.rfd)
    && (s.pc[p].RLoop? ==> Got(s.taken, s.pc[p].got) && (s.pc[p].got == [] ==> !Empty(s) || !s.writeopen))
    && (s.pc[p] == CWant(false) ==> s.rclose == p)
    && (s.pc[p] == CWant(true) ==> s.wclose == p)
  }

  /** A sleeping reader has nothing to read, unless the lock's holder is still to wake it, or a wakeup was lost. */
  ghost predicate SleepAt(s: State, p: int)
    requires Proc(s, p)
  {
    && (s.pc[p].RSleep? ==> s.lost || (Empty(s) && s.writeopen) || (Proc(s, s.lock) && s.pc[s.lock].WLoop?))
    && (s.pc[p].WSleep? ==> (Full(s) && s.readopen) || (Proc(s, s.lock) && s.pc[s.lock].RLoop?))
  }

  predicate Closing(s: State, p: int, w: bool) {
    Proc(s, p) && s.pc[p] == CWant(w)
  }

  /** An end is open while a process holds it open or is about to close it; the page is freed when both are closed. */
  predicate Ends(s: State) {
    && (s.readopen <==> s.rfd != {} || Closing(s, s.rclose, false))
    && (s.writeopen <==> s.wfd != {} || Closing(s, s.wclose, true))
    && (s.rfd != {} ==> !Closing(s, s.rclose, false))
    && (s.wfd != {} ==> !Closing(s, s.wclose, true))
    && s.freed == if s.readopen || s.writeopen then 0 else 1
  }

  ghost predicate Inv(s: State) {
    && Ring(s) && Ends(s) && |s.killed| == |s.pc| && (s.lock == NOBODY || Proc(s, s.lock))
    && (forall p | p in s.rfd || p in s.wfd :: Proc(s, p))
    && (forall p {:trigger At(s, p)} | Proc(s, p) :: At(s, p))
    && (forall p {:trigger SleepAt(s, p)} | Proc(s, p) :: SleepAt(s, p))
  }

  lemma InitInv(s: State)
    requires Init(s)
    ensures Inv(s)
  {
  }

  lemma FullIff(s: State)
    requires Ring(s)
    ensures Full(s) <==> |s.accepted| - |s.taken| == PIPESIZE
    ensures Empty(s) <==> |s.accepted| == |s.taken|
  {
    var a, t := |s.accepted|, |s.taken|;
    assert (t + PIPESIZE) % U32 == (s.nread + PIPESIZE) % U32;
  }

  lemma Wrap(a: int)
    requires 0 <= a
    ensures a % U32 % PIPESIZE == a % PIPESIZE && (a % U32 + 1) % U32 == (a + 1) % U32
  {
  }

  lemma OtherCell(t: int, a: int)
    requires 0 <= t < a < t + PIPESIZE
    ensures t % PIPESIZE != a % PIPESIZE
  {
  }

  lemma PutRing(s: State, p: int, src: seq<int>, i: int)
    requires Ring(s) && |s.accepted| - |s.taken| < PIPESIZE && Proc(s, p) && 0 <= i < |src|
    ensures Ring(Put(s, p, src, i))
  {
    var s' := Put(s, p, src, i);
    var a := |s.accepted|;
    Wrap(a);
    forall t | |s.taken| <= t < |s'.accepted| ensures s'.data[t % PIPESIZE] == s'.accepted[t] {
      if t < a {
        OtherCell(t, a);
        assert s.data[t % PIPESIZE] == s.accepted[t];
      }
    }
  }

  lemma TakeRing(s: State)
    requires Ring(s) && |s.taken| < |s.accepted|
    ensures Ring(Take(s))
  {
    var t := |s.taken|;
    Wrap(t);
    assert s.data[t % PIPESIZE] == s.accepted[t];
    assert s.taken + [s.accepted[t]] == s.accepted[..t + 1];
  }

  /** Starting to read or write. */
  lemma BeginCall(s: State, p: int, at: Pc)
    requires Inv(s) && Proc(s, p) && s.pc[p] == Idle && ((at.WWant? && p in s.wfd) || (at.RWant? && p in s.rfd))
    ensures Inv(s.(pc := s.pc[p := at]))
  {
    var s' := s.(pc := s.pc[p := at]);
    forall q | Proc(s', q) ensures At(s', q) && SleepAt(s', q) {
      assert At(s, q) && SleepAt(s, q) && At(s, p);
    }
  }

  /** Giving and dropping descriptors, short of the last one. */
  lemma BeginShare(s: State, s': State)
    requires Inv(s) && s' == s.(rfd := s'.rfd, wfd := s'.wfd) && (forall q | q in s'.rfd || q in s'.wfd :: Proc(s, q))
    requires (s.rfd == {} <==> s'.rfd == {}) && (s.wfd == {} <==> s'.wfd == {})
    requires forall q | Proc(s, q) && s.pc[q] != Idle :: (q in s.rfd ==> q in s'.rfd) && (q in s.wfd ==> q in s'.wfd)
    ensures Inv(s')
  {
    forall q | Proc(s', q) ensures At(s', q) && SleepAt(s', q) {
      assert At(s, q) && SleepAt(s, q);
    }
  }

  /** Dropping the last descriptor of an end, and going on to close it. */
  lemma BeginClose(s: State, p: int, w: bool, s': State)
    requires Inv(s) && Proc(s, p) && s.pc[p] == Idle
    requires if w then s.wfd == {p} && s' == s.(wfd := {}, wclose := p, pc := s.pc[p := CWant(true)])
             else s.rfd == {p} && s' == s.(rfd := {}, rclose := p, pc := s.pc[p := CWant(false)])
    ensures Inv(s')
  {
    forall q | Proc(s', q) ensures At(s', q) && SleepAt(s', q) {
      assert At(s, q) && SleepAt(s, q) && At(s, p);
    }
  }

  lemma BeginInv(s: State, p: int, s': State)
    requires Inv(s) && Proc(s, p) && s.pc[p] == Idle && Begin(s, p, s')
    ensures Inv(s')
  {
    if s'.pc != s.pc && s'.pc[p].CWant? {
      BeginClose(s, p, s'.pc[p].w, s');
    } else if s'.pc != s.pc {
      BeginCall(s, p, s'.pc[p]);
    } else {
      BeginShare(s, s');
    }
  }

  lemma AcquireInv(s: State, p: int, s': State)
    requires Inv(s) && Proc(s, p) && Acquire(s, p, s')
    ensures Inv(s')
  {
    forall q | Proc(s', q) ensures At(s', q) && SleepAt(s', q) {
      assert At(s, q) && SleepAt(s, q) && At(s, p);
    }
  }

  lemma PutInv(s: State, p: int, src: seq<int>, i: int)
    requires Inv(s) && Proc(s, p) && s.pc[p] == WLoop(src, i) && 0 <= i < |src| && !Full(s)
    ensures Inv(Put(s, p, src, i))
  {
    var s' := Put(s, p, src, i);
    FullIff(s);
    PutRing(s, p, src, i);
    FullIff(s');
    forall q | Proc(s', q) ensures At(s', q) && SleepAt(s', q) {
      assert At(s, q) && SleepAt(s, q) && At(s, p);
    }
  }

  lemma WriteInv(s: State, p: int, src: seq<int>, i: int, s': State)
    requires Inv(s) && Proc(s, p) && s.pc[p] == WLoop(src, i) && WriteStep(s, p, src, i, s')
    ensures Inv(s')
  {
    if 0 <= i < |src| && !Full(s) && s' == Put(s, p, src, i) {
      PutInv(s, p, src, i);
    } else {
      forall q | Proc(s', q) ensures At(s', q) && SleepAt(s', q) {
        assert At(s, q) && SleepAt(s, q) && At(s, p);
      }
    }
  }

  lemma ReadTestInv(s: State, p: int, n: int, s': State)
    requires Inv(s) && Proc(s, p) && s.pc[p] == RTest(n) && ReadTest(s, p, n, s')
    ensures Inv(s')
  {
    forall q | Proc(s', q) ensures At(s', q) && SleepAt(s', q) {
      assert At(s, q) && SleepAt(s, q) && At(s, p);
    }
  }

  lemma GotMore(taken: seq<int>, got: seq<int>, c: int)
    requires Got(taken, got)
    ensures Got(taken + [c], got + [c])
  {
    assert (taken + [c])[|taken| - |got|..] == taken[|taken| - |got|..] + [c];
  }

  /** A byte taken out. */
  function Taking(s: State, p: int, n: int, got: seq<int>): (s': State)
    requires Proc(s, p) && |s.data| == PIPESIZE
  {
    Take(s).(pc := s.pc[p := RLoop(n, got + [s.data[s.nread % PIPESIZE]])])
  }

  lemma TakingInv(s: State, p: int, n: int, got: seq<int>)
    requires Inv(s) && Proc(s, p) && s.pc[p] == RLoop(n, got) && !Empty(s)
    ensures Inv(Taking(s, p, n, got))
  {
    var s' := Taking(s, p, n, got);
    FullIff(s);
    TakeRing(s);
    assert At(s, p);
    GotMore(s.taken, got, s.data[s.nread % PIPESIZE]);
    forall q | Proc(s', q) ensures At(s', q) && SleepAt(s', q) {
      assert At(s, q) && SleepAt(s, q);
    }
  }

  lemma ReadDoneInv(s: State, p: int)
    requires Inv(s) && Proc(s, p) && s.pc[p].RLoop?
    ensures Inv(ReadDone(s, p))
  {
    var s' := ReadDone(s, p);
    forall q | Proc(s', q) ensures At(s', q) && SleepAt(s', q) {
      assert At(s, q) && SleepAt(s, q) && At(s, p);
    }
  }

  lemma ReadInv(s: State, p: int, n: int, got: seq<int>, s': State)
    requires Inv(s) && Proc(s, p) && s.pc[p] == RLoop(n, got) && ReadStep(s, p, n, got, s')
    ensures Inv(s')
  {
    if |got| < n && !Empty(s) {
      var t := Taking(s, p, n, got);
      TakingInv(s, p, n, got);
      ReadDoneInv(t, p);
      assert WakeWriters(t.pc)[p := Idle] == WakeWriters(s.pc)[p := Idle];
    } else {
      ReadDoneInv(s, p);
    }
  }

  lemma CloseInv(s: State, p: int, w: bool)
    requires Inv(s) && Proc(s, p) && s.pc[p] == CWant(w) && s.lock == NOBODY
    ensures Inv(Closed(s, p, w))
  {
    var s' := Closed(s, p, w);
    assert At(s, p);
    forall q | Proc(s', q) ensures At(s', q) && SleepAt(s', q) {
      assert At(s, q) && SleepAt(s, q);
    }
  }

  lemma KillInv(s: State, q: int, s': State)
    requires Inv(s) && Proc(s, q) && Kill(s, q, s')
    ensures Inv(s')
  {
    forall p | Proc(s', p) ensures At(s', p) && SleepAt(s', p) {
      assert At(s, p) && SleepAt(s, p) && At(s, q);
    }
  }

  lemma NextInv(s: State, s': State)
    requires Inv(s) && Next(s, s')
    ensures Inv(s')
  {
    if p :| Proc(s, p) && Step(s, p, s') {
      match s.pc[p]
      case Idle => BeginInv(s, p, s');
      case WWant(_, _) => AcquireInv(s, p, s');
      case RWant(_) => AcquireInv(s, p, s');
      case WLoop(src, i) => WriteInv(s, p, src, i, s');
      case RTest(n) => ReadTestInv(s, p, n, s');
      case RLoop(n, got) => ReadInv(s, p, n, got, s');
      case CWant(w) => CloseInv(s, p, w);
    } else {
      var q :| Proc(s, q) && Kill(s, q, s');
      KillInv(s, q, s');
    }
  }

  // ---- whole runs ----

  ghost predicate StepAt(ss: seq<State>, i: int)
    requires 0 <= i < |ss| - 1
  {
    Next(ss[i], ss[i + 1])
  }

  ghost predicate Run(ss: seq<State>) {
    |ss| > 0 && Init(ss[0]) && forall i {:trigger StepAt(ss, i)} | 0 <= i < |ss| - 1 :: StepAt(ss, i)
  }

  lemma {:induction false} RunInv(ss: seq<State>, k: int)
    requires Run(ss) && 0 <= k < |ss|
    ensures Inv(ss[k])
  {
    if k == 0 {
      InitInv(ss[0]);
    } else {
      RunInv(ss, k - 1);
      assert StepAt(ss, k - 1);
      NextInv(ss[k - 1], ss[k]);
    }
  }

  /** Bytes come out in the order they went in, and never more than PIPESIZE are inside, however the counters wrap. */
  lemma Fifo(ss: seq<State>, k: int)
    requires Run(ss) && 0 <= k < |ss|
    ensures var s := ss[k]; s.taken <= s.accepted && |s.accepted| - |s.taken| <= PIPESIZE
    ensures var s := ss[k]; (Empty(s) <==> s.taken == s.accepted) && (Full(s) <==> |s.accepted| - |s.taken| == PIPESIZE)
  {
    RunInv(ss, k);
    FullIff(ss[k]);
  }

  /** What a read returns is the run of bytes it took, and a read for n > 0 bytes comes back with none, its copies all
      good, only when the pipe is empty and its write end closed. */
  lemma ReadReturns(ss: seq<State>, k: int, p: int, n: int, got: seq<int>)
    requires Run(ss) && 0 <= k < |ss| && Proc(ss[k], p) && ss[k].pc[p] == RLoop(n, got)
    ensures |ss[k].data| == PIPESIZE && Got(ss[k].taken, got)
    ensures n > 0 && got == [] && ReadStep(ss[k], p, n, got, ReadDone(ss[k], p)) ==> Empty(ss[k]) && !ss[k].writeopen
  {
    RunInv(ss, k);
    assert At(ss[k], p);
    var s := ss[k];
    if n > 0 && got == [] && !Empty(s) {
      assert Take(s).taken != s.taken;
    }
  }

  /** The page is freed at most once, and then nobody is in the pipe or can get in. */
  lemma FreedOnce(ss: seq<State>, k: int)
    requires Run(ss) && 0 <= k < |ss|
    ensures var s := ss[k]; 0 <= s.freed <= 1 && (s.freed == 1 <==> !s.readopen && !s.writeopen)
    ensures var s := ss[k]; s.freed == 1 ==> s.rfd == s.wfd == {} && forall p | Proc(s, p) :: s.pc[p] == Idle
  {
    var s := ss[k];
    RunInv(ss, k);
    if s.freed == 1 {
      forall p | Proc(s, p) ensures s.pc[p] == Idle {
        assert At(s, p);
      }
    }
  }

  /** With the lock free, a sleeping writer waits on a full, open pipe; and so does a sleeping reader on an empty one,
      unless a wakeup was lost. */
  lemma NoLostWakeup(ss: seq<State>, k: int, p: int)
    requires Run(ss) && 0 <= k < |ss| && Proc(ss[k], p) && ss[k].lock == NOBODY
    ensures ss[k].pc[p].WSleep? ==> Full(ss[k]) && ss[k].readopen
    ensures ss[k].pc[p].RSleep? && !ss[k].lost ==> Empty(ss[k]) && ss[k].writeopen
  {
    RunInv(ss, k);
    assert SleepAt(ss[k], p);
  }

  /** Writer p is about to give up on a full pipe, being killed or having no reader. */
  predicate GivesUp(s: State, p: int) {
    Proc(s, p) && s.pc[p].WLoop? && 0 <= s.pc[p].i < |s.pc[p].src| && Full(s)
    && (!s.readopen || (p < |s.killed| && s.killed[p]))
  }

  /** A wakeup is lost in exactly one way: a writer gives up while a reader sleeps, and leaves it asleep by
      a full pipe. */
  lemma LostIff(ss: seq<State>, k: int)
    requires Run(ss) && 0 <= k < |ss| - 1 && !ss[k].lost
    ensures |ss[k].data| == PIPESIZE
    ensures ss[k + 1].lost ==> exists p :: GivesUp(ss[k], p) && Step(ss[k], p, ss[k + 1]) && ReaderAsleep(ss[k])
    ensures forall p | GivesUp(ss[k], p) && Step(ss[k], p, ss[k + 1]) && ReaderAsleep(ss[k]) ::
              ss[k + 1].lost && ss[k + 1].lock == NOBODY && !Empty(ss[k + 1]) && ReaderAsleep(ss[k + 1])
  {
    var s, s' := ss[k], ss[k + 1];
    RunInv(ss, k);
    FullIff(s);
    assert StepAt(ss, k);
    forall p | GivesUp(s, p) && Step(s, p, s') && ReaderAsleep(s)
      ensures s'.lost && s'.lock == NOBODY && !Empty(s') && ReaderAsleep(s') {
      var q :| Proc(s, q) && s.pc[q].RSleep?;
      assert s'.pc[q].RSleep?;
    }
    if s'.lost {
      var p :| Proc(s, p) && Step(s, p, s');
      OnlyGivingUp(s, p, s');
    }
  }

  lemma OnlyGivingUp(s: State, p: int, s': State)
    requires |s.data| == PIPESIZE && Proc(s, p) && Step(s, p, s') && !s.lost && s'.lost
    ensures GivesUp(s, p) && ReaderAsleep(s)
  {
  }

  // ---- a run that loses a wakeup ----

  function Zeros(n: nat): (r: seq<int>)
    ensures |r| == n && forall x | 0 <= x < n :: r[x] == 0
  {
    seq(n, _ => 0)
  }

  /** Process 1 reads and sleeps; process 0, killed, writes one byte too many. The j-th state. */
  function Bad(j: int): (s: State)
    requires 0 <= j <= 7 + PIPESIZE
  {
    BadAt(j, if j < 6 then 0 else Least(j - 6, PIPESIZE), Zeros(PIPESIZE + 1))
  }

  function BadAt(j: int, w: int, src: seq<int>): (s: State)
    requires |src| == PIPESIZE + 1 && 0 <= w <= PIPESIZE
  {
    State(Zeros(PIPESIZE), 0, w, true, true,
          if j == 2 then 1 else if 6 <= j <= 6 + PIPESIZE then 0 else NOBODY, 0, {1}, {0}, NOBODY, NOBODY,
          [if j == 5 then WWant(src, 0) else if 6 <= j <= 6 + PIPESIZE then WLoop(src, w) else Idle,
           if j == 0 then Idle else if j == 1 then RWant(1) else if j == 2 then RTest(1) else RSleep(1)],
          [j >= 4, false], Zeros(w), [], j == 7 + PIPESIZE)
  }

  function Least(a: int, b: int): (r: int) {
    if a < b then a else b
  }

  lemma BadStart(j: int)
    requires 0 <= j < 6
    ensures Next(Bad(j), Bad(j + 1))
  {
    var s, s' := Bad(j), Bad(j + 1);
    if j == 0 {
      assert s' == s.(pc := s.pc[1 := RWant(1)]);
      assert Step(s, 1, s');
    } else if j == 1 {
      assert s' == s.(lock := 1, pc := s.pc[1 := RTest(1)]);
      assert Step(s, 1, s');
    } else if j == 2 {
      assert s' == s.(lock := NOBODY, pc := s.pc[1 := RSleep(1)]);
      assert Step(s, 1, s');
    } else if j == 3 {
      assert s' == s.(killed := s.killed[0 := true], pc := s.pc[0 := Idle]);
      assert Kill(s, 0, s');
    } else if j == 4 {
      assert s' == s.(pc := s.pc[0 := WWant(Zeros(PIPESIZE + 1), 0)]);
      assert Step(s, 0, s');
    } else {
      assert s' == s.(lock := 0, pc := s.pc[0 := WLoop(Zeros(PIPESIZE + 1), 0)]);
      assert Step(s, 0, s');
    }
  }

  lemma BadWrite(j: int)
    requires 6 <= j <= 6 + PIPESIZE
    ensures Next(Bad(j), Bad(j + 1))
  {
    var s, s' := Bad(j), Bad(j + 1);
    if j < 6 + PIPESIZE {
      assert s'.data == s.data[s.nwrite % PIPESIZE := 0] && s'.accepted == s.accepted + [0];
      assert s' == Put(s, 0, Zeros(PIPESIZE + 1), j - 6);
    } else {
      assert s.pc[1].RSleep? && ReaderAsleep(s);
      assert s' == s.(lock := NOBODY, pc := s.pc[0 := Idle], lost := true);
    }
    assert Step(s, 0, s');
  }

  /** A reader can be left asleep by a full pipe, with nobody holding the lock and the write end open. */
  lemma WakeupCanBeLost() returns (ss: seq<State>)
    ensures Run(ss) && var s := ss[|ss| - 1]; s.lock == NOBODY && s.writeopen && Full(s) && ReaderAsleep(s)
  {
    ss := seq(8 + PIPESIZE, j requires 0 <= j <= 7 + PIPESIZE => Bad(j));
    forall i | 0 <= i < |ss| - 1 ensures StepAt(ss, i) {
      if i < 6 { BadStart(i); } else { BadWrite(i); }
    }
    assert ss[|ss| - 1].pc[1].RSleep?;
  }
}
