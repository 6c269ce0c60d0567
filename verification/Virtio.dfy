/** The disk driver and its descriptor ring, for any number of processes, with the device running alongside.

    One step is one section of the driver under vdisk_lock, one turn of the interrupt handler's loop, or one action of
    the device. `own`, `phase` and `fly` say who holds which descriptors and how far each request has come; `subm` and
    `done` are the chains submitted and completed so far, of which the device has fetched `fetched` and the interrupt
    handler has seen `acked`.
 */
module Virtio {
  import opened Basics

  const NUM := 8
  const U16 := 0x1_0000
  const NONE := -1

  datatype Pc =
    | Idle
    | Want(b: int, w: bool)   // virtio_disk_rw: about to ask for three descriptors
    | SleepD(b: int, w: bool) // asleep on &disk.free[0]
    | Wait(b: int, w: bool, v: int, i0: int, i1: int, i2: int) // asleep on b, its chain submitted to move v

  datatype Phase = Out | Queued(t: int) | Pending | Completed(t: int) | Acked

  datatype State = State(
    free: seq<bool>, next: seq<int>, more: seq<bool>, dbuf: seq<int>, hwrite: seq<bool>, infob: seq<int>,
    avail: seq<int>, availIdx: int, elems: seq<int>, usedId: int, usedIdx: int,
    devIdx: int, pending: set<int>,
    bdisk: seq<bool>, bufdata: seq<int>, blk: seq<int>, diskdata: seq<int>,
    pc: seq<Pc>, panicked: bool,
    own: seq<int>, phase: seq<Phase>, fly: set<int>, subm: seq<int>, fetched: int, done: seq<int>, acked: int)

  predicate Proc(s: State, p: int) {
    0 <= p < |s.pc|
  }

  predicate Buf(s: State, b: int) {
    0 <= b < |s.bdisk|
  }

  // ---- descriptors ----

  /** alloc_desc's choice: the lowest free descriptor from i on, or -1. */
  function First(free: seq<bool>, i: nat): (r: int)
    requires i <= |free|
    ensures r == NONE || (i <= r < |free| && free[r])
    ensures forall j | i <= j < |free| && (r == NONE || j < r) :: !free[j]
    decreases |free| - i
  {
    if i == |free| then NONE else if free[i] then i else First(free, i + 1)
  }

  function CountFrom(free: seq<bool>, i: nat): (n: nat)
    requires i <= |free|
    decreases |free| - i
  {
    if i == |free| then 0 else Bit(free[i]) + CountFrom(free, i + 1)
  }

  /** How many descriptors are free. */
  function Count(free: seq<bool>): (n: nat) {
    CountFrom(free, 0)
  }

  lemma {:induction false} CountSet(free: seq<bool>, d: nat, v: bool, i: nat)
    requires d < |free| && i <= |free|
    ensures CountFrom(free[d := v], i) == CountFrom(free, i) + if i <= d then Bit(v) - Bit(free[d]) else 0
    decreases |free| - i
  {
    if i < |free| { CountSet(free, d, v, i + 1); }
  }

  lemma {:induction false} CountNone(free: seq<bool>, i: nat)
    requires i <= |free|
    ensures First(free, i) == NONE <==> CountFrom(free, i) == 0
    decreases |free| - i
  {
    if i < |free| { CountNone(free, i + 1); }
  }

  /** alloc3_desc's choice of three descriptors; Triple(-1, ..) if there are not three. */
  datatype Triple = Triple(i0: int, i1: int, i2: int)

  function Three(free: seq<bool>): (t: Triple)
    ensures t.i0 != NONE ==>
              0 <= t.i0 < |free| && 0 <= t.i1 < |free| && 0 <= t.i2 < |free| && free[t.i0] && free[t.i1] && free[t.i2]
    ensures t.i0 != NONE ==> t.i0 != t.i1 && t.i0 != t.i2 && t.i1 != t.i2
  {
    var a := First(free, 0);
    if a == NONE then Triple(NONE, NONE, NONE) else
    var f1 := free[a := false];
    var b := First(f1, 0);
    if b == NONE then Triple(NONE, NONE, NONE) else
    var c := First(f1[b := false], 0);
    if c == NONE then Triple(NONE, NONE, NONE) else Triple(a, b, c)
  }

  /** There are three exactly when at least three are free. */
  lemma ThreeIff(free: seq<bool>)
    ensures Three(free).i0 != NONE <==> Count(free) >= 3
  {
    var a := First(free, 0);
    CountNone(free, 0);
    if a != NONE {
      var f1 := free[a := false];
      CountSet(free, a, false, 0);
      CountNone(f1, 0);
      var b := First(f1, 0);
      if b != NONE {
        CountSet(f1, b, false, 0);
        CountNone(f1[b := false], 0);
      }
    }
  }

  function Taken(free: seq<bool>, t: Triple): (r: seq<bool>)
    requires 0 <= t.i0 < |free| && 0 <= t.i1 < |free| && 0 <= t.i2 < |free|
  {
    free[t.i0 := false][t.i1 := false][t.i2 := false]
  }

  lemma CountTaken(free: seq<bool>, t: Triple)
    requires 0 <= t.i0 < |free| && 0 <= t.i1 < |free| && 0 <= t.i2 < |free| && free[t.i0] && free[t.i1] && free[t.i2]
    requires t.i0 != t.i1 && t.i0 != t.i2 && t.i1 != t.i2
    ensures Count(Taken(free, t)) == Count(free) - 3
  {
    CountSet(free, t.i0, false, 0);
    CountSet(free[t.i0 := false], t.i1, false, 0);
    CountSet(free[t.i0 := false][t.i1 := false], t.i2, false, 0);
  }

  datatype Freed = Panic | Free(free: seq<bool>)

  /** free_chain: frees descriptors from i on along the links, and panics at one that is free already. */
  function FreeChain(free: seq<bool>, next: seq<int>, more: seq<bool>, i: int): (r: Freed)
    requires |next| == |more| == |free|
    decreases |free| - Count(free)
  {
    if !(0 <= i < |free|) || free[i] then Panic else
    assert Count(free[i := true]) == Count(free) + 1 by { CountSet(free, i, true, 0); }
    assert Count(free[i := true]) <= |free| by { CountMost(free[i := true], 0); }
    if more[i] then FreeChain(free[i := true], next, more, next[i]) else Free(free[i := true])
  }

  lemma {:induction false} CountMost(free: seq<bool>, i: nat)
    requires i <= |free|
    ensures CountFrom(free, i) <= |free| - i
    decreases |free| - i
  {
    if i < |free| { CountMost(free, i + 1); }
  }

  /** A chain of three links is freed, all of it. */
  lemma FreeThree(free: seq<bool>, next: seq<int>, more: seq<bool>, t: Triple)
    requires |next| == |more| == |free|
    requires 0 <= t.i0 < |free| && 0 <= t.i1 < |free| && 0 <= t.i2 < |free| && t.i0 != t.i1 && t.i0 != t.i2
             && t.i1 != t.i2
    requires !free[t.i0] && !free[t.i1] && !free[t.i2] && more[t.i0] && more[t.i1] && !more[t.i2] && next[t.i0] == t.i1
             && next[t.i1] == t.i2
    ensures FreeChain(free, next, more, t.i0) == Free(free[t.i0 := true][t.i1 := true][t.i2 := true])
    ensures Count(free[t.i0 := true][t.i1 := true][t.i2 := true]) == Count(free) + 3
  {
    CountSet(free, t.i0, true, 0);
    CountSet(free[t.i0 := true], t.i1, true, 0);
    CountSet(free[t.i0 := true][t.i1 := true], t.i2, true, 0);
    assert FreeChain(free[t.i0 := true][t.i1 := true], next, more, t.i2) ==
             Free(free[t.i0 := true][t.i1 := true][t.i2 := true]);
    assert FreeChain(free[t.i0 := true], next, more, t.i1) == Free(free[t.i0 := true][t.i1 := true][t.i2 := true]);
  }

  // ---- the driver's own code for them ----

  class Descriptors {
    var free: seq<bool>
    var next: seq<nat>
    var more: seq<bool>

    method AllocDesc() returns (r: int)
      modifies `free
      ensures r == First(old(free), 0)
      ensures free == if r == NONE then old(free) else old(free)[r := false]
    {
      var i := 0;
      while i < |free|
        invariant 0 <= i <= |free| && free == old(free) && First(free, 0) == First(free, i)
      {
        if free[i] {
          free := free[i := false];
          return i;
        }
        i := i + 1;
      }
      return NONE;
    }

    /** False where the kernel panics. */
    method FreeDesc(i: nat) returns (ok: bool)
      modifies `free
      ensures ok <==> i < |old(free)| && !old(free)[i]
      ensures free == if ok then old(free)[i := true] else old(free)
    {
      if !(0 <= i < |free|) || free[i] {
        return false;
      }
      free := free[i := true];
      return true;
    }

    method FreeAll(i: nat) returns (ok: bool)
      requires |next| == |more| == |free|
      modifies `free
      ensures ok <==> FreeChain(old(free), next, more, i) != Panic
      ensures ok ==> FreeChain(old(free), next, more, i) == Free(free)
    {
      var d := i;
      ghost var all := FreeChain(free, next, more, i);
      while true
        invariant |free| == |next| && FreeChain(free, next, more, d) == all
        decreases |free| - Count(free)
      {
        ghost var held := free;
        ok := FreeDesc(d);
        if !ok {
          return false;
        }
        CountSet(held, d, true, 0);
        CountMost(free, 0);
        if more[d] {
          d := next[d];
        } else {
          return true;
        }
      }
    }

    /** Three descriptors, or none at all. */
    method Alloc3() returns (t: Triple, woke: bool)
      modifies `free
      ensures t == Three(old(free))
      ensures t.i0 == NONE ==> free == old(free)
      ensures t.i0 != NONE ==> free == Taken(old(free), t)
      ensures woke <==> t.i0 == NONE && First(old(free), 0) != NONE
    {
      var idx: seq<int> := [];
      var i := 0;
      while i < 3
        invariant 0 <= i <= 3 && |idx| == i && |free| == |old(free)|
        invariant i > 0 ==> idx[0] == First(old(free), 0) && idx[0] != NONE
        invariant i > 1 ==> idx[1] == First(old(free)[idx[0] := false], 0) && idx[1] != NONE
        invariant i > 2 ==> idx[2] == First(old(free)[idx[0] := false][idx[1] := false], 0) && idx[2] != NONE
        invariant i == 0 ==> free == old(free)
        invariant i == 1 ==> free == old(free)[idx[0] := false]
        invariant i == 2 ==> free == old(free)[idx[0] := false][idx[1] := false]
        invariant i == 3 ==> free == old(free)[idx[0] := false][idx[1] := false][idx[2] := false]
      {
        var d := AllocDesc();
        if d < 0 {
          var j := 0;
          ghost var held := free;
          while j < i
            invariant 0 <= j <= i && |free| == |old(free)|
            invariant forall k | 0 <= k < |free| ::
                        free[k] == if (j > 0 && k == idx[0]) || (j > 1 && k == idx[1]) then true else held[k]
          {
            var ok := FreeDesc(idx[j]);
            j := j + 1;
          }
          assert free == old(free);
          return Triple(NONE, NONE, NONE), i > 0;
        }
        idx := idx + [d];
        i := i + 1;
      }
      return Triple(idx[0], idx[1], idx[2]), false;
    }
  }

  // ---- steps ----

  function WakeD(pc: Pc): (r: Pc) {
    if pc.SleepD? then Want(pc.b, pc.w) else pc
  }

  /** wakeup(&disk.free[0]). */
  function WakeAll(pc: seq<Pc>): (r: seq<Pc>)
    ensures |r| == |pc| && forall p | 0 <= p < |pc| :: r[p] == WakeD(pc[p])
  {
    seq(|pc|, p requires 0 <= p < |pc| => WakeD(pc[p]))
  }

  /** Process p is at work on a buffer of block k. */
  predicate Uses(s: State, p: int, k: int) {
    Proc(s, p) && s.pc[p] != Idle && 0 <= s.pc[p].b < |s.blk| && s.blk[s.pc[p].b] == k
  }

  /** A caller comes with a buffer it has locked, the only one for its block. */
  ghost predicate Start(s: State, p: int, b: int, w: bool, s': State)
    requires Proc(s, p)
  {
    && s.pc[p] == Idle && Buf(s, b) && b < |s.blk| && !s.bdisk[b]
    && (forall q {:trigger Uses(s, q, s.blk[b])} :: !Uses(s, q, s.blk[b]))
    && s' == s.(pc := s.pc[p := Want(b, w)])
  }

  predicate Wf(s: State) {
    && |s.free| == |s.next| == |s.more| == |s.dbuf| == |s.hwrite| == |s.infob| == |s.own| == NUM
    && |s.avail| == |s.elems| == NUM && |s.phase| == |s.pc|
    && |s.bufdata| == |s.blk| == |s.bdisk| && (forall b | 0 <= b < |s.blk| :: 0 <= s.blk[b] < |s.diskdata|)
    && 0 <= s.availIdx < U16 && 0 <= s.devIdx < U16 && 0 <= s.usedId < U16 && 0 <= s.usedIdx < NUM
  }

  /** Not enough descriptors: whatever was taken is given back, which wakes the others. */
  function Fail(s: State, p: int, b: int, w: bool): (s': State)
    requires Wf(s) && Proc(s, p)
  {
    s.(pc := (if First(s.free, 0) == NONE then s.pc else WakeAll(s.pc))[p := SleepD(b, w)])
  }

  /** Formatting the chain t and handing it to the device. */
  function Submit(s: State, p: int, b: int, w: bool, t: Triple): (s': State)
    requires Wf(s) && Proc(s, p) && Buf(s, b) && 0 <= t.i0 < NUM && 0 <= t.i1 < NUM && 0 <= t.i2 < NUM
  {
    var v := if w then s.bufdata[b] else s.diskdata[s.blk[b]];
    s.(free := Taken(s.free, t),
       next := s.next[t.i0 := t.i1][t.i1 := t.i2][t.i2 := 0],
       more := s.more[t.i0 := true][t.i1 := true][t.i2 := false],
       hwrite := s.hwrite[t.i0 := w], dbuf := s.dbuf[t.i1 := b], infob := s.infob[t.i0 := b],
       bdisk := s.bdisk[b := true],
       avail := s.avail[s.availIdx % NUM := t.i0], availIdx := (s.availIdx + 1) % U16,
       pc := s.pc[p := Wait(b, w, v, t.i0, t.i1, t.i2)],
       own := s.own[t.i0 := p][t.i1 := p][t.i2 := p], phase := s.phase[p := Queued(|s.subm|)],
       fly := s.fly + {p}, subm := s.subm + [t.i0])
  }

  predicate Try(s: State, p: int, b: int, w: bool, s': State)
    requires Wf(s) && Proc(s, p) && Buf(s, b)
  {
    var t := Three(s.free);
    s' == if t.i0 == NONE then Fail(s, p, b, w) else Submit(s, p, b, w, t)
  }

  /** The request is done: its chain is freed. */
  function Finish(s: State, p: int, i0: int): (s': State)
    requires Wf(s) && Proc(s, p) && 0 <= i0 < NUM
  {
    var r := FreeChain(s.free, s.next, s.more, i0);
    if r == Panic then s.(panicked := true)
    else
      s.(infob := s.infob[i0 := NONE], free := r.free, pc := WakeAll(s.pc)[p := Idle], phase := s.phase[p := Out],
        fly := s.fly - {p})
  }

  /** The device takes the next chain from the ring. */
  predicate Fetch(s: State, s': State)
    requires Wf(s)
  {
    s.devIdx != s.availIdx &&
    var h := s.avail[s.devIdx % NUM];
    s' == s.(devIdx := (s.devIdx + 1) % U16, pending := s.pending + {h}, fetched := s.fetched + 1,
             phase := if 0 <= h < NUM && Proc(s, s.own[h]) then s.phase[s.own[h] := Pending] else s.phase)
  }

  /** The device carries out a chain it has taken, in any order, following its links. */
  predicate Complete(s: State, h: int, s': State)
    requires Wf(s)
  {
    h in s.pending && 0 <= h < NUM && 0 <= s.next[h] < NUM && Buf(s, s.dbuf[s.next[h]]) &&
    var b := s.dbuf[s.next[h]];
    var t := s.(elems := s.elems[s.usedId % NUM := h], usedId := (s.usedId + 1) % U16, pending := s.pending - {h},
      done := s.done + [h],
                phase := if Proc(s, s.own[h]) then s.phase[s.own[h] := Completed(|s.done|)] else s.phase);
    s' == if s.hwrite[h]
          then t.(diskdata := s.diskdata[s.blk[b] := s.bufdata[b]])
          else t.(bufdata := s.bufdata[b := s.diskdata[s.blk[b]]])
  }

  /** A turn of virtio_disk_intr's loop. */
  predicate Intr(s: State, s': State)
    requires Wf(s)
  {
    s.usedIdx % NUM != s.usedId % NUM &&
    var id := s.elems[s.usedIdx];
    if 0 <= id < NUM && Buf(s, s.infob[id]) then
      s' == s.(bdisk := s.bdisk[s.infob[id] := false], usedIdx := (s.usedIdx + 1) % NUM, acked := s.acked + 1,
               phase := if Proc(s, s.own[id]) then s.phase[s.own[id] := Acked] else s.phase)
    else
      s' == s.(panicked := true)
  }

  ghost predicate Step(s: State, p: int, s': State)
    requires Wf(s) && Proc(s, p)
  {
    match s.pc[p]
    case Idle => exists b, w {:trigger Want(b, w)} :: Start(s, p, b, w, s')
    case Want(b, w) => Buf(s, b) && Try(s, p, b, w, s')
    case SleepD(_, _) => false
    case Wait(b, w, v, i0, i1, i2) => Buf(s, b) && !s.bdisk[b] && 0 <= i0 < NUM && s' == Finish(s, p, i0)
  }

  ghost predicate Next(s: State, s': State) {
    Wf(s) && ((exists p | Proc(s, p) :: Step(s, p, s')) || Fetch(s, s') || (exists h :: Complete(s, h, s'))
    || Intr(s, s'))
  }

  ghost predicate Init(s: State) {
    && Wf(s) && (forall d | 0 <= d < NUM :: s.free[d] && s.own[d] == NONE)
    && s.availIdx == s.devIdx == s.usedId == s.usedIdx == 0 && s.pending == {} && !s.panicked
    && (forall b | 0 <= b < |s.bdisk| :: !s.bdisk[b])
    && (forall p | 0 <= p < |s.pc| :: s.pc[p] == Idle && s.phase[p] == Out)
    && s.fly == {} && s.subm == s.done == [] && s.fetched == s.acked == 0
  }

  // ---- invariant ----

  /** A request in flight holds its three descriptors, linked and pointing at its buffer. */
  predicate ChainAt(s: State, p: int)
    requires Wf(s) && Proc(s, p)
  {
    s.pc[p].Wait? ==>
      var (b, i0, i1, i2) := (s.pc[p].b, s.pc[p].i0, s.pc[p].i1, s.pc[p].i2);
      && 0 <= i0 < NUM && 0 <= i1 < NUM && 0 <= i2 < NUM && i0 != i1 && i0 != i2 && i1 != i2
      && !s.free[i0] && !s.free[i1] && !s.free[i2] && s.own[i0] == s.own[i1] == s.own[i2] == p
      && s.more[i0] && s.more[i1] && !s.more[i2] && s.next[i0] == i1 && s.next[i1] == i2
      && Buf(s, b) && s.infob[i0] == b && s.dbuf[i1] == b && s.hwrite[i0] == s.pc[p].w
  }

  /** How far the request of p has come, and what has been moved. */
  predicate PhaseAt(s: State, p: int)
    requires Wf(s) && Proc(s, p)
  {
    if !s.pc[p].Wait? then s.phase[p] == Out && (s.pc[p] != Idle ==> Buf(s, s.pc[p].b) && !s.bdisk[s.pc[p].b]) else
      var (b, w, v, i0) := (s.pc[p].b, s.pc[p].w, s.pc[p].v, s.pc[p].i0);
      && Buf(s, b) && (s.bdisk[b] <==> s.phase[p] != Acked)
      && (w ==> s.bufdata[b] == v) && (!w ==> s.diskdata[s.blk[b]] == v)
      && (s.phase[p].Completed? || s.phase[p].Acked? ==> s.bufdata[b] == s.diskdata[s.blk[b]] == v)
      && match s.phase[p]
         case Out => false
         case Queued(t) => 0 <= s.fetched <= t < |s.subm| && s.subm[t] == i0
         case Pending => i0 in s.pending
         case Completed(t) => 0 <= s.acked <= t < |s.done| && s.done[t] == i0
         case Acked => true
  }

  /** Descriptor d is free or some process's. */
  predicate OwnAt(s: State, d: int)
    requires Wf(s) && 0 <= d < NUM
  {
    !s.free[d] ==>
      Proc(s, s.own[d]) && s.pc[s.own[d]].Wait? && d in {s.pc[s.own[d]].i0, s.pc[s.own[d]].i1, s.pc[s.own[d]].i2}
  }

  /** Chain h is the one submitted by its owner, which has come as far as ph. */
  predicate HeadOf(s: State, h: int, ph: Phase)
    requires Wf(s)
  {
    0 <= h < NUM && !s.free[h] && Proc(s, s.own[h]) && s.pc[s.own[h]].Wait? && s.pc[s.own[h]].i0 == h
    && s.phase[s.own[h]] == ph
  }

  /** No two processes are at work on the same block. */
  predicate Apart(s: State, p: int, q: int)
    requires Wf(s) && Proc(s, p) && Proc(s, q)
  {
    p != q && s.pc[p] != Idle && s.pc[q] != Idle && Buf(s, s.pc[p].b) && Buf(s, s.pc[q].b) ==>
      s.blk[s.pc[p].b] != s.blk[s.pc[q].b]
  }

  /** A process asleep for want of descriptors is right to be. */
  predicate SleepAt(s: State, p: int)
    requires Wf(s) && Proc(s, p)
  {
    s.pc[p].SleepD? ==> Count(s.free) < 3
  }

  predicate Counters(s: State)
    requires Wf(s)
  {
    && 0 <= s.fetched <= |s.subm| && 0 <= s.acked <= |s.done|
    && s.availIdx == |s.subm| % U16 && s.devIdx == s.fetched % U16 && s.usedId == |s.done| % U16
    && s.usedIdx == s.acked % NUM
    && Count(s.free) + 3 * |s.fly| == NUM
  }

  ghost predicate Base(s: State) {
    && Wf(s) && Counters(s) && !s.panicked
    && (forall p {:trigger p in s.fly} :: p in s.fly <==> Proc(s, p) && s.pc[p].Wait?)
  }

  ghost predicate Procs(s: State)
    requires Wf(s)
  {
    && (forall p {:trigger PhaseAt(s, p)} | Proc(s, p) :: PhaseAt(s, p))
    && (forall p {:trigger SleepAt(s, p)} | Proc(s, p) :: SleepAt(s, p))
    && (forall p, q {:trigger Apart(s, p, q)} | Proc(s, p) && Proc(s, q) :: Apart(s, p, q))
  }

  ghost predicate Chains(s: State)
    requires Wf(s)
  {
    && (forall p {:trigger ChainAt(s, p)} | Proc(s, p) :: ChainAt(s, p))
    && (forall d {:trigger OwnAt(s, d)} | 0 <= d < NUM :: OwnAt(s, d))
  }

  /** Entry t of the available ring, not yet fetched, and entry t of the used ring, not yet seen. */
  predicate AvailAt(s: State, t: int)
    requires Wf(s) && 0 <= t < |s.subm|
  {
    s.avail[t % NUM] == s.subm[t] && HeadOf(s, s.subm[t], Queued(t))
  }

  predicate UsedAt(s: State, t: int)
    requires Wf(s) && 0 <= t < |s.done|
  {
    s.elems[t % NUM] == s.done[t] && HeadOf(s, s.done[t], Completed(t))
  }

  ghost predicate Rings(s: State)
    requires Wf(s) && Counters(s)
  {
    && (forall t {:trigger AvailAt(s, t)} | s.fetched <= t < |s.subm| :: AvailAt(s, t))
    && (forall h {:trigger h in s.pending} | h in s.pending :: HeadOf(s, h, Pending))
    && (forall t {:trigger UsedAt(s, t)} | s.acked <= t < |s.done| :: UsedAt(s, t))
  }

  ghost predicate Inv(s: State) {
    Base(s) && Chains(s) && Procs(s) && Rings(s)
  }

  lemma CountAll(free: seq<bool>, i: nat)
    requires i <= |free| && forall j | i <= j < |free| :: free[j]
    ensures CountFrom(free, i) == |free| - i
    decreases |free| - i
  {
    if i < |free| { CountAll(free, i + 1); }
  }

  lemma InitInv(s: State)
    requires Init(s)
    ensures Inv(s)
  {
    CountAll(s.free, 0);
  }

  lemma ThreeIn(a: int, b: int, c: int, f: set<int>)
    requires a in f && b in f && c in f && a != b && a != c && b != c
    ensures |f| >= 3
  {
    var t := {a, b, c};
    assert f == t + (f - t);
  }

  /** At most two requests are in flight, so neither ring ever holds more than two entries. */
  lemma AtMostTwo(s: State)
    requires Inv(s)
    ensures |s.fly| <= 2 && |s.subm| - s.fetched <= 2 && |s.done| - s.acked <= 2
  {
    if |s.subm| - s.fetched >= 3 {
      var t := s.fetched;
      assert AvailAt(s, t) && AvailAt(s, t + 1) && AvailAt(s, t + 2);
      ThreeIn(s.own[s.subm[t]], s.own[s.subm[t + 1]], s.own[s.subm[t + 2]], s.fly);
    }
    if |s.done| - s.acked >= 3 {
      var t := s.acked;
      assert UsedAt(s, t) && UsedAt(s, t + 1) && UsedAt(s, t + 2);
      ThreeIn(s.own[s.done[t]], s.own[s.done[t + 1]], s.own[s.done[t + 2]], s.fly);
    }
  }

  /** So the tests on the wrapped indices tell an empty ring from one that is not. */
  lemma IndicesTell(s: State)
    requires Inv(s)
    ensures s.usedIdx % NUM != s.usedId % NUM <==> s.acked < |s.done|
    ensures s.devIdx != s.availIdx <==> s.fetched < |s.subm|
    ensures s.devIdx % NUM == s.fetched % NUM && s.usedId % NUM == |s.done| % NUM && s.availIdx % NUM == |s.subm| % NUM
  {
    AtMostTwo(s);
    Wrap(s.fetched);
    Wrap(|s.subm|);
    Wrap(|s.done|);
    Differ(s.acked, |s.done|, NUM);
    Differ(s.fetched, |s.subm|, U16);
  }

  lemma Wrap(a: int)
    requires 0 <= a
    ensures a % U16 % NUM == a % NUM
  {
  }

  lemma WrapNum(a: int)
    requires 0 <= a
    ensures (a % NUM + 1) % NUM == (a + 1) % NUM
  {
  }

  lemma WrapU16(a: int)
    requires 0 <= a
    ensures (a % U16 + 1) % U16 == (a + 1) % U16
  {
    var q, r := a / U16, a % U16;
    assert a == U16 * q + r;
    if r + 1 == U16 {
      assert a + 1 == U16 * (q + 1);
    } else {
      assert a + 1 == U16 * q + (r + 1);
    }
  }

  lemma WrapNext(a: int, n: int)
    requires 0 <= a && (n == NUM || n == U16)
    ensures (a % n + 1) % n == (a + 1) % n
  {
    if n == NUM {
      WrapNum(a);
    } else {
      WrapU16(a);
    }
  }

  lemma Differ(a: int, b: int, n: int)
    requires 0 <= a <= b < a + n && (n == NUM || n == U16)
    ensures a % n == b % n <==> a == b
  {
  }

  lemma StartChains(s: State, p: int, b: int, w: bool, s': State)
    requires Inv(s) && Proc(s, p) && Start(s, p, b, w, s')
    ensures Wf(s') && Chains(s')
  {
    forall q | Proc(s', q) ensures ChainAt(s', q) { assert ChainAt(s, q); }
    forall d | 0 <= d < NUM ensures OwnAt(s', d) { assert OwnAt(s, d); }
  }

  lemma StartProcs(s: State, p: int, b: int, w: bool, s': State)
    requires Inv(s) && Proc(s, p) && Start(s, p, b, w, s')
    ensures Wf(s') && Procs(s')
  {
    forall q | Proc(s', q) ensures PhaseAt(s', q) && SleepAt(s', q) {
      assert PhaseAt(s, q) && SleepAt(s, q);
    }
    forall q, r | Proc(s', q) && Proc(s', r)
      ensures Apart(s', q, r)
    {
      assert Apart(s, q, r) && !Uses(s, q, s.blk[b]) && !Uses(s, r, s.blk[b]);
    }
  }

  lemma StartRings(s: State, p: int, b: int, w: bool, s': State)
    requires Inv(s) && Proc(s, p) && Start(s, p, b, w, s')
    ensures Base(s') && Rings(s')
  {
    forall t | s'.fetched <= t < |s'.subm| ensures AvailAt(s', t) { assert t < |s.subm| ==> AvailAt(s, t); }
    forall h | h in s'.pending ensures HeadOf(s', h, Pending) { assert h in s.pending ==> HeadOf(s, h, Pending); }
    forall t | s'.acked <= t < |s'.done| ensures UsedAt(s', t) { assert t < |s.done| ==> UsedAt(s, t); }
  }

  lemma FailChains(s: State, p: int, b: int, w: bool, s': State)
    requires Inv(s) && Proc(s, p) && s.pc[p] == Want(b, w) && Three(s.free).i0 == NONE && s' == Fail(s, p, b, w)
    ensures Wf(s') && Chains(s')
  {
    forall q | Proc(s', q) ensures ChainAt(s', q) { assert ChainAt(s, q); }
    forall d | 0 <= d < NUM ensures OwnAt(s', d) { assert OwnAt(s, d); }
  }

  lemma FailProcs(s: State, p: int, b: int, w: bool, s': State)
    requires Inv(s) && Proc(s, p) && s.pc[p] == Want(b, w) && Three(s.free).i0 == NONE && s' == Fail(s, p, b, w)
    ensures Wf(s') && Procs(s')
  {
    ThreeIff(s.free);
    forall q | Proc(s', q) ensures PhaseAt(s', q) && SleepAt(s', q) {
      assert PhaseAt(s, q) && SleepAt(s, q);
    }
    forall q, r | Proc(s', q) && Proc(s', r) ensures Apart(s', q, r) { assert Apart(s, q, r); }
  }

  lemma FailRings(s: State, p: int, b: int, w: bool, s': State)
    requires Inv(s) && Proc(s, p) && s.pc[p] == Want(b, w) && Three(s.free).i0 == NONE && s' == Fail(s, p, b, w)
    ensures Base(s') && Rings(s')
  {
    forall t | s'.fetched <= t < |s'.subm| ensures AvailAt(s', t) { assert t < |s.subm| ==> AvailAt(s, t); }
    forall h | h in s'.pending ensures HeadOf(s', h, Pending) { assert h in s.pending ==> HeadOf(s, h, Pending); }
    forall t | s'.acked <= t < |s'.done| ensures UsedAt(s', t) { assert t < |s.done| ==> UsedAt(s, t); }
  }

  lemma SubmitOwns(s: State, p: int, b: int, w: bool, t0: Triple, s': State, d: int)
    requires Inv(s) && Proc(s, p) && s.pc[p] == Want(b, w) && t0 == Three(s.free) && t0.i0 != NONE && Buf(s, b)
             && s' == Submit(s, p, b, w, t0) && 0 <= d < NUM
    ensures Wf(s') && OwnAt(s', d)
  {
    assert OwnAt(s, d);
  }

  lemma SubmitOther(s: State, p: int, b: int, w: bool, t0: Triple, s': State, q: int)
    requires Inv(s) && Proc(s, p) && s.pc[p] == Want(b, w) && t0 == Three(s.free) && t0.i0 != NONE && Buf(s, b)
             && s' == Submit(s, p, b, w, t0) && Proc(s', q) && q != p
    ensures Wf(s') && ChainAt(s', q)
  {
    assert ChainAt(s, q);
    if s.pc[q].Wait? {
      var i0, i1, i2 := s.pc[q].i0, s.pc[q].i1, s.pc[q].i2;
      assert s.free[t0.i0] && s.free[t0.i1] && s.free[t0.i2] && !s.free[i0] && !s.free[i1] && !s.free[i2];
    }
  }

  lemma SubmitChain(s: State, p: int, b: int, w: bool, t0: Triple, s': State, q: int)
    requires Inv(s) && Proc(s, p) && s.pc[p] == Want(b, w) && t0 == Three(s.free) && t0.i0 != NONE && Buf(s, b)
             && s' == Submit(s, p, b, w, t0) && Proc(s', q)
    ensures Wf(s') && ChainAt(s', q)
  {
    if q != p { SubmitOther(s, p, b, w, t0, s', q); }
  }

  lemma SubmitChains(s: State, p: int, b: int, w: bool, t0: Triple, s': State)
    requires Inv(s) && Proc(s, p) && s.pc[p] == Want(b, w) && t0 == Three(s.free) && t0.i0 != NONE && Buf(s, b)
             && s' == Submit(s, p, b, w, t0)
    ensures Wf(s') && Chains(s')
  {
    forall q | Proc(s', q) ensures ChainAt(s', q) { SubmitChain(s, p, b, w, t0, s', q); }
    forall d | 0 <= d < NUM ensures OwnAt(s', d) { SubmitOwns(s, p, b, w, t0, s', d); }
  }

  lemma SubmitProcs(s: State, p: int, b: int, w: bool, t0: Triple, s': State)
    requires Inv(s) && Proc(s, p) && s.pc[p] == Want(b, w) && t0 == Three(s.free) && t0.i0 != NONE && Buf(s, b)
             && s' == Submit(s, p, b, w, t0)
    ensures Wf(s') && Procs(s')
  {
    CountTaken(s.free, t0);
    assert PhaseAt(s, p);
    forall q | Proc(s', q) ensures PhaseAt(s', q) && SleepAt(s', q) {
      assert PhaseAt(s, q) && SleepAt(s, q) && Apart(s, p, q);
    }
    forall q, r | Proc(s', q) && Proc(s', r) ensures Apart(s', q, r) { assert Apart(s, q, r); }
  }

  lemma SubmitBase(s: State, p: int, b: int, w: bool, t0: Triple, s': State)
    requires Inv(s) && Proc(s, p) && s.pc[p] == Want(b, w) && t0 == Three(s.free) && t0.i0 != NONE && Buf(s, b)
             && s' == Submit(s, p, b, w, t0)
    ensures Base(s')
  {
    AtMostTwo(s);
    WrapNext(|s.subm|, U16);
    CountTaken(s.free, t0);
  }

  lemma SubmitRings(s: State, p: int, b: int, w: bool, t0: Triple, s': State)
    requires Inv(s) && Proc(s, p) && s.pc[p] == Want(b, w) && t0 == Three(s.free) && t0.i0 != NONE && Buf(s, b)
             && s' == Submit(s, p, b, w, t0) && Base(s')
    ensures Base(s') && Rings(s')
  {
    AtMostTwo(s);
    IndicesTell(s);
    forall t | s.fetched <= t < |s.subm| ensures t % NUM != |s.subm| % NUM { Differ(t, |s.subm|, NUM); }
    forall t | s'.fetched <= t < |s'.subm| ensures AvailAt(s', t) { assert t < |s.subm| ==> AvailAt(s, t); }
    forall h | h in s'.pending ensures HeadOf(s', h, Pending) { assert h in s.pending ==> HeadOf(s, h, Pending); }
    forall t | s'.acked <= t < |s'.done| ensures UsedAt(s', t) { assert t < |s.done| ==> UsedAt(s, t); }
  }

  lemma FinishChains(s: State, p: int, s': State)
    requires Inv(s) && Proc(s, p) && s.pc[p].Wait? && Buf(s, s.pc[p].b) && !s.bdisk[s.pc[p].b] && 0 <= s.pc[p].i0 < NUM
             && s' == Finish(s, p, s.pc[p].i0)
    ensures Wf(s') && Chains(s')
  {
    assert ChainAt(s, p) && PhaseAt(s, p);
    FreeThree(s.free, s.next, s.more, Triple(s.pc[p].i0, s.pc[p].i1, s.pc[p].i2));
    forall q | Proc(s', q) ensures ChainAt(s', q) { assert ChainAt(s, q); }
    forall d | 0 <= d < NUM ensures OwnAt(s', d) { assert OwnAt(s, d); }
  }

  lemma FinishProcs(s: State, p: int, s': State)
    requires Inv(s) && Proc(s, p) && s.pc[p].Wait? && Buf(s, s.pc[p].b) && !s.bdisk[s.pc[p].b] && 0 <= s.pc[p].i0 < NUM
             && s' == Finish(s, p, s.pc[p].i0)
    ensures Wf(s') && Procs(s')
  {
    assert ChainAt(s, p) && PhaseAt(s, p);
    FreeThree(s.free, s.next, s.more, Triple(s.pc[p].i0, s.pc[p].i1, s.pc[p].i2));
    forall q | Proc(s', q) ensures PhaseAt(s', q) && SleepAt(s', q) {
      assert PhaseAt(s, q) && SleepAt(s, q);
    }
    forall q, r | Proc(s', q) && Proc(s', r) ensures Apart(s', q, r) { assert Apart(s, q, r); }
  }

  lemma FinishRings(s: State, p: int, s': State)
    requires Inv(s) && Proc(s, p) && s.pc[p].Wait? && Buf(s, s.pc[p].b) && !s.bdisk[s.pc[p].b] && 0 <= s.pc[p].i0 < NUM
             && s' == Finish(s, p, s.pc[p].i0)
    ensures Base(s') && Rings(s')
  {
    assert ChainAt(s, p) && PhaseAt(s, p);
    FreeThree(s.free, s.next, s.more, Triple(s.pc[p].i0, s.pc[p].i1, s.pc[p].i2));
    forall t | s'.fetched <= t < |s'.subm| ensures AvailAt(s', t) { assert t < |s.subm| ==> AvailAt(s, t); }
    forall h | h in s'.pending ensures HeadOf(s', h, Pending) { assert h in s.pending ==> HeadOf(s, h, Pending); }
    forall t | s'.acked <= t < |s'.done| ensures UsedAt(s', t) { assert t < |s.done| ==> UsedAt(s, t); }
  }

  lemma FetchChains(s: State, s': State)
    requires Inv(s) && Fetch(s, s')
    ensures Wf(s') && Chains(s')
  {
    IndicesTell(s);
    forall q | Proc(s', q) ensures ChainAt(s', q) { assert ChainAt(s, q); }
    forall d | 0 <= d < NUM ensures OwnAt(s', d) { assert OwnAt(s, d); }
  }

  lemma FetchProcs(s: State, s': State)
    requires Inv(s) && Fetch(s, s')
    ensures Wf(s') && Procs(s')
  {
    IndicesTell(s);
    assert AvailAt(s, s.fetched);
    assert ChainAt(s, s.own[s.subm[s.fetched]]);
    forall q | Proc(s', q) ensures PhaseAt(s', q) && SleepAt(s', q) {
      assert PhaseAt(s, q) && SleepAt(s, q) && ChainAt(s, q);
    }
    forall q, r | Proc(s', q) && Proc(s', r) ensures Apart(s', q, r) { assert Apart(s, q, r); }
  }

  lemma FetchRings(s: State, s': State)
    requires Inv(s) && Fetch(s, s')
    ensures Base(s') && Rings(s')
  {
    IndicesTell(s);
    WrapNext(s.fetched, U16);
    assert AvailAt(s, s.fetched);
    forall t | s'.fetched <= t < |s'.subm| ensures AvailAt(s', t) { assert t < |s.subm| ==> AvailAt(s, t); }
    forall h | h in s'.pending ensures HeadOf(s', h, Pending) { assert h in s.pending ==> HeadOf(s, h, Pending); }
    forall t | s'.acked <= t < |s'.done| ensures UsedAt(s', t) { assert t < |s.done| ==> UsedAt(s, t); }
  }

  lemma CompleteChains(s: State, h0: int, s': State)
    requires Inv(s) && Complete(s, h0, s')
    ensures Wf(s') && Chains(s')
  {
    forall q | Proc(s', q) ensures ChainAt(s', q) { assert ChainAt(s, q); }
    forall d | 0 <= d < NUM ensures OwnAt(s', d) { assert OwnAt(s, d); }
  }

  lemma CompletePhase(s: State, h0: int, s': State, q: int)
    requires Inv(s) && Complete(s, h0, s') && Proc(s', q)
    ensures Wf(s') && PhaseAt(s', q)
  {
    var p := s.own[h0];
    assert HeadOf(s, h0, Pending) && ChainAt(s, p) && PhaseAt(s, p);
    if q != p { CompleteOther(s, h0, s', p, q); }
  }

  lemma CompleteOther(s: State, h0: int, s': State, p: int, q: int)
    requires Inv(s) && Complete(s, h0, s') && Proc(s', q) && q != p == s.own[h0]
    ensures Wf(s') && PhaseAt(s', q)
  {
    assert HeadOf(s, h0, Pending) && ChainAt(s, p) && PhaseAt(s, p);
    assert PhaseAt(s, q) && Apart(s, p, q) && ChainAt(s, q);
  }

  lemma CompleteSleep(s: State, h0: int, s': State, q: int)
    requires Inv(s) && Complete(s, h0, s') && Proc(s', q)
    ensures Wf(s') && SleepAt(s', q)
  {
    assert SleepAt(s, q);
  }

  lemma CompleteProcs(s: State, h0: int, s': State)
    requires Inv(s) && Complete(s, h0, s')
    ensures Wf(s') && Procs(s')
  {
    var p := s.own[h0];
    assert HeadOf(s, h0, Pending) && ChainAt(s, p) && PhaseAt(s, p);
    forall q | Proc(s', q) ensures PhaseAt(s', q) && SleepAt(s', q) {
      CompletePhase(s, h0, s', q);
      CompleteSleep(s, h0, s', q);
    }
    forall q, r | Proc(s', q) && Proc(s', r) ensures Apart(s', q, r) { assert Apart(s, q, r); }
  }

  lemma CompleteBase(s: State, h0: int, s': State)
    requires Inv(s) && Complete(s, h0, s')
    ensures Base(s')
  {
    WrapNext(|s.done|, U16);
    assert HeadOf(s, h0, Pending);
  }

  lemma CompleteRings(s: State, h0: int, s': State)
    requires Inv(s) && Complete(s, h0, s') && Base(s')
    ensures Base(s') && Rings(s')
  {
    AtMostTwo(s);
    IndicesTell(s);
    assert HeadOf(s, h0, Pending) && ChainAt(s, s.own[h0]);
    forall t | s.acked <= t < |s.done| ensures t % NUM != |s.done| % NUM { Differ(t, |s.done|, NUM); }
    forall t | s'.fetched <= t < |s'.subm| ensures AvailAt(s', t) { assert t < |s.subm| ==> AvailAt(s, t); }
    forall h | h in s'.pending ensures HeadOf(s', h, Pending) { assert h in s.pending ==> HeadOf(s, h, Pending); }
    forall t | s'.acked <= t < |s'.done| ensures UsedAt(s', t) { assert t < |s.done| ==> UsedAt(s, t); }
  }

  lemma IntrChains(s: State, s': State)
    requires Inv(s) && Intr(s, s')
    ensures Wf(s') && Chains(s')
  {
    IndicesTell(s);
    assert UsedAt(s, s.acked);
    assert ChainAt(s, s.own[s.done[s.acked]]);
    forall q | Proc(s', q) ensures ChainAt(s', q) { assert ChainAt(s, q); }
    forall d | 0 <= d < NUM ensures OwnAt(s', d) { assert OwnAt(s, d); }
  }

  lemma IntrProcs(s: State, s': State)
    requires Inv(s) && Intr(s, s')
    ensures Wf(s') && Procs(s')
  {
    IndicesTell(s);
    assert UsedAt(s, s.acked);
    var p := s.own[s.done[s.acked]];
    assert ChainAt(s, p) && PhaseAt(s, p);
    forall q | Proc(s', q) ensures PhaseAt(s', q) && SleepAt(s', q) {
      assert PhaseAt(s, q) && SleepAt(s, q) && Apart(s, p, q) && ChainAt(s, q);
    }
    forall q, r | Proc(s', q) && Proc(s', r) ensures Apart(s', q, r) { assert Apart(s, q, r); }
  }

  lemma IntrRings(s: State, s': State)
    requires Inv(s) && Intr(s, s')
    ensures Base(s') && Rings(s')
  {
    IndicesTell(s);
    WrapNext(s.acked, NUM);
    assert UsedAt(s, s.acked);
    assert ChainAt(s, s.own[s.done[s.acked]]);
    forall t | s'.fetched <= t < |s'.subm| ensures AvailAt(s', t) { assert t < |s.subm| ==> AvailAt(s, t); }
    forall h | h in s'.pending ensures HeadOf(s', h, Pending) { assert h in s.pending ==> HeadOf(s, h, Pending); }
    forall t | s'.acked <= t < |s'.done| ensures UsedAt(s', t) { assert t < |s.done| ==> UsedAt(s, t); }
  }

  lemma StepInv(s: State, p: int, s': State)
    requires Inv(s) && Proc(s, p) && Step(s, p, s')
    ensures Inv(s')
  {
    match s.pc[p]
    case Idle =>
      var b, w :| Start(s, p, b, w, s');
      StartChains(s, p, b, w, s');
      StartProcs(s, p, b, w, s');
      StartRings(s, p, b, w, s');
    case Want(b, w) =>
      var t := Three(s.free);
      if t.i0 == NONE {
        FailChains(s, p, b, w, s');
        FailProcs(s, p, b, w, s');
        FailRings(s, p, b, w, s');
      } else {
        SubmitChains(s, p, b, w, t, s');
        SubmitProcs(s, p, b, w, t, s');
        SubmitBase(s, p, b, w, t, s');
        SubmitRings(s, p, b, w, t, s');
      }
    case Wait(_, _, _, _, _, _) =>
      FinishChains(s, p, s');
      FinishProcs(s, p, s');
      FinishRings(s, p, s');
  }

  lemma NextInv(s: State, s': State)
    requires Inv(s) && Next(s, s')
    ensures Inv(s')
  {
    if p :| Proc(s, p) && Step(s, p, s') {
      StepInv(s, p, s');
    } else if Fetch(s, s') {
      FetchChains(s, s');
      FetchProcs(s, s');
      FetchRings(s, s');
    } else if Intr(s, s') {
      IntrChains(s, s');
      IntrProcs(s, s');
      IntrRings(s, s');
    } else {
      var h :| Complete(s, h, s');
      CompleteChains(s, h, s');
      CompleteProcs(s, h, s');
      CompleteBase(s, h, s');
      CompleteRings(s, h, s');
    }
  }

  // ---- whole runs ----

  ghost predicate StepAt(ss: seq<State>, i: int)
    requires 0 <= i < |ss| - 1
  {
    Next(ss[i], ss[i + 1])
  }

  ghost predicate Run(ss: seq<State>) {
    |ss| > 0 && Init(ss[0]) && forall i {:trigger StepAt(ss, i)} | 0 <= i < |ss| - 1 :: StepAt(ss, i)
  }

  lemma {:induction false} RunInv(ss: seq<State>, k: int)
    requires Run(ss) && 0 <= k < |ss|
    ensures Inv(ss[k])
  {
    if k == 0 {
      InitInv(ss[0]);
    } else {
      RunInv(ss, k - 1);
      assert StepAt(ss, k - 1);
      NextInv(ss[k - 1], ss[k]);
    }
  }

  /** In every run the free descriptors and the chains of the requests in flight, three each, make up the table; at most
      two requests are in flight; and none of the driver's panics is reached. */
  lemma Partition(ss: seq<State>, k: int)
    requires Run(ss) && 0 <= k < |ss|
    ensures var s := ss[k]; Wf(s) && !s.panicked && |s.fly| <= 2 && Count(s.free) + 3 * |s.fly| == NUM
    ensures var s := ss[k];
            forall d | 0 <= d < NUM ::
                     s.free[d] <==> forall p | Proc(s, p) && s.pc[p].Wait? :: d !in {s.pc[p].i0, s.pc[p].i1, s.pc[p].i2}
    ensures var s := ss[k]; forall p, q | Proc(s, p) && Proc(s, q) && p != q && s.pc[p].Wait? && s.pc[q].Wait? ::
              {s.pc[p].i0, s.pc[p].i1, s.pc[p].i2} !! {s.pc[q].i0, s.pc[q].i1, s.pc[q].i2}
  {
    var s := ss[k];
    RunInv(ss, k);
    AtMostTwo(s);
    forall d | 0 <= d < NUM
      ensures s.free[d] <==> forall p | Proc(s, p) && s.pc[p].Wait? :: d !in {s.pc[p].i0, s.pc[p].i1, s.pc[p].i2}
    {
      assert OwnAt(s, d);
      forall p | s.free[d] && Proc(s, p) && s.pc[p].Wait?
        ensures d !in {s.pc[p].i0, s.pc[p].i1, s.pc[p].i2}
      {
        assert ChainAt(s, p);
      }
    }
    forall p, q | Proc(s, p) && Proc(s, q) && p != q && s.pc[p].Wait? && s.pc[q].Wait?
      ensures {s.pc[p].i0, s.pc[p].i1, s.pc[p].i2} !! {s.pc[q].i0, s.pc[q].i1, s.pc[q].i2}
    {
      assert ChainAt(s, p) && ChainAt(s, q);
    }
  }

  /** The handler finds a new entry exactly when there is one, and what it releases is the buffer of a request whose
      data has been moved and which was not released before. */
  lemma HandlerReleases(ss: seq<State>, k: int)
    requires Run(ss) && 0 <= k < |ss|
    ensures var s := ss[k]; Wf(s) && (s.usedIdx % NUM != s.usedId % NUM <==> s.acked < |s.done|)
    ensures var s := ss[k]; s.acked < |s.done| ==>
              && 0 <= s.acked && s.elems[s.usedIdx] == s.done[s.acked] && 0 <= s.done[s.acked] < NUM
              && Proc(s, s.own[s.done[s.acked]])
              && var p := s.own[s.done[s.acked]];
              && s.pc[p].Wait? && s.infob[s.done[s.acked]] == s.pc[p].b && Buf(s, s.pc[p].b) && s.bdisk[s.pc[p].b]
              && s.bufdata[s.pc[p].b] == s.diskdata[s.blk[s.pc[p].b]] == s.pc[p].v
  {
    var s := ss[k];
    RunInv(ss, k);
    IndicesTell(s);
    if s.acked < |s.done| {
      assert UsedAt(s, s.acked);
      var p := s.own[s.done[s.acked]];
      assert ChainAt(s, p) && PhaseAt(s, p);
    }
  }

  /** When virtio_disk_rw returns, the buffer and its block hold what the buffer held before a write, and what the block
      held before a read. */
  lemma RwMoves(ss: seq<State>, k: int, p: int)
    requires Run(ss) && 0 <= k < |ss| && Proc(ss[k], p) && ss[k].pc[p].Wait?
    ensures var s := ss[k]; Wf(s) && Buf(s, s.pc[p].b)
    ensures var s := ss[k]; !s.bdisk[s.pc[p].b] ==> s.bufdata[s.pc[p].b] == s.diskdata[s.blk[s.pc[p].b]] == s.pc[p].v
  {
    RunInv(ss, k);
    assert PhaseAt(ss[k], p);
  }

  /** A process sleeps for descriptors only while there are fewer than three. */
  lemma NoLostWakeup(ss: seq<State>, k: int, p: int)
    requires Run(ss) && 0 <= k < |ss| && Proc(ss[k], p) && ss[k].pc[p].SleepD?
    ensures Count(ss[k].free) < 3
  {
    RunInv(ss, k);
    assert SleepAt(ss[k], p);
  }
}
