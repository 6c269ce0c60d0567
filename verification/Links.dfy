/** Directories and link counts.

    Inode i has type typ[i], link count nlink[i] and, if it is a directory, entries ents[i]; an entry with inum 0 is
    empty. `slot` gives, for a directory, the position of its entry in its parent.
 */
module Links {
  import opened Basics

  type Name = seq<char>

  const DOT: Name := "."
  const DOTDOT: Name := ".."

  const FREE := 0
  const DIR := 1
  const FILE := 2
  const DEVICE := 3

  const ROOT := 1

  datatype Entry = Entry(inum: int, name: Name)

  // ---- counting names ----

  /** e is a name for i; "." is not. */
  predicate Names(e: Entry, i: int) {
    e.inum == i && e.name != DOT
  }

  /** Names for i among es[j..]. */
  function InDir(es: seq<Entry>, i: int, j: nat): (n: nat)
    requires j <= |es|
    decreases |es| - j
  {
    if j == |es| then 0 else Bit(Names(es[j], i)) + InDir(es, i, j + 1)
  }

  /** Names for i in the linked directories from d on; `on` says which directories are linked. */
  function Count(ents: seq<seq<Entry>>, on: seq<bool>, i: int, d: nat): (n: nat)
    requires |on| == |ents| && d <= |ents|
    decreases |ents| - d
  {
    if d == |ents| then 0 else (if on[d] then InDir(ents[d], i, 0) else 0) + Count(ents, on, i, d + 1)
  }

  lemma {:induction false} InDirSet(es: seq<Entry>, k: nat, e: Entry, i: int, j: nat)
    requires k < |es| && j <= |es|
    ensures InDir(es[k := e], i, j) == InDir(es, i, j) + if j <= k then Bit(Names(e, i)) - Bit(Names(es[k], i)) else 0
    decreases |es| - j
  {
    if j < |es| { InDirSet(es, k, e, i, j + 1); }
  }

  lemma {:induction false} InDirAdd(es: seq<Entry>, e: Entry, i: int, j: nat)
    requires j <= |es|
    ensures InDir(es + [e], i, j) == InDir(es, i, j) + Bit(Names(e, i))
    decreases |es| - j
  {
    if j < |es| { InDirAdd(es, e, i, j + 1); } else { assert InDir(es + [e], i, j + 1) == 0; }
  }

  lemma {:induction false} InDirZero(es: seq<Entry>, i: int, j: nat)
    requires j <= |es|
    ensures InDir(es, i, j) == 0 <==> forall k | j <= k < |es| :: !Names(es[k], i)
    decreases |es| - j
  {
    if j < |es| { InDirZero(es, i, j + 1); }
  }

  lemma {:induction false} CountEnts(ents: seq<seq<Entry>>, on: seq<bool>, d: nat, es: seq<Entry>, i: int, x: nat)
    requires |on| == |ents| && d < |ents| && x <= |ents|
    ensures Count(ents[d := es], on, i, x) == Count(ents, on, i, x) + if x <= d
            && on[d] then InDir(es, i, 0) - InDir(ents[d], i, 0) else 0
    decreases |ents| - x
  {
    if x < |ents| { CountEnts(ents, on, d, es, i, x + 1); }
  }

  lemma {:induction false} CountOn(ents: seq<seq<Entry>>, on: seq<bool>, d: nat, v: bool, i: int, x: nat)
    requires |on| == |ents| && d < |ents| && x <= |ents|
    ensures Count(ents, on[d := v], i, x) == Count(ents, on, i,
              x) + if x <= d then (Bit(v) - Bit(on[d])) * InDir(ents[d], i, 0) else 0
    decreases |ents| - x
  {
    if x < |ents| { CountOn(ents, on, d, v, i, x + 1); }
  }

  lemma {:induction false} CountZero(ents: seq<seq<Entry>>, on: seq<bool>, i: int, x: nat)
    requires |on| == |ents| && x <= |ents|
    ensures Count(ents, on, i, x) == 0 <==>
              forall d, k | x <= d < |ents| && on[d] && 0 <= k < |ents[d]| :: !Names(ents[d][k], i)
    decreases |ents| - x
  {
    if x < |ents| {
      CountZero(ents, on, i, x + 1);
      InDirZero(ents[x], i, 0);
    }
  }

  // ---- well-formed trees ----

  /** The directories that some link reaches. */
  function On(typ: seq<int>, nlink: seq<int>): (on: seq<bool>)
    requires |nlink| == |typ|
    ensures |on| == |typ| && forall d | 0 <= d < |typ| :: on[d] == (typ[d] == DIR && nlink[d] > 0)
  {
    seq(|typ|, d requires 0 <= d < |typ| => typ[d] == DIR && nlink[d] > 0)
  }

  predicate Shape(typ: seq<int>, nlink: seq<int>, ents: seq<seq<Entry>>, slot: seq<int>) {
    && |nlink| == |ents| == |slot| == |typ| > ROOT
    && typ[ROOT] == DIR && nlink[ROOT] > 0
  }

  /** nlink counts the names. */
  predicate CountAt(typ: seq<int>, nlink: seq<int>, ents: seq<seq<Entry>>, slot: seq<int>, i: int)
    requires Shape(typ, nlink, ents, slot) && 0 < i < |typ|
  {
    nlink[i] == Count(ents, On(typ, nlink), i, 0)
  }

  /** A directory starts with "." and ".."; nothing else has entries; a free inode has no links. */
  predicate DirAt(typ: seq<int>, nlink: seq<int>, ents: seq<seq<Entry>>, slot: seq<int>, d: int)
    requires Shape(typ, nlink, ents, slot) && 0 < d < |typ|
  {
    && (typ[d] == DIR ==>
         |ents[d]| >= 2 && ents[d][0] == Entry(d, DOT) && ents[d][1].name == DOTDOT && 0 < ents[d][1].inum < |typ|)
    && (typ[d] != DIR ==> ents[d] == [])
  }

  /** Other entries are in linked directories, and one that names a directory is the entry in its parent. */
  predicate SlotAt(typ: seq<int>, nlink: seq<int>, ents: seq<seq<Entry>>, slot: seq<int>, d: int, j: int)
    requires Shape(typ, nlink, ents, slot) && 0 < d < |typ| && 2 <= j < |ents[d]|
  {
    var c := ents[d][j].inum;
    c != 0 ==>
      && 0 < c < |typ| && ents[d][j].name != DOT && ents[d][j].name != DOTDOT && nlink[d] > 0
      && (typ[c] == DIR ==> c != ROOT && |ents[c]| >= 2 && ents[c][1].inum == d && slot[c] == j)
  }

  /** A linked directory other than the root is in its parent, which is linked. */
  predicate UpAt(typ: seq<int>, nlink: seq<int>, ents: seq<seq<Entry>>, slot: seq<int>, d: int)
    requires Shape(typ, nlink, ents, slot) && 0 < d < |typ|
  {
    typ[d] == DIR && nlink[d] > 0 ==>
      && |ents[d]| >= 2
      && var e := ents[d][1].inum;
      && 0 < e < |typ| && typ[e] == DIR && nlink[e] > 0
      && if d == ROOT then e == ROOT else 2 <= slot[d] < |ents[e]| && ents[e][slot[d]].inum == d
  }

  /** A directory has each name once. */
  predicate OnceAt(typ: seq<int>, nlink: seq<int>, ents: seq<seq<Entry>>, slot: seq<int>, d: int, j: int, k: int)
    requires Shape(typ, nlink, ents, slot) && 0 < d < |typ| && 0 <= j < k < |ents[d]|
  {
    ents[d][j].inum != 0 && ents[d][k].inum != 0 ==> ents[d][j].name != ents[d][k].name
  }

  ghost predicate Inv(typ: seq<int>, nlink: seq<int>, ents: seq<seq<Entry>>, slot: seq<int>) {
    && Shape(typ, nlink, ents, slot)
    && (forall i {:trigger CountAt(typ, nlink, ents, slot, i)} | 0 < i < |typ| :: CountAt(typ, nlink, ents, slot, i))
    && (forall d {:trigger DirAt(typ, nlink, ents, slot, d)} | 0 < d < |typ| :: DirAt(typ, nlink, ents, slot, d))
    && (forall d, j {:trigger SlotAt(typ, nlink, ents, slot, d, j)} | 0 < d < |typ| && 2 <= j < |ents[d]| ::
         SlotAt(typ, nlink, ents, slot, d, j))
    && (forall d {:trigger UpAt(typ, nlink, ents, slot, d)} | 0 < d < |typ| :: UpAt(typ, nlink, ents, slot, d))
    && (forall d, j, k {:trigger OnceAt(typ, nlink, ents, slot, d, j, k)} | 0 < d < |typ| && 0 <= j < k < |ents[d]| ::
         OnceAt(typ, nlink, ents, slot, d, j, k))
    && !(typ[0] == DIR)
    && (forall i | 0 < i < |typ| && typ[i] == FREE :: nlink[i] == 0)
  }

  // ---- adding and removing entries ----

  /** Entry e put in position k of a directory, at its end if need be. */
  function Placed(es: seq<Entry>, k: nat, e: Entry): (r: seq<Entry>)
    requires k <= |es|
    ensures |r| == (if k < |es| then |es| else |es| + 1)
            && forall j | 0 <= j < |r| :: r[j] == if j == k then e else es[j]
  {
    if k < |es| then es[k := e] else es + [e]
  }

  lemma InDirPlaced(es: seq<Entry>, k: nat, e: Entry, i: int)
    requires k <= |es| && (k < |es| ==> es[k].inum == 0) && i != 0
    ensures InDir(Placed(es, k, e), i, 0) == InDir(es, i, 0) + Bit(Names(e, i))
  {
    if k < |es| { InDirSet(es, k, e, i, 0); } else { InDirAdd(es, e, i, 0); }
  }

  lemma CountPlaced(ents: seq<seq<Entry>>, on: seq<bool>, dp: nat, k: nat, e: Entry, i: int)
    requires |on| == |ents| && dp < |ents| && k <= |ents[dp]| && (k < |ents[dp]| ==> ents[dp][k].inum == 0) && i != 0
    ensures Count(ents[dp := Placed(ents[dp], k, e)], on, i, 0) == Count(ents, on, i,
              0) + if on[dp] then Bit(Names(e, i)) else 0
  {
    CountEnts(ents, on, dp, Placed(ents[dp], k, e), i, 0);
    InDirPlaced(ents[dp], k, e, i);
  }

  /** The entry k of directory d, cleared. */
  function Cleared(es: seq<Entry>, k: nat): (r: seq<Entry>)
    requires k < |es|
  {
    es[k := Entry(0, [])]
  }

  lemma CountCleared(ents: seq<seq<Entry>>, on: seq<bool>, d: nat, k: nat, i: int)
    requires |on| == |ents| && d < |ents| && k < |ents[d]| && i != 0
    ensures Count(ents[d := Cleared(ents[d], k)], on, i, 0) == Count(ents, on, i,
              0) - if on[d] then Bit(Names(ents[d][k], i)) else 0
  {
    CountEnts(ents, on, d, Cleared(ents[d], k), i, 0);
    InDirSet(ents[d], k, Entry(0, []), i, 0);
  }

  /** name can go in position k of directory dp. */
  predicate RoomFor(ents: seq<seq<Entry>>, dp: int, k: int, name: Name)
    requires 0 <= dp < |ents|
  {
    && 0 <= k <= |ents[dp]| && (k < |ents[dp]| ==> ents[dp][k].inum == 0)
    && forall j | 0 <= j < |ents[dp]| && ents[dp][j].inum != 0 :: ents[dp][j].name != name
  }

  /** A directory starts with entries in use. */
  lemma DotsUsed(typ: seq<int>, nlink: seq<int>, ents: seq<seq<Entry>>, slot: seq<int>, dp: int, k: int, name: Name)
    requires Inv(typ, nlink, ents, slot) && 0 < dp < |typ| && typ[dp] == DIR && RoomFor(ents, dp, k, name)
    ensures k >= 2 && name != DOT && name != DOTDOT
  {
    assert DirAt(typ, nlink, ents, slot, dp);
  }

  /** A name in a linked directory is counted. */
  lemma Counted(typ: seq<int>, nlink: seq<int>, ents: seq<seq<Entry>>, slot: seq<int>, d: int, j: int, c: int)
    requires Inv(typ, nlink, ents, slot) && 0 < d < |typ| && typ[d] == DIR && nlink[d] > 0 && 0 <= j < |ents[d]|
             && 0 < c < |typ| && Names(ents[d][j], c)
    ensures nlink[c] > 0 && typ[c] != FREE
  {
    assert CountAt(typ, nlink, ents, slot, c);
    CountZero(ents, On(typ, nlink), c, 0);
  }

  /** Giving a file, old or new, a name in a linked directory. */
  lemma AddFile(typ: seq<int>, nlink: seq<int>, ents: seq<seq<Entry>>, slot: seq<int>, dp: int, k: int, name: Name,
                c: int, ty: int)
    requires Inv(typ, nlink, ents, slot) && 0 < dp < |typ| && typ[dp] == DIR && nlink[dp] > 0
             && RoomFor(ents, dp, k, name)
    requires 0 < c < |typ| && typ[c] != DIR && ty != DIR && ty != FREE
    ensures Inv(typ[c := ty], nlink[c := nlink[c] + 1], ents[dp := Placed(ents[dp], k, Entry(c, name))], slot)
  {
    var typ', nlink', ents' := typ[c := ty], nlink[c := nlink[c] + 1], ents[dp := Placed(ents[dp], k, Entry(c, name))];
    DotsUsed(typ, nlink, ents, slot, dp, k, name);
    assert On(typ', nlink') == On(typ, nlink);
    forall i | 0 < i < |typ'| ensures CountAt(typ', nlink', ents', slot, i) {
      assert CountAt(typ, nlink, ents, slot, i);
      CountPlaced(ents, On(typ, nlink), dp, k, Entry(c, name), i);
    }
    forall d | 0 < d < |typ'| ensures DirAt(typ', nlink', ents', slot, d) && UpAt(typ', nlink', ents', slot, d) {
      assert DirAt(typ, nlink, ents, slot, d) && UpAt(typ, nlink, ents, slot, d);
    }
    forall d, j | 0 < d < |typ'| && 2 <= j < |ents'[d]| ensures SlotAt(typ', nlink', ents', slot, d, j) {
      assert j < |ents[d]| ==> SlotAt(typ, nlink, ents, slot, d, j);
    }
    forall d, j, m | 0 < d < |typ'| && 0 <= j < m < |ents'[d]| ensures OnceAt(typ', nlink', ents', slot, d, j, m) {
      assert m < |ents[d]| ==> OnceAt(typ, nlink, ents, slot, d, j, m);
    }
  }

  /** Taking the name at (dp, k) from a file. */
  lemma DropFile(typ: seq<int>, nlink: seq<int>, ents: seq<seq<Entry>>, slot: seq<int>, dp: int, k: int, c: int)
    requires Inv(typ, nlink, ents, slot) && 0 < dp < |typ| && typ[dp] == DIR && 2 <= k < |ents[dp]|
    requires c == ents[dp][k].inum && 0 < c < |typ| && typ[c] != DIR
    ensures nlink[c] > 0 && Inv(typ, nlink[c := nlink[c] - 1], ents[dp := Cleared(ents[dp], k)], slot)
  {
    assert SlotAt(typ, nlink, ents, slot, dp, k);
    Counted(typ, nlink, ents, slot, dp, k, c);
    var nlink', ents' := nlink[c := nlink[c] - 1], ents[dp := Cleared(ents[dp], k)];
    assert On(typ, nlink') == On(typ, nlink);
    forall i | 0 < i < |typ| ensures CountAt(typ, nlink', ents', slot, i) {
      assert CountAt(typ, nlink, ents, slot, i);
      CountCleared(ents, On(typ, nlink), dp, k, i);
    }
    forall d | 0 < d < |typ| ensures DirAt(typ, nlink', ents', slot, d) && UpAt(typ, nlink', ents', slot, d) {
      assert DirAt(typ, nlink, ents, slot, d) && UpAt(typ, nlink, ents, slot, d);
    }
    forall d, j | 0 < d < |typ| && 2 <= j < |ents'[d]| ensures SlotAt(typ, nlink', ents', slot, d, j) {
      assert SlotAt(typ, nlink, ents, slot, d, j) && DirAt(typ, nlink, ents, slot, d);
    }
    forall d, j, m | 0 < d < |typ| && 0 <= j < m < |ents'[d]| ensures OnceAt(typ, nlink', ents', slot, d, j, m) {
      assert OnceAt(typ, nlink, ents, slot, d, j, m);
    }
  }

  /** The two entries of a new directory. */
  function Dots(c: int, dp: int): (es: seq<Entry>) {
    [Entry(c, DOT), Entry(dp, DOTDOT)]
  }

  lemma DotsCount(c: int, dp: int, i: int)
    ensures InDir(Dots(c, dp), i, 0) == Bit(dp == i)
  {
    assert InDir(Dots(c, dp), i, 2) == 0;
    assert InDir(Dots(c, dp), i, 1) == Bit(dp == i);
  }

  lemma AddDirCount(typ: seq<int>, nlink: seq<int>, ents: seq<seq<Entry>>, slot: seq<int>, dp: int, k: int, name: Name,
                    c: int, i: int)
    requires Inv(typ, nlink, ents, slot) && 0 < dp < |typ| && typ[dp] == DIR && nlink[dp] > 0
             && RoomFor(ents, dp, k, name)
    requires 0 < c < |typ| && typ[c] == FREE && 0 < i < |typ|
    ensures var typ', nlink' := typ[c := DIR], nlink[c := 1][dp := nlink[dp] + 1];
            var ents' := ents[c := Dots(c, dp)][dp := Placed(ents[dp], k, Entry(c, name))];
            nlink'[i] == Count(ents', On(typ', nlink'), i, 0)
  {
    var typ', nlink' := typ[c := DIR], nlink[c := 1][dp := nlink[dp] + 1];
    var on, ents1 := On(typ, nlink), ents[c := Dots(c, dp)];
    DotsUsed(typ, nlink, ents, slot, dp, k, name);
    assert CountAt(typ, nlink, ents, slot, i) && CountAt(typ, nlink, ents, slot, c);
    assert On(typ', nlink') == on[c := true];
    CountEnts(ents, on, c, Dots(c, dp), i, 0);
    CountOn(ents1, on, c, true, i, 0);
    DotsCount(c, dp, i);
    CountPlaced(ents1, on[c := true], dp, k, Entry(c, name), i);
  }

  /** Making a directory in a linked directory. */
  lemma AddDir(typ: seq<int>, nlink: seq<int>, ents: seq<seq<Entry>>, slot: seq<int>, dp: int, k: int, name: Name,
               c: int)
    requires Inv(typ, nlink, ents, slot) && 0 < dp < |typ| && typ[dp] == DIR && nlink[dp] > 0
             && RoomFor(ents, dp, k, name)
    requires 0 < c < |typ| && typ[c] == FREE
    ensures Inv(typ[c := DIR], nlink[c := 1][dp := nlink[dp] + 1],
              ents[c := Dots(c, dp)][dp := Placed(ents[dp], k, Entry(c, name))], slot[c := k])
  {
    var typ', nlink' := typ[c := DIR], nlink[c := 1][dp := nlink[dp] + 1];
    var ents', slot' := ents[c := Dots(c, dp)][dp := Placed(ents[dp], k, Entry(c, name))], slot[c := k];
    DotsUsed(typ, nlink, ents, slot, dp, k, name);
    assert DirAt(typ, nlink, ents, slot, c);
    forall i | 0 < i < |typ'| ensures CountAt(typ', nlink', ents', slot', i) {
      AddDirCount(typ, nlink, ents, slot, dp, k, name, c, i);
    }
    forall d | 0 < d < |typ'| ensures DirAt(typ', nlink', ents', slot', d) && UpAt(typ', nlink', ents', slot', d) {
      assert DirAt(typ, nlink, ents, slot, d) && UpAt(typ, nlink, ents, slot, d);
    }
    forall d, j | 0 < d < |typ'| && 2 <= j < |ents'[d]| ensures SlotAt(typ', nlink', ents', slot', d, j) {
      if j < |ents[d]| {
        assert SlotAt(typ, nlink, ents, slot, d, j);
        assert DirAt(typ, nlink, ents, slot, d);
        if ents[d][j].inum == c { Counted(typ, nlink, ents, slot, d, j, c); }
      }
    }
    forall d, j, m | 0 < d < |typ'| && 0 <= j < m < |ents'[d]| ensures OnceAt(typ', nlink', ents', slot', d, j, m) {
      assert m < |ents[d]| ==> OnceAt(typ, nlink, ents, slot, d, j, m);
    }
  }

  /** Nothing but "." and "..". */
  predicate Hollow(es: seq<Entry>) {
    forall j | 2 <= j < |es| :: es[j].inum == 0
  }

  lemma HollowCount(es: seq<Entry>, c: int, i: int)
    requires |es| >= 2 && Hollow(es) && es[0] == Entry(c, DOT) && es[1].name == DOTDOT && i != 0
    ensures InDir(es, i, 0) == Bit(es[1].inum == i)
  {
    InDirZero(es, i, 2);
    assert InDir(es, i, 1) == Bit(es[1].inum == i);
  }

  /** An empty directory has one name, that in its parent. */
  ghost predicate Removable(typ: seq<int>, nlink: seq<int>, ents: seq<seq<Entry>>, slot: seq<int>, dp: int, k: int,
                            c: int) {
    && Inv(typ, nlink, ents, slot) && 0 < dp < |typ| && typ[dp] == DIR && 2 <= k < |ents[dp]|
    && c == ents[dp][k].inum && 0 < c < |typ| && typ[c] == DIR && Hollow(ents[c])
  }

  lemma InParent(typ: seq<int>, nlink: seq<int>, ents: seq<seq<Entry>>, slot: seq<int>, dp: int, k: int, c: int)
    requires Removable(typ, nlink, ents, slot, dp, k, c)
    ensures c != dp && c != ROOT && nlink[dp] > 0 && ents[dp][k].name != DOT && |ents[c]| >= 2
            && ents[c][0] == Entry(c, DOT) && ents[c][1] == Entry(dp, DOTDOT)
  {
    assert SlotAt(typ, nlink, ents, slot, dp, k) && DirAt(typ, nlink, ents, slot, c);
  }

  lemma OtherNames(typ: seq<int>, nlink: seq<int>, ents: seq<seq<Entry>>, slot: seq<int>, dp: int, k: int, c: int,
                   d: int, j: int)
    requires Removable(typ, nlink, ents, slot, dp, k, c) && 0 <= d < |typ| && typ[d] == DIR && nlink[d] > 0
             && 0 <= j < |ents[d]| && !(d == dp && j == k)
    ensures !Names(ents[d][j], c)
  {
    assert DirAt(typ, nlink, ents, slot, d) && UpAt(typ, nlink, ents, slot, d);
    if j >= 2 { assert SlotAt(typ, nlink, ents, slot, d, j); }
    assert SlotAt(typ, nlink, ents, slot, dp, k);
  }

  lemma OneName(typ: seq<int>, nlink: seq<int>, ents: seq<seq<Entry>>, slot: seq<int>, dp: int, k: int, c: int)
    requires Removable(typ, nlink, ents, slot, dp, k, c)
    ensures nlink[c] == 1
  {
    var on, ents' := On(typ, nlink), ents[dp := Cleared(ents[dp], k)];
    InParent(typ, nlink, ents, slot, dp, k, c);
    assert CountAt(typ, nlink, ents, slot, c);
    CountCleared(ents, on, dp, k, c);
    forall d, j | 0 <= d < |ents'| && on[d] && 0 <= j < |ents'[d]| ensures !Names(ents'[d][j], c) {
      if !(d == dp && j == k) { OtherNames(typ, nlink, ents, slot, dp, k, c, d, j); }
    }
    CountZero(ents', on, c, 0);
  }

  /** Its parent has another name besides the ".." that goes. */
  lemma ParentStays(typ: seq<int>, nlink: seq<int>, ents: seq<seq<Entry>>, slot: seq<int>, dp: int, k: int, c: int)
    requires Removable(typ, nlink, ents, slot, dp, k, c)
    ensures nlink[dp] >= 2
  {
    var on := On(typ, nlink);
    InParent(typ, nlink, ents, slot, dp, k, c);
    OneName(typ, nlink, ents, slot, dp, k, c);
    assert CountAt(typ, nlink, ents, slot, dp) && UpAt(typ, nlink, ents, slot, dp) && DirAt(typ, nlink, ents, slot, dp);
    CountOn(ents, on, c, false, dp, 0);
    HollowCount(ents[c], c, dp);
    var e, j := if dp == ROOT then ROOT else ents[dp][1].inum, if dp == ROOT then 1 else slot[dp];
    assert dp != ROOT ==> SlotAt(typ, nlink, ents, slot, e, j);
    assert on[c := false][e] && Names(ents[e][j], dp);
    CountZero(ents, on[c := false], dp, 0);
  }

  lemma DropDirCount(typ: seq<int>, nlink: seq<int>, ents: seq<seq<Entry>>, slot: seq<int>, dp: int, k: int, c: int,
                     nlink': seq<int>, i: int)
    requires Removable(typ, nlink, ents, slot, dp, k, c) && 0 < i < |typ|
             && nlink' == nlink[dp := nlink[dp] - 1][c := nlink[c] - 1]
    ensures nlink'[i] == Count(ents[dp := Cleared(ents[dp], k)], On(typ, nlink'), i, 0)
  {
    var on := On(typ, nlink);
    InParent(typ, nlink, ents, slot, dp, k, c);
    OneName(typ, nlink, ents, slot, dp, k, c);
    ParentStays(typ, nlink, ents, slot, dp, k, c);
    assert On(typ, nlink') == on[c := false];
    assert CountAt(typ, nlink, ents, slot, i);
    CountOn(ents, on, c, false, i, 0);
    HollowCount(ents[c], c, i);
    CountCleared(ents, on[c := false], dp, k, i);
  }

  /** Removing an empty directory. */
  lemma DropDir(typ: seq<int>, nlink: seq<int>, ents: seq<seq<Entry>>, slot: seq<int>, dp: int, k: int, c: int)
    requires Removable(typ, nlink, ents, slot, dp, k, c)
    ensures c != dp && nlink[c] == 1
    ensures Inv(typ, nlink[dp := nlink[dp] - 1][c := nlink[c] - 1], ents[dp := Cleared(ents[dp], k)], slot)
  {
    var nlink', ents' := nlink[dp := nlink[dp] - 1][c := nlink[c] - 1], ents[dp := Cleared(ents[dp], k)];
    InParent(typ, nlink, ents, slot, dp, k, c);
    OneName(typ, nlink, ents, slot, dp, k, c);
    ParentStays(typ, nlink, ents, slot, dp, k, c);
    forall i | 0 < i < |typ| ensures CountAt(typ, nlink', ents', slot, i) {
      DropDirCount(typ, nlink, ents, slot, dp, k, c, nlink', i);
    }
    forall d | 0 < d < |typ| ensures DirAt(typ, nlink', ents', slot, d) && UpAt(typ, nlink', ents', slot, d) {
      assert DirAt(typ, nlink, ents, slot, d) && UpAt(typ, nlink, ents, slot, d);
    }
    forall d, j | 0 < d < |typ| && 2 <= j < |ents'[d]| ensures SlotAt(typ, nlink', ents', slot, d, j) {
      assert SlotAt(typ, nlink, ents, slot, d, j);
    }
    forall d, j, m | 0 < d < |typ| && 0 <= j < m < |ents'[d]| ensures OnceAt(typ, nlink', ents', slot, d, j, m) {
      assert OnceAt(typ, nlink, ents, slot, d, j, m);
    }
  }

  /** Freeing an inode that no link reaches. */
  lemma Forget(typ: seq<int>, nlink: seq<int>, ents: seq<seq<Entry>>, slot: seq<int>, c: int)
    requires Inv(typ, nlink, ents, slot) && 0 < c < |typ| && nlink[c] == 0
    ensures Inv(typ[c := FREE], nlink, ents[c := []], slot)
  {
    var typ', ents' := typ[c := FREE], ents[c := []];
    assert On(typ', nlink) == On(typ, nlink);
    forall i | 0 < i < |typ'| ensures CountAt(typ', nlink, ents', slot, i) {
      assert CountAt(typ, nlink, ents, slot, i);
      CountEnts(ents, On(typ, nlink), c, [], i, 0);
    }
    forall d | 0 < d < |typ'| ensures DirAt(typ', nlink, ents', slot, d) && UpAt(typ', nlink, ents', slot, d) {
      assert DirAt(typ, nlink, ents, slot, d) && UpAt(typ, nlink, ents, slot, d);
    }
    forall d, j | 0 < d < |typ'| && 2 <= j < |ents'[d]| ensures SlotAt(typ', nlink, ents', slot, d, j) {
      assert SlotAt(typ, nlink, ents, slot, d, j) && DirAt(typ, nlink, ents, slot, d);
    }
    forall d, j, m | 0 < d < |typ'| && 0 <= j < m < |ents'[d]| ensures OnceAt(typ', nlink, ents', slot, d, j, m) {
      assert OnceAt(typ, nlink, ents, slot, d, j, m);
    }
  }

  // ---- directories that no link reaches ----

  /** A name given to a file in directory dp is counted exactly when dp is linked. */
  lemma FileNameIff(typ: seq<int>, nlink: seq<int>, ents: seq<seq<Entry>>, slot: seq<int>, dp: int, k: int, name: Name,
                    c: int, ty: int)
    requires Inv(typ, nlink, ents, slot) && 0 < dp < |typ| && typ[dp] == DIR && RoomFor(ents, dp, k, name)
    requires 0 < c < |typ| && typ[c] != DIR && ty != DIR && ty != FREE
    ensures var typ', nlink' := typ[c := ty], nlink[c := nlink[c] + 1];
            nlink'[c] == Count(ents[dp := Placed(ents[dp], k, Entry(c, name))], On(typ', nlink'), c, 0) <==>
              nlink[dp] > 0
  {
    var typ', nlink' := typ[c := ty], nlink[c := nlink[c] + 1];
    DotsUsed(typ, nlink, ents, slot, dp, k, name);
    assert CountAt(typ, nlink, ents, slot, c) && On(typ', nlink') == On(typ, nlink);
    CountPlaced(ents, On(typ, nlink), dp, k, Entry(c, name), c);
  }

  /** mkdir in a directory dp that no link reaches gives dp a link again, and with it the name ".." in dp counts: the
      inode it names has one name more than links. */
  lemma MkdirMiscounts(typ: seq<int>, nlink: seq<int>, ents: seq<seq<Entry>>, slot: seq<int>, dp: int, k: int,
                       name: Name, c: int, e: int)
    requires Inv(typ, nlink, ents, slot) && 0 < dp < |typ| && typ[dp] == DIR && nlink[dp] == 0
             && RoomFor(ents, dp, k, name)
    requires 0 < c < |typ| && typ[c] == FREE && |ents[dp]| >= 2 && e == ents[dp][1].inum && 0 < e < |typ|
    ensures var typ', nlink' := typ[c := DIR], nlink[c := 1][dp := nlink[dp] + 1];
            var ents' := ents[c := Dots(c, dp)][dp := Placed(ents[dp], k, Entry(c, name))];
            Count(ents', On(typ', nlink'), e, 0) == nlink'[e] + 1
  {
    var typ', nlink' := typ[c := DIR], nlink[c := 1][dp := nlink[dp] + 1];
    var on, ents1 := On(typ, nlink), ents[c := Dots(c, dp)];
    DotsUsed(typ, nlink, ents, slot, dp, k, name);
    assert CountAt(typ, nlink, ents, slot, e) && DirAt(typ, nlink, ents, slot, dp);
    forall j | 2 <= j < |ents[dp]| ensures ents[dp][j].inum == 0 { assert SlotAt(typ, nlink, ents, slot, dp, j); }
    assert On(typ', nlink') == on[c := true][dp := true];
    CountEnts(ents, on, c, Dots(c, dp), e, 0);
    CountOn(ents1, on, c, true, e, 0);
    DotsCount(c, dp, e);
    CountOn(ents1, on[c := true], dp, true, e, 0);
    HollowCount(ents[dp], dp, e);
    CountPlaced(ents1, on[c := true][dp := true], dp, k, Entry(c, name), e);
  }

  /** A directory made in directory dp leaves every link count right, and a well-formed tree, exactly when dp is linked;
      what goes wrong otherwise is the link count of the inode that ".." in dp names. */
  lemma DirNameIff(typ: seq<int>, nlink: seq<int>, ents: seq<seq<Entry>>, slot: seq<int>, dp: int, k: int, name: Name,
                   c: int, e: int)
    requires Inv(typ, nlink, ents, slot) && 0 < dp < |typ| && typ[dp] == DIR && RoomFor(ents, dp, k, name)
             && 0 < c < |typ| && typ[c] == FREE
    requires |ents[dp]| >= 2 && e == ents[dp][1].inum
    ensures 0 < e < |typ|
    ensures var typ', nlink' := typ[c := DIR], nlink[c := 1][dp := nlink[dp] + 1];
            var ents' := ents[c := Dots(c, dp)][dp := Placed(ents[dp], k, Entry(c, name))];
            && (nlink'[e] == Count(ents', On(typ', nlink'), e, 0) <==> nlink[dp] > 0)
            && (Inv(typ', nlink', ents', slot[c := k]) <==> nlink[dp] > 0)
  {
    assert DirAt(typ, nlink, ents, slot, dp) && CountAt(typ, nlink, ents, slot, dp);
    var typ', nlink' := typ[c := DIR], nlink[c := 1][dp := nlink[dp] + 1];
    var ents', slot' := ents[c := Dots(c, dp)][dp := Placed(ents[dp], k, Entry(c, name))], slot[c := k];
    if nlink[dp] > 0 {
      AddDirCount(typ, nlink, ents, slot, dp, k, name, c, e);
      AddDir(typ, nlink, ents, slot, dp, k, name, c);
    } else {
      MkdirMiscounts(typ, nlink, ents, slot, dp, k, name, c, e);
      if Shape(typ', nlink', ents', slot') { assert !CountAt(typ', nlink', ents', slot', e); }
    }
  }

  /** There is such a directory in a well-formed tree: one removed while it is still in use. */
  lemma UnlinkedExists() returns (typ: seq<int>, nlink: seq<int>, ents: seq<seq<Entry>>, slot: seq<int>)
    ensures Inv(typ, nlink, ents, slot) && |typ| > 3 && typ[2] == DIR && nlink[2] == 0 && typ[3] == FREE
            && RoomFor(ents, 2, 2, "a")
  {
    typ, nlink, slot := [FREE, DIR, DIR, FREE], [0, 1, 0, 0], [0, 0, 2, 0];
    ents := [[], Dots(1, 1), Dots(2, 1), []];
    var on := On(typ, nlink);
    forall i | 0 < i < 4 ensures CountAt(typ, nlink, ents, slot, i) {
      DotsCount(1, 1, i);
      assert Count(ents, on, i, 4) == 0;
      assert Count(ents, on, i, 3) == 0;
      assert Count(ents, on, i, 2) == 0;
      assert Count(ents, on, i, 1) == InDir(Dots(1, 1), i, 0);
    }
    forall d, j, k | 0 < d < 4 && 0 <= j < k < |ents[d]| ensures OnceAt(typ, nlink, ents, slot, d, j, k) {}
  }
}
