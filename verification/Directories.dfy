/** Looking up, linking, unlinking and creating names, as the system calls do it in place. */
module Directories {

  import opened Basics
  import opened Links

  const PANIC := -2

  /** The first empty entry from j on, or the end. */
  function FirstEmpty(es: seq<Entry>, j: nat): (k: nat)
    requires j <= |es|
    ensures j <= k <= |es| && (k < |es| ==> es[k].inum == 0) && forall m | j <= m < k :: es[m].inum != 0
    decreases |es| - j
  {
    if j == |es| || es[j].inum == 0 then j else FirstEmpty(es, j + 1)
  }

  predicate Has(es: seq<Entry>, name: Name) {
    exists j | 0 <= j < |es| :: es[j].inum != 0 && es[j].name == name
  }

  /** name, at position k of directory d, has been taken from inode c; for a directory, so has its "..". */
  predicate Unlinked(typ: seq<int>, nlink: seq<int>, ents: seq<seq<Entry>>, d: int, name: Name, k: nat, c: nat,
                     nlink': seq<int>, ents': seq<seq<Entry>>) {
    && |nlink| == |ents| == |typ| && 0 <= d < |typ| && c < |typ| && k < |ents[d]| && ents[d][k] == Entry(c, name)
    && (typ[c] == DIR ==> Hollow(ents[c]) && nlink[c] == 1)
    && ents' == ents[d := Cleared(ents[d], k)]
    && nlink' == if typ[c] == DIR then nlink[d := nlink[d] - 1][c := 0] else nlink[c := nlink[c] - 1]
  }

  class Tree {
    var typ: seq<int>
    var nlink: seq<int>
    var ents: seq<seq<Entry>>
    ghost var slot: seq<int>

    ghost predicate Valid()
      reads this
    {
      Inv(typ, nlink, ents, slot)
    }

    /** A new file system: a root directory and n - 2 free inodes. */
    constructor (n: nat)
      requires n > ROOT
      ensures Valid() && |typ| == n && ents[ROOT] == Dots(ROOT, ROOT)
              && forall i | 0 < i < n && i != ROOT :: typ[i] == FREE
    {
      typ := seq(n, i => if i == ROOT then DIR else FREE);
      nlink := seq(n, i => if i == ROOT then 1 else 0);
      ents := seq(n, i => if i == ROOT then Dots(ROOT, ROOT) else []);
      slot := seq(n, _ => 0);
      new;
      forall i | 0 < i < n ensures CountAt(typ, nlink, ents, slot, i) {
        var on := On(typ, nlink);
        var none := seq(n, _ => []);
        CountZero(none, on, i, 0);
        assert ents == none[ROOT := Dots(ROOT, ROOT)];
        CountEnts(none, on, ROOT, Dots(ROOT, ROOT), i, 0);
        DotsCount(ROOT, ROOT, i);
      }
    }

    predicate IsDir(d: int)
      reads this
    {
      0 < d < |typ| && typ[d] == DIR && |ents| == |typ| == |nlink|
    }

    /** The position of name in directory d, or -1. */
    method Dirlookup(d: int, name: Name) returns (k: int)
      requires IsDir(d)
      ensures k == -1 <==> !Has(ents[d], name)
      ensures k != -1 ==> 0 <= k < |ents[d]| && ents[d][k].inum != 0 && ents[d][k].name == name
      ensures k != -1 ==> forall j | 0 <= j < k :: ents[d][j].inum == 0 || ents[d][j].name != name
    {
      k := 0;
      while k < |ents[d]|
        invariant 0 <= k <= |ents[d]| && forall j | 0 <= j < k :: ents[d][j].inum == 0 || ents[d][j].name != name
      {
        if ents[d][k].inum != 0 && ents[d][k].name == name {
          return;
        }
        k := k + 1;
      }
      k := -1;
    }

    /** Enters name for inode c in directory d, in the first empty entry; false if the name is there already. */
    method Dirlink(d: int, name: Name, c: int) returns (ok: bool)
      requires IsDir(d)
      modifies `ents
      ensures ok <==> !old(Has(ents[d], name))
      ensures ents == if ok then old(ents)[d := Placed(old(ents[d]), FirstEmpty(old(ents[d]), 0), Entry(c, name))]
              else old(ents)
    {
      var k := Dirlookup(d, name);
      if k != -1 {
        return false;
      }
      k := 0;
      while k < |ents[d]|
        invariant 0 <= k <= |ents[d]| && ents == old(ents) && FirstEmpty(ents[d], k) == FirstEmpty(ents[d], 0)
      {
        if ents[d][k].inum == 0 {
          break;
        }
        k := k + 1;
      }
      ents := ents[d := Placed(ents[d], k, Entry(c, name))];
      return true;
    }

    method Isdirempty(d: int) returns (b: bool)
      requires 0 <= d < |ents|
      ensures b <==> Hollow(ents[d])
    {
      var j := 2;
      while j < |ents[d]|
        invariant 2 <= j && forall m | 2 <= m < j && m < |ents[d]| :: ents[d][m].inum == 0
      {
        if ents[d][j].inum != 0 {
          return false;
        }
        j := j + 1;
      }
      return true;
    }

    /** The lowest free inode, or 0 where the kernel panics; it is given a type, and its old contents are wiped. */
    method Ialloc(ty: int) returns (c: int)
      requires |nlink| == |ents| == |typ| && |typ| > 0
      modifies `typ, `nlink, `ents
      ensures c == 0 ==> unchanged(this) && forall i | 0 < i < |typ| :: typ[i] != FREE
      ensures c != 0 ==> 0 < c < old(|typ|) && old(typ[c]) == FREE && forall i | 0 < i < c :: old(typ[i]) != FREE
      ensures c != 0 ==> typ == old(typ)[c := ty] && nlink == old(nlink)[c := 0] && ents == old(ents)[c := []]
    {
      c := 1;
      while c < |typ|
        invariant 0 < c && unchanged(this) && forall i | 0 < i < c && i < |typ| :: typ[i] != FREE
      {
        if typ[c] == FREE {
          typ, nlink, ents := typ[c := ty], nlink[c := 0], ents[c := []];
          return;
        }
        c := c + 1;
      }
      return 0;
    }

    /** sys_link, with what its two paths lead to. The link count is raised first and lowered again on failure. */
    method Link(ip: Option<int>, dp: Option<int>, name: Name) returns (r: int)
      requires Valid() && (dp.Some? ==> IsDir(dp.value)) && (ip.Some? ==> 0 < ip.value < |typ| && typ[ip.value] != FREE)
      modifies this
      ensures r == 0 || r == -1
      ensures r == 0 <==> ip.Some? && dp.Some? && old(typ)[ip.value] != DIR && !old(Has(ents[dp.value], name))
      ensures r == -1 ==> typ == old(typ) && nlink == old(nlink) && ents == old(ents) && slot == old(slot)
      ensures r == 0 ==> typ == old(typ) && nlink == old(nlink)[ip.value := old(nlink[ip.value]) + 1]
      ensures r == 0 ==>
                ents == old(ents)[dp.value := Placed(old(ents[dp.value]), FirstEmpty(old(ents[dp.value]), 0),
                  Entry(ip.value, name))]
      ensures r == 0 && old(nlink[dp.value]) > 0 ==> Valid()
    {
      if ip.None? || typ[ip.value] == DIR {
        return -1;
      }
      nlink := nlink[ip.value := nlink[ip.value] + 1];
      var ok := false;
      if dp.Some? {
        ok := Dirlink(dp.value, name, ip.value);
      }
      if !ok {
        nlink := nlink[ip.value := nlink[ip.value] - 1];
        return -1;
      }
      if old(nlink[dp.value]) > 0 {
        AddFile(typ, old(nlink), old(ents), slot, dp.value, FirstEmpty(old(ents[dp.value]), 0), name, ip.value,
          typ[ip.value]);
        assert typ[ip.value := typ[ip.value]] == typ;
      }
      return 0;
    }

    /** iput, with the count of references to the cached inode c and whether it has been read in: the last reference to
        an inode without links empties and frees it, any other leaves the tree alone. */
    method Iput(c: int, ref: int, valid: bool) returns (ref': int)
      requires Valid() && 0 < c < |typ|
      modifies this
      ensures Valid() && nlink == old(nlink) && slot == old(slot) && ref' == ref - 1
      ensures ref == 1 && valid && old(nlink[c]) == 0 ==> typ == old(typ)[c := FREE] && ents == old(ents)[c := []]
      ensures !(ref == 1 && valid && old(nlink[c]) == 0) ==> unchanged(this)
    {
      if ref == 1 && valid && nlink[c] == 0 {
        Forget(typ, nlink, ents, slot, c);
        typ, ents := typ[c := FREE], ents[c := []];
      }
      ref' := ref - 1;
    }

    /** sys_unlink of name in the directory its path leads to. The panic for an inode without links is not reached. */
    method Unlink(dp: Option<int>, name: Name) returns (r: int, ghost k: nat, ghost c: nat)
      requires Valid() && (dp.Some? ==> IsDir(dp.value))
      modifies this
      ensures Valid() && r in {0, -1}
      ensures r == -1 ==> unchanged(this)
      ensures dp.None? || name == DOT || name == DOTDOT || !old(Has(ents[dp.value], name)) ==> r == -1
      ensures dp.Some? && name != DOT && name != DOTDOT && old(Has(ents[dp.value], name)) ==>
                k < |old(ents[dp.value])| && old(ents[dp.value])[k] == Entry(c, name) && c < |old(typ)|
                && c < |old(ents)| && (r == -1 <==> old(typ[c] == DIR && !Hollow(ents[c])))
      ensures r == 0 ==>
                typ == old(typ) && slot == old(slot)
                && Unlinked(old(typ), old(nlink), old(ents), dp.value, name, k, c, nlink, ents)
    {
      k, c := 0, 0;
      if dp.None? || name == DOT || name == DOTDOT {
        return -1, 0, 0;
      }
      var d := dp.value;
      var at := Dirlookup(d, name);
      if at == -1 {
        return -1, 0, 0;
      }
      assert DirAt(typ, nlink, ents, slot, d);
      assert SlotAt(typ, nlink, ents, slot, d, at);
      var i := ents[d][at].inum;
      k, c := at, i;
      Counted(typ, nlink, ents, slot, d, at, i);
      if nlink[i] < 1 {
        return PANIC, k, c;
      }
      var empty := Isdirempty(i);
      if typ[i] == DIR && !empty {
        return -1, k, c;
      }
      if typ[i] == DIR {
        DropDir(typ, nlink, ents, slot, d, at, i);
      } else {
        DropFile(typ, nlink, ents, slot, d, at, i);
      }
      ents := ents[d := Cleared(ents[d], at)];
      if typ[i] == DIR {
        nlink := nlink[d := nlink[d] - 1];
      }
      nlink := nlink[i := nlink[i] - 1];
      return 0, k, c;
    }

    /** A new inode of type ty under a name that directory d does not have; PANIC where there is no free inode. */
    method CreateNew(d: int, name: Name, ty: int) returns (c: int)
      requires Valid() && IsDir(d) && !Has(ents[d], name) && ty in {DIR, FILE, DEVICE}
      modifies this
      ensures c == PANIC ==> unchanged(this) && forall i | 0 < i < |typ| :: typ[i] != FREE
      ensures c != PANIC ==> 0 < c < old(|typ|) && old(typ[c]) == FREE && typ == old(typ)[c := ty]
      ensures c != PANIC ==>
                nlink == if ty == DIR then old(nlink)[c := 1][d := old(nlink[d]) + 1] else old(nlink)[c := 1]
      ensures c != PANIC ==> var es := Placed(old(ents[d]), FirstEmpty(old(ents[d]), 0), Entry(c, name));
                ents == if ty == DIR then old(ents)[c := Dots(c, d)][d := es] else old(ents)[d := es]
      ensures slot == if c != PANIC && ty == DIR then old(slot)[c := FirstEmpty(old(ents[d]), 0)] else old(slot)
    {
      c := Ialloc(ty);
      if c == 0 {
        return PANIC;
      }
      assert DirAt(old(typ), old(nlink), old(ents), slot, c);
      assert ents == old(ents);
      nlink := nlink[c := 1];
      if ty == DIR {
        nlink := nlink[d := nlink[d] + 1];
        var ok := Dirlink(c, DOT, c);
        ok := Dirlink(c, DOTDOT, d);
        assert ents[c] == Dots(c, d);
        assert ents == old(ents)[c := Dots(c, d)];
        slot := slot[c := FirstEmpty(ents[d], 0)];
      }
      var ok := Dirlink(d, name, c);
    }

    /** create, with the directory its path leads to: the inode of the name, 0 on failure, PANIC where
        the kernel panics. */
    method Create(dp: Option<int>, name: Name, ty: int) returns (r: int)
      requires Valid() && (dp.Some? ==> IsDir(dp.value)) && ty in {DIR, FILE, DEVICE}
      modifies this
      ensures dp.None? ==> r == 0
      ensures dp.Some? && old(Has(ents[dp.value], name)) ==>
                exists e | e in old(ents[dp.value]) && e.inum != 0 && e.name == name ::
                0 < e.inum < old(|typ|) && r == if ty == FILE && old(typ)[e.inum] in {FILE, DEVICE} then e.inum else 0
      ensures dp.None? || old(Has(ents[dp.value], name)) || r == PANIC ==> unchanged(this)
      ensures r == PANIC ==> forall i | 0 < i < |typ| :: typ[i] != FREE
      ensures dp.Some? && !old(Has(ents[dp.value], name)) && r != PANIC ==>
                && 0 < r < old(|typ|) && old(typ[r]) == FREE && typ == old(typ)[r := ty]
                && nlink == (if ty == DIR then old(nlink)[r := 1][dp.value := old(nlink[dp.value]) + 1]
                             else old(nlink)[r := 1])
                && var es := Placed(old(ents[dp.value]), FirstEmpty(old(ents[dp.value]), 0), Entry(r, name));
                ents == if ty == DIR then old(ents)[r := Dots(r, dp.value)][dp.value := es]
                else old(ents)[dp.value := es]
      ensures dp.Some? && old(nlink[dp.value]) > 0 ==> Valid()
    {
      if dp.None? {
        return 0;
      }
      var d := dp.value;
      var k := Dirlookup(d, name);
      if k != -1 {
        assert DirAt(typ, nlink, ents, slot, d);
        if k >= 2 { assert SlotAt(typ, nlink, ents, slot, d, k); }
        var c := ents[d][k].inum;
        assert ents[d][k] in old(ents[dp.value]) && 0 < c < |typ|;
        return if ty == FILE && (typ[c] == FILE || typ[c] == DEVICE) then c else 0;
      }
      r := CreateNew(d, name, ty);
      if r != PANIC && old(nlink[d]) > 0 {
        if ty == DIR {
          AddDir(old(typ), old(nlink), old(ents), old(slot), d, FirstEmpty(old(ents[d]), 0), name, r);
        } else {
          AddFile(old(typ), old(nlink), old(ents), slot, d, FirstEmpty(old(ents[d]), 0), name, r, ty);
        }
      }
    }
  }
}
