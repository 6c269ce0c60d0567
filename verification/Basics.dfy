/** What the other modules share. */
module Basics {

  datatype Option<T> = None | Some(value: T)

  const MAXOPBLOCKS: nat := 10
  const PGSIZE: nat := 4096

  /** The contents of a disk block. */
  type Block = seq<int>

  type Text = seq<char>

  function Bit(b: bool): (n: nat) {
    if b then 1 else 0
  }

  /** The pages that n bytes take up. */
  function PageCount(n: nat): (k: nat) {
    (n + PGSIZE - 1) / PGSIZE
  }

  function PgRoundUp(a: nat): (r: nat)
    ensures a <= r < a + PGSIZE && r % PGSIZE == 0
  {
    PageCount(a) * PGSIZE
  }

  predicate Distinct(s: seq<int>) {
    forall i, j | 0 <= i < j < |s| :: s[i] != s[j]
  }

  lemma SubsetSize(a: set<int>, b: set<int>)
    requires a <= b
    ensures |a| <= |b|
  {
    assert b == a + (b - a);
  }
}
