/** The shrinking-gap sort of rw_scattered. */
module Scattered {
  import opened Storage
  import opened CacheSpec

  ghost predicate Queue(q: seq<int>, cells: seq<Cell>) {
    forall p :: 0 <= p < |q| ==> 0 <= q[p] < |cells|
  }

  /** Ascending block numbers. */
  ghost predicate Ascending(q: seq<int>, cells: seq<Cell>)
    requires Queue(q, cells)
  {
    forall a, b :: 0 <= a < b < |q| ==> cells[q[a]].blk <= cells[q[b]].blk
  }

  /** In the first `j + 1` entries only the one at `hole` may be too small for its place. */
  ghost predicate AscendingBut(q: seq<int>, cells: seq<Cell>, j: int, hole: int)
    requires Queue(q, cells)
  {
    forall a, b :: 0 <= a < b <= j < |q| && b != hole ==> cells[q[a]].blk <= cells[q[b]].blk
  }

  /** The gaps of the sort: 1, 4, 13, 40, ... */
  ghost predicate Gap(g: nat) {
    g == 1 || (g > 1 && g % 3 == 1 && Gap(g / 3))
  }

  lemma MultisetSwap(q: seq<int>, i: nat, j: nat)
    requires i < j < |q|
    ensures multiset(q[i := q[j]][j := q[i]]) == multiset(q)
  {
  }

  lemma AscendingSwap(q: seq<int>, cells: seq<Cell>, j: int, i: nat)
    requires Queue(q, cells) && i < j < |q| && AscendingBut(q, cells, j, i + 1)
    requires cells[q[i]].blk > cells[q[i + 1]].blk
    ensures var r := q[i := q[i + 1]][i + 1 := q[i]]; Queue(r, cells) && AscendingBut(r, cells, j, i)
  {
    var r := q[i := q[i + 1]][i + 1 := q[i]];
    forall a, b | 0 <= a < b <= j && b != i ensures cells[r[a]].blk <= cells[r[b]].blk {
      if b == i + 1 {
        if a < i { assert cells[q[a]].blk <= cells[q[i]].blk; }
      }
    }
  }

  /** Two entries that are out of order change places. */
  method Exchange(bufq: array<int>, i: nat, k: nat, size: nat, ghost cells: seq<Cell>, gap: nat, ghost j: int)
    requires 0 < gap && k == i + gap < size <= bufq.Length && Queue(bufq[..size], cells)
    requires k <= j < size
    requires gap == 1 ==> AscendingBut(bufq[..size], cells, j, k) && cells[bufq[i]].blk > cells[bufq[k]].blk
    modifies bufq
    ensures multiset(bufq[..size]) == multiset(old(bufq[..size])) && bufq[size..] == old(bufq[size..])
    ensures Queue(bufq[..size], cells) && (gap == 1 ==> AscendingBut(bufq[..size], cells, j, i))
  {
    ghost var q := bufq[..size];
    MultisetSwap(q, i, k);
    if gap == 1 { AscendingSwap(q, cells, j, i); }
    SwapQueue(q, cells, i, k);
    hide Queue, AscendingBut;
    var bp := bufq[i];
    bufq[i] := bufq[k];
    bufq[k] := bp;
    assert bufq[..size] == q[i := q[k]][k := q[i]];
  }

  lemma SwapQueue(q: seq<int>, cells: seq<Cell>, i: nat, k: nat)
    requires Queue(q, cells) && i < |q| && k < |q|
    ensures Queue(q[i := q[k]][k := q[i]], cells)
  {}

  /** One pass of the sort: entries `gap` apart are exchanged until the entry at `j`
      is in place; with gap 1 this is insertion. */
  method Sift(bufq: array<int>, size: nat, cell: array<Cell>, gap: nat, j: nat)
    requires size <= bufq.Length && 0 < gap <= j < size && bufq != cell as object
    requires Queue(bufq[..size], cell[..])
    requires gap == 1 ==> AscendingBut(bufq[..size], cell[..], j, j)
    modifies bufq
    ensures multiset(bufq[..size]) == multiset(old(bufq[..size])) && bufq[size..] == old(bufq[size..])
    ensures Queue(bufq[..size], cell[..])
    ensures gap == 1 ==> AscendingBut(bufq[..size], cell[..], j, -1)
  {
    hide AscendingBut;
    var i := j - gap;
    while i >= 0 && cell[bufq[i]].blk > cell[bufq[i + gap]].blk
      invariant 0 <= i + gap <= j
      invariant multiset(bufq[..size]) == multiset(old(bufq[..size])) && bufq[size..] == old(bufq[size..])
      invariant Queue(bufq[..size], cell[..])
      invariant gap == 1 ==> AscendingBut(bufq[..size], cell[..], j, i + 1)
    {
      Exchange(bufq, i, i + gap, size, cell[..], gap, j);
      i := i - gap;
    }
    if gap == 1 {
      Settled(bufq[..size], cell[..], j, i);
    }
  }

  lemma Settled(q: seq<int>, cells: seq<Cell>, j: int, i: int)
    requires Queue(q, cells) && -1 <= i < j < |q| && AscendingBut(q, cells, j, i + 1)
    requires i >= 0 ==> cells[q[i]].blk <= cells[q[i + 1]].blk
    ensures AscendingBut(q, cells, j, -1)
  {
    forall a, b | 0 <= a < b <= j ensures cells[q[a]].blk <= cells[q[b]].blk {
      if b == i + 1 && a < i { assert cells[q[a]].blk <= cells[q[i]].blk; }
    }
  }

  /** The sort of rw_scattered: for every queue length the result is in ascending block
      order and a permutation of the queue. */
  method SortQueue(bufq: array<int>, size: nat, cell: array<Cell>)
    requires size <= bufq.Length && bufq != cell as object
    requires Queue(bufq[..size], cell[..])
    modifies bufq
    ensures multiset(bufq[..size]) == multiset(old(bufq[..size])) && bufq[size..] == old(bufq[size..])
    ensures Queue(bufq[..size], cell[..]) && Ascending(bufq[..size], cell[..])
  {
    var gap: nat := 1;
    gap := 3 * gap + 1;
    while gap <= size
      invariant gap > 1 && Gap(gap)
    {
      gap := 3 * gap + 1;
    }
    while gap != 1
      invariant Gap(gap)
      invariant multiset(bufq[..size]) == multiset(old(bufq[..size])) && bufq[size..] == old(bufq[size..])
      invariant Queue(bufq[..size], cell[..])
      invariant gap == 1 ==> Ascending(bufq[..size], cell[..])
    {
      gap := gap / 3;
      var j := gap;
      while j < size
        invariant gap <= j && (j <= size || j == gap)
        invariant multiset(bufq[..size]) == multiset(old(bufq[..size])) && bufq[size..] == old(bufq[size..])
        invariant Queue(bufq[..size], cell[..])
        invariant gap == 1 && j <= size ==> AscendingBut(bufq[..size], cell[..], j - 1, -1)
      {
        Sift(bufq, size, cell, gap, j);
        j := j + 1;
      }
      assert gap == 1 && size > 0 ==> AscendingBut(bufq[..size], cell[..], size - 1, -1);
    }
  }
}
