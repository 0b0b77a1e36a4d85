/** Hash chains by block number, and the counts that let get_block2 skip its search. */
module CacheTables {
  import opened Storage
  import opened CacheSpec
  import opened Links

  /** The hash function of both levels: the low bits of the block number (table sizes
      are powers of two). */
  function Bucket(blk: nat, size: nat): (h: nat)
    requires size > 0
    ensures h < size
  {
    blk % size
  }

  /** Block numbers that are a multiple of the table size apart share a hash chain, and no others. */
  lemma BucketIs(q: nat, h: nat, size: nat)
    requires h < size
    ensures Bucket(q * size + h, size) == h
  {
    var blk := q * size + h;
    assert blk == (blk / size) * size + blk % size;
    if q < blk / size { FurtherBucket(q, blk / size, size); }
    else if blk / size < q { FurtherBucket(blk / size, q, size); }
  }

  lemma {:induction false} FurtherBucket(a: nat, b: nat, n: nat)
    requires a < b
    ensures a * n + n <= b * n
  {
    assert (a + 1) * n == a * n + n;
    if a + 1 < b {
      FurtherBucket(a, b - 1, n);
      assert b * n == (b - 1) * n + n;
    }
  }

  /** Every buffer but `off` is on the chain of its block number, once, and nowhere else. */
  ghost predicate Hashed(link: seq<int>, heads: seq<int>, cells: seq<Cell>, chains: seq<seq<int>>, off: int) {
    && |link| == |cells| && |chains| == |heads| > 0
    && (forall h :: 0 <= h < |heads| ==> Chain(link, heads[h], chains[h]) && NoDup(chains[h]))
    && (forall h, i :: 0 <= h < |heads| ==> (i in chains[h] <==> OnChain(cells, |heads|, h, i, off)))
  }

  ghost predicate OnChain(cells: seq<Cell>, heads: nat, h: int, i: int, off: int) {
    heads > 0 && 0 <= i < |cells| && i != off && Bucket(cells[i].blk, heads) == h
  }

  /** Only b_blocknr matters to the chains. */
  lemma HashedSame(link: seq<int>, heads: seq<int>, cells: seq<Cell>, cells': seq<Cell>, chains: seq<seq<int>>, off: int)
    requires Hashed(link, heads, cells, chains, off) && |cells'| == |cells|
    requires forall i :: 0 <= i < |cells| && i != off ==> cells'[i].blk == cells[i].blk
    ensures Hashed(link, heads, cells', chains, off)
  {
    forall h, i | 0 <= h < |heads| ensures i in chains[h] <==> OnChain(cells', |heads|, h, i, off) {
      assert OnChain(cells, |heads|, h, i, off) <==> OnChain(cells', |heads|, h, i, off);
    }
  }

  lemma Unhashed(link: seq<int>, heads: seq<int>, cells: seq<Cell>, chains: seq<seq<int>>, v: int, p: nat,
                 link': seq<int>, heads': seq<int>)
    requires Hashed(link, heads, cells, chains, NIL) && 0 <= v < |cells|
    requires var b := Bucket(cells[v].blk, |heads|); p < |chains[b]| && chains[b][p] == v
    requires var b := Bucket(cells[v].blk, |heads|); var s := chains[b];
      && link' == (if p > 0 then link[s[p - 1] := link[v]] else link)
      && heads' == (if p > 0 then heads else heads[b := link[v]])
    ensures var b := Bucket(cells[v].blk, |heads|);
      Hashed(link', heads', cells, chains[b := Without(chains[b], p)], v)
  {
    var b := Bucket(cells[v].blk, |heads|);
    var s := chains[b];
    var chains' := chains[b := Without(s, p)];
    assert Chain(link, heads[b], s) && NoDup(s);
    ChainRemove(link, heads[b], s, p, link', heads'[b]);
    WithoutNoDup(s, p);
    forall h | 0 <= h < |heads| ensures Chain(link', heads'[h], chains'[h]) && NoDup(chains'[h]) {
      if h != b {
        assert Chain(link, heads[h], chains[h]);
        if p > 0 { Elsewhere(cells, |heads|, chains, h, b, s[p - 1]); }
        ChainFrame(link, heads[h], chains[h], link');
      }
    }
    forall h, i | 0 <= h < |heads| ensures i in chains'[h] <==> OnChain(cells, |heads|, h, i, v) {
      assert i in chains[h] <==> OnChain(cells, |heads|, h, i, NIL);
    }
  }

  lemma Elsewhere(cells: seq<Cell>, heads: nat, chains: seq<seq<int>>, h: int, b: int, x: int)
    requires |chains| == heads > 0 && 0 <= h < heads && 0 <= b < heads && h != b
    requires forall h, i :: 0 <= h < heads ==> (i in chains[h] <==> OnChain(cells, heads, h, i, NIL))
    requires x in chains[b]
    ensures x !in chains[h]
  {
    assert OnChain(cells, heads, b, x, NIL);
    assert !OnChain(cells, heads, h, x, NIL);
  }

  lemma Rehashed(link: seq<int>, heads: seq<int>, cells: seq<Cell>, chains: seq<seq<int>>, v: int, cells': seq<Cell>)
    requires Hashed(link, heads, cells, chains, v) && 0 <= v < |cells| == |cells'|
    requires forall i :: 0 <= i < |cells| && i != v ==> cells'[i].blk == cells[i].blk
    ensures var b := Bucket(cells'[v].blk, |heads|);
      Hashed(link[v := heads[b]], heads[b := v], cells', chains[b := [v] + chains[b]], NIL)
  {
    var b := Bucket(cells'[v].blk, |heads|);
    var link', heads', chains' := link[v := heads[b]], heads[b := v], chains[b := [v] + chains[b]];
    forall h | 0 <= h < |heads| ensures Chain(link', heads'[h], chains'[h]) && NoDup(chains'[h]) {
      assert !OnChain(cells, |heads|, h, v, v);
      assert v !in chains[h];
      assert Chain(link, heads[h], chains[h]);
      forall p | 0 <= p < |chains'[h]| ensures link'[chains'[h][p]] == At(chains'[h], p + 1) {
        if h == b && p > 0 { assert chains'[h][p] == chains[h][p - 1]; }
      }
    }
    forall h, i | 0 <= h < |heads| ensures i in chains'[h] <==> OnChain(cells', |heads|, h, i, NIL) {
      assert i in chains[h] <==> OnChain(cells, |heads|, h, i, v);
    }
  }

  // ---------- b2_count ----------

  /** How many of the first `n` slots hold a block with hash `h`. */
  function CountTags(tags: seq<Key>, n: nat, h: int): nat
    requires n <= |tags|
  {
    if n == 0 then 0
    else CountTags(tags, n - 1, h) + (if Counted(tags[n - 1], |tags|, h) then 1 else 0)
  }

  predicate Counted(t: Key, size: nat, h: int) {
    size > 0 && t.dev != NO_DEV && Bucket(t.blk, size) == h
  }

  ghost predicate CountsKept(counts: seq<nat>, tags: seq<Key>, n: nat) {
    n <= |tags| && |counts| == |tags| && forall h :: 0 <= h < |tags| ==> counts[h] == CountTags(tags, n, h)
  }

  lemma {:induction false} CountUpdate(tags: seq<Key>, n: nat, h: int, b: nat, t: Key)
    requires n <= |tags| && b < |tags|
    ensures CountTags(tags[b := t], n, h) == CountTags(tags, n, h) +
      (if b < n && Counted(t, |tags|, h) then 1 else 0) - (if b < n && Counted(tags[b], |tags|, h) then 1 else 0)
  {
    if n > 0 { CountUpdate(tags, n - 1, h, b, t); }
  }

  /** A zero count means there is nothing to find. */
  lemma {:induction false} CountZero(tags: seq<Key>, n: nat, h: int, b: nat)
    requires b < n <= |tags| && CountTags(tags, n, h) == 0
    ensures !Counted(tags[b], |tags|, h)
  {
    if b < n - 1 { CountZero(tags, n - 1, h, b); }
  }

  lemma {:induction false} CountPositive(tags: seq<Key>, n: nat, h: int, b: nat)
    requires b < n <= |tags| && Counted(tags[b], |tags|, h)
    ensures CountTags(tags, n, h) > 0
  {
    if b < n - 1 { CountPositive(tags, n - 1, h, b); }
  }

  /** Refilling slot `b`: the count of what drops out goes down, the count of what comes in goes up. */
  lemma CountsReplace(counts: seq<nat>, tags: seq<Key>, n: nat, b: nat, t: Key, mid: seq<nat>, after: seq<nat>)
    requires CountsKept(counts, tags, n) && b < n && t.dev != NO_DEV
    requires mid == (if tags[b].dev != NO_DEV && counts[Bucket(tags[b].blk, |tags|)] > 0
                     then counts[Bucket(tags[b].blk, |tags|) := counts[Bucket(tags[b].blk, |tags|)] - 1] else counts)
    requires |mid| == |tags| && after == mid[Bucket(t.blk, |tags|) := mid[Bucket(t.blk, |tags|)] + 1]
    ensures CountsKept(after, tags[b := t], n)
  {
    if tags[b].dev != NO_DEV { CountPositive(tags, n, Bucket(tags[b].blk, |tags|), b); }
    forall h | 0 <= h < |tags| ensures after[h] == CountTags(tags[b := t], n, h) {
      CountUpdate(tags, n, h, b, t);
    }
  }

  /** Forgetting slot `b`: its count goes down. */
  lemma CountsDrop(counts: seq<nat>, tags: seq<Key>, n: nat, b: nat, after: seq<nat>)
    requires CountsKept(counts, tags, n) && b < n && tags[b].dev != NO_DEV
    requires counts[Bucket(tags[b].blk, |tags|)] > 0
    requires after == counts[Bucket(tags[b].blk, |tags|) := counts[Bucket(tags[b].blk, |tags|)] - 1]
    ensures CountsKept(after, tags[b := tags[b].(dev := NO_DEV)], n)
  {
    forall h | 0 <= h < |tags| ensures after[h] == CountTags(tags[b := tags[b].(dev := NO_DEV)], n, h) {
      CountUpdate(tags, n, h, b, tags[b].(dev := NO_DEV));
    }
  }

  lemma OnItsChain(link: seq<int>, heads: seq<int>, cells: seq<Cell>, chains: seq<seq<int>>, v: int) returns (p: nat)
    requires Hashed(link, heads, cells, chains, NIL) && 0 <= v < |cells|
    ensures |chains| == |heads| > 0
    ensures var b := Bucket(cells[v].blk, |heads|);
      0 <= b < |heads| && p < |chains[b]| && chains[b][p] == v && Chain(link, heads[b], chains[b]) && NoDup(chains[b])
  {
    var b := Bucket(cells[v].blk, |heads|);
    assert OnChain(cells, |heads|, b, v, NIL);
    assert v in chains[b];
    p :| 0 <= p < |chains[b]| && chains[b][p] == v;
  }
}
