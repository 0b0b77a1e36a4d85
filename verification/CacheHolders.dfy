module CacheHolders {
  /** From get_block to put_block a buffer stays the buffer of its block. */

  import opened Storage
  import opened CacheSpec
  import opened CacheInvisible
  import opened CachePrefetch
  import opened CacheRuns

  /** Buffer `i` is of the same block, and in use by at least as many. */
  predicate Stays(c: Cache, d: Cache, i: int) {
    |d.cells| == |c.cells| && 0 <= i < |c.cells| && d.cells[i].count >= c.cells[i].count && d.cells[i].Id() == c.cells[i].Id()
  }

  predicate InUse(c: Cache, i: int) {
    0 <= i < |c.cells| && c.cells[i].count > 0 && c.cells[i].dev != NO_DEV
  }

  /** A block that is cached gets one more user, and only a buffer without users is evicted. */
  lemma GetStays(c: Cache, k: Key, mode: Mode, i: int)
    requires Inv(c) && c.blank == NIL && CanGet(c, k) && InUse(c, i)
    ensures Stays(c, Get(c, k, mode).0, i)
    ensures var (d, j) := Get(c, k, mode); j == i ==> d.cells[i].count == c.cells[i].count + 1
  {
    GetFrame(c, k, mode);
    if !(k.dev != NO_DEV && Find(c.cells, k) != NIL) { assert c.lru[0] in c.lru; }
  }

  lemma PutStays(c: Cache, i: int, j: int, oneShot: bool, writeImmed: bool)
    requires 0 <= i < |c.cells| && 0 <= j < |c.cells| && c.cells[j].count > 0
    ensures var d := Put(c, j, oneShot, writeImmed);
      |d.cells| == |c.cells| && d.cells[i].Id() == c.cells[i].Id() && d.cells[i].count == c.cells[i].count - (if i == j then 1 else 0)
  {
  }

  lemma {:induction false} GatherStays(c: Cache, k: Key, ahead: int, q: seq<int>, i: int)
    requires Inv(c) && c.blank == NIL && k.dev != NO_DEV && InUse(c, i)
    ensures Stays(c, Gather(c, k, ahead, q).0, i)
    decreases |c.lru|
  {
    hide Get, Put, Coherent, SameContent, FreeList, Find, Shaped;
    if ahead - 1 != 0 && |c.lru| > 4 {
      GetKeeps(c, k, Prefetch);
      PrefetchMiss(c, k);
      GetStays(c, k, Prefetch, i);
      var (d, j) := Get(c, k, Prefetch);
      if d.cells[j].dev != NO_DEV {
        PutStays(d, i, j, false, false);
      } else {
        GatherStays(d, Key(k.dev, k.blk + 1), ahead - 1, q + [j], i);
      }
    }
  }

  lemma {:induction false} HarvestStays(c: Cache, dev: nat, q: seq<int>, t: nat, i: int)
    requires HarvestReady(c, q) && i !in q && 0 <= i < |c.cells|
    ensures Stays(c, Harvest(c, dev, q, t), i)
    decreases |q|
  {
    if q != [] {
      var d := Put(if t == 0 then c else Deliver(c, q[0], dev), q[0], false, false);
      assert forall p :: 0 < p < |q| ==> d.cells[q[p]] == c.cells[q[p]];
      HarvestStays(d, dev, q[1..], if t == 0 then 0 else t - 1, i);
    }
  }

  lemma ReadAheadStays(c: Cache, k: Key, ahead: int, t: nat, i: int)
    requires Inv(c) && c.blank == NIL && CanGet(c, k) && k.dev != NO_DEV && InUse(c, i)
    ensures Stays(c, ReadAhead(c, k, ahead, t).0, i)
  {
    hide Put, Coherent, SameContent, FreeList, Waiting, Harvest, Gather, Get, Find;
    GetKeeps(c, k, Prefetch);
    PrefetchMiss(c, k);
    GetStays(c, k, Prefetch, i);
    var (d, j) := Get(c, k, Prefetch);
    if d.cells[j].dev == NO_DEV {
      FirstWaits(c, k);
      GatherKeeps(d, k.dev, k.blk, ahead, [j]);
      GatherStays(d, Key(k.dev, k.blk + 1), ahead, [j], i);
      var (e, q) := Gather(d, Key(k.dev, k.blk + 1), ahead, [j]);
      WaitingCounts(e, k.dev, k.blk, q);
      NoneWaits(e, k.dev, k.blk, q, i);
      HarvestKeeps(e, k.dev, k.blk, q, t);
      HarvestStays(e, k.dev, q, t, i);
      GetStays(Harvest(e, k.dev, q, t), k, Normal, i);
    }
  }

  lemma NoneWaits(c: Cache, dev: nat, base: nat, q: seq<int>, i: int)
    requires Waiting(c, dev, base, q) && InUse(c, i)
    ensures i !in q
  {
    forall p | 0 <= p < |q| ensures q[p] != i { assert WaitsFor(c.cells[q[p]], base + p); }
  }

  lemma FlushStays(c: Cache, dev: nat, i: int)
    requires 0 <= i < |c.cells|
    ensures Stays(c, Flush(c, dev), i)
  {
  }

  lemma {:induction false} SyncStays(c: Cache, n: nat, i: int)
    requires n <= |c.cells| && 0 <= i < |c.cells|
    ensures Stays(c, Sync(c, n), i)
  {
    hide Flush;
    if n > 0 {
      SyncStays(c, n - 1, i);
      FlushStays(Sync(c, n - 1), Sync(c, n - 1).cells[n - 1].dev, i);
    }
  }

  /** A step takes a user away from a buffer only if it is a put_block of that buffer, and takes its
      block away only if it is an invalidate of the device. */
  lemma StepStays(c: Cache, op: Op, i: int)
    requires Inv(c) && Legal(c, op) && InUse(c, i)
    ensures var d := Step(c, op);
      && |d.cells| == |c.cells|
      && d.cells[i].count >= c.cells[i].count - (if op.PutBlock? && op.i == i then 1 else 0)
      && (!(op.Invalidated? && op.dev == c.cells[i].dev) ==> d.cells[i].Id() == c.cells[i].Id())
  {
    hide Get, ReadAhead, Sync, Flush, Coherent, FreeList, Shaped, Put, Find, DirtyOf;
    match op
    case GetBlock(k, mode) => GetStays(c, k, mode, i);
    case PutBlock(j, oneShot, writeImmed) => PutStays(c, i, j, oneShot, writeImmed);
    case Modify(j, data) =>
    case FlushAll(dev) => FlushStays(c, dev, i);
    case DoSync => SyncStays(c, |c.cells|, i);
    case Invalidated(dev) =>
    case Rahead(k, ahead, delivered) => ReadAheadStays(c, k, ahead, delivered, i);
  }

  // ---------- Over a run ----------

  /** How often a run releases buffer `i`. */
  function Puts(ops: seq<Op>, i: int): nat {
    if ops == [] then 0 else (if ops[0].PutBlock? && ops[0].i == i then 1 else 0) + Puts(ops[1..], i)
  }

  /** A run with one more operation releases it once more exactly if that is a put_block of it. */
  lemma {:induction false} PutsMore(ops: seq<Op>, op: Op, i: int)
    ensures Puts([], i) == 0
    ensures Puts(ops + [op], i) == if op.PutBlock? && op.i == i then Puts(ops, i) + 1 else Puts(ops, i)
  {
    if ops == [] {
      assert [] + [op] == [op] && [op][1..] == [];
    } else {
      PutsMore(ops[1..], op, i);
      assert (ops + [op])[1..] == ops[1..] + [op];
    }
  }

  /** As long as not all its users have released it, a buffer stays the buffer of its block. */
  lemma {:induction false} HeldThroughRun(c: Cache, ops: seq<Op>, i: int)
    requires Inv(c) && LegalRun(c, ops) && InUse(c, i)
    requires Puts(ops, i) < c.cells[i].count && forall n :: 0 <= n < |ops| ==> ops[n] != Invalidated(c.cells[i].dev)
    ensures var d := Run(c, ops);
      |d.cells| == |c.cells| && d.cells[i].Id() == c.cells[i].Id() && d.cells[i].count >= c.cells[i].count - Puts(ops, i)
    decreases |ops|
  {
    hide Inv, Step, Legal;
    if ops != [] {
      StepInv(c, ops[0]);
      StepStays(c, ops[0], i);
      assert ops[0] != Invalidated(c.cells[i].dev);
      forall n | 0 <= n < |ops| - 1 ensures ops[1..][n] != Invalidated(c.cells[i].dev) { assert ops[n + 1] == ops[1..][n]; }
      HeldThroughRun(Step(c, ops[0]), ops[1..], i);
    }
  }

  /** Between get_block and put_block the holder writes the block it asked for, and no other, whatever
      else is done to the cache in between. */
  lemma HolderWritesItsBlock(c: Cache, k: Key, mode: Mode, ops: seq<Op>, data: Block, j: Key, bytes: Block)
    requires Inv(c) && Legal(c, GetBlock(k, mode)) && mode != Prefetch && k.dev != NO_DEV
    requires LegalRun(c, [GetBlock(k, mode)] + ops)
    requires var (d, i) := Get(c, k, mode); Puts(ops, i) < d.cells[i].count && forall n :: 0 <= n < |ops| ==> ops[n] != Invalidated(k.dev)
    ensures var (_, i) := Get(c, k, mode);
      var d := Run(c, [GetBlock(k, mode)] + ops);
      After(d, Modify(i, data), j, bytes) == if j == k then data else bytes
  {
    hide Inv, Legal, Puts, LegalRun, Run, Get, CanGet, Shaped;
    var op := GetBlock(k, mode);
    GetGives(c, k, mode);
    var (d, i) := Get(c, k, mode);
    StepInv(c, op);
    RunFirst(c, op, ops);
    HeldThroughRun(d, ops, i);
  }

  lemma GetGives(c: Cache, k: Key, mode: Mode)
    requires Inv(c) && Legal(c, GetBlock(k, mode)) && mode != Prefetch && k.dev != NO_DEV
    ensures var (d, i) := Get(c, k, mode);
      Shaped(c) && CanGet(c, k) && InUse(d, i) && d.cells[i].Id() == k && d == Step(c, GetBlock(k, mode))
  {
    GetKeeps(c, k, mode);
  }

  lemma RunFirst(c: Cache, op: Op, ops: seq<Op>)
    requires Inv(c) && LegalRun(c, [op] + ops)
    ensures Legal(c, op) && Inv(Step(c, op)) && LegalRun(Step(c, op), ops) && Run(c, [op] + ops) == Run(Step(c, op), ops)
  {
    hide Inv, Legal, Step;
    assert ([op] + ops)[1..] == ops && ([op] + ops)[0] == op;
    StepInv(c, op);
  }
}
