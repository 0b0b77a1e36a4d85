/** The cache changes no contents but by its holders' own writes. */
module CacheInvisible {
  import opened Storage
  import opened CacheSpec

  // ---------- One step of an eviction at a time ----------

  lemma FlushCells(c: Cache, dev: nat)
    ensures forall i :: 0 <= i < |c.cells| ==>
      Flush(c, dev).cells[i] == if c.cells[i].dirty && c.cells[i].dev == dev then c.cells[i].(dirty := false) else c.cells[i]
  {
  }

  /** A flush puts every dirty buffer of the device on the device and touches no other block. */
  lemma FlushMeaning(c: Cache, dev: nat, k: Key)
    requires UniqueBlocks(c.cells) && dev != NO_DEV
    ensures var i := Find(c.cells, k);
      OnDisk(Flush(c, dev).disk, k) ==
        if i != NIL && c.cells[i].dirty && k.dev == dev then c.cells[i].data else OnDisk(c.disk, k)
  {
    var q := DirtyOf(c.cells, dev, |c.cells|);
    forall p | 0 <= p < |q| ensures 0 <= q[p] < |c.cells| && c.cells[q[p]].dev != NO_DEV { assert q[p] in q; }
    var i := Find(c.cells, k);
    if i != NIL && c.cells[i].dirty && k.dev == dev {
      assert i in q;
      var p :| 0 <= p < |q| && q[p] == i;
      WriteBackHits(c.cells, c.disk, q, p);
    } else {
      forall p | 0 <= p < |q| ensures c.cells[q[p]].Id() != k {
        assert q[p] in q;
        FindUnique(c.cells, c.cells[q[p]].Id(), q[p]);
      }
      WriteBackMisses(c.cells, c.disk, q, k);
    }
  }

  lemma FlushContent(c: Cache, dev: nat, k: Key)
    requires UniqueBlocks(c.cells) && dev != NO_DEV && c.blank == NIL && k.dev != NO_DEV
    ensures Content(Flush(c, dev), k) == Content(c, k)
  {
    FlushCells(c, dev);
    FlushMeaning(c, dev, k);
    SameIds(c.cells, Flush(c, dev).cells, k);
  }

  lemma FlushClean(c: Cache, dev: nat)
    requires UniqueBlocks(c.cells) && CleanAgrees(c) && dev != NO_DEV && c.blank == NIL
    ensures CleanAgrees(Flush(c, dev))
  {
    var d := Flush(c, dev);
    FlushCells(c, dev);
    forall i | 0 <= i < |d.cells| && d.cells[i].dev != NO_DEV && !d.cells[i].dirty
      ensures d.cells[i].data == OnDisk(d.disk, d.cells[i].Id())
    {
      FindUnique(c.cells, c.cells[i].Id(), i);
      FlushMeaning(c, dev, c.cells[i].Id());
    }
  }

  /** A flush does not write a block that is absent from level 1, nor the ring's slots. */
  lemma FlushElsewhere(c: Cache, dev: nat, k: Key)
    requires UniqueBlocks(c.cells) && dev != NO_DEV && !Cached(c.cells, k)
    ensures OnDisk(Flush(c, dev).disk, k) == OnDisk(c.disk, k)
  {
    FlushMeaning(c, dev, k);
  }

  lemma FlushRing(c: Cache, dev: nat)
    requires Coherent(c) && dev != NO_DEV && c.blank == NIL
    ensures RingAgrees(Flush(c, dev))
  {
    var d := Flush(c, dev);
    FlushCells(c, dev);
    forall b | 0 <= b < d.size2 <= |d.tags| && d.tags[b].dev != NO_DEV && !Cached(d.cells, d.tags[b])
      && IsNewest(d.tags, d.idx, d.size2, d.tags[b], b)
      ensures OnDisk(d.disk, Key(DEV_RAM, b)) == OnDisk(d.disk, d.tags[b])
    {
      StillCached(c.cells, d.cells, -1, c.tags[b]);
      FlushElsewhere(c, dev, c.tags[b]);
      FlushElsewhere(c, dev, Key(DEV_RAM, b));
    }
  }

  lemma FlushKeeps(c: Cache, dev: nat)
    requires Coherent(c) && dev != NO_DEV && c.blank == NIL
    ensures Coherent(Flush(c, dev)) && SameContent(c, Flush(c, dev))
  {
    FlushCells(c, dev);
    FlushClean(c, dev);
    FlushRing(c, dev);
    forall k {:trigger Content(Flush(c, dev), k)} | Kept(c, k) ensures Content(Flush(c, dev), k) == Content(c, k) {
      FlushContent(c, dev, k);
    }
  }

  lemma {:induction false} SameIds(a: seq<Cell>, b: seq<Cell>, k: Key)
    requires |a| == |b| && forall i :: 0 <= i < |a| ==> a[i].Id() == b[i].Id()
    ensures Find(a, k) == Find(b, k)
  {
    if a != [] { SameIds(a[..|a| - 1], b[..|b| - 1], k); }
  }

  lemma StillCached(a: seq<Cell>, b: seq<Cell>, v: int, k: Key)
    requires |a| == |b| && forall i :: 0 <= i < |a| && i != v ==> b[i].Id() == a[i].Id()
    requires 0 <= v < |a| ==> a[v].Id() != k
    ensures Cached(a, k) ==> Cached(b, k)
  {
    if i :| 0 <= i < |a| && a[i].Id() == k {
      assert b[i].Id() == k;
    }
  }

  /** What the second level cache says about `k` can be used in place of the device. */
  ghost predicate Backed(c: Cache, k: Key) {
    forall b :: IsNewest(c.tags, c.idx, c.size2, k, b) ==> OnDisk(c.disk, Key(DEV_RAM, b)) == OnDisk(c.disk, k)
  }

  lemma SpillKeeps(c: Cache, v: int)
    requires Coherent(c) && c.blank == NIL
    requires 0 <= v < |c.cells| && c.cells[v].dev != NO_DEV && !c.cells[v].dirty
    ensures Coherent(Spill(c, v)) && SameContent(c, Spill(c, v))
    ensures Backed(Spill(c, v), c.cells[v].Id())
  {
    var d := Spill(c, v);
    var k := c.cells[v].Id();
    if c.size2 != 0 {
      assert Cached(d.cells, k);
      forall j: Key ensures j.dev != DEV_RAM ==> OnDisk(d.disk, j) == OnDisk(c.disk, j) {}
      forall b | IsNewest(d.tags, d.idx, d.size2, k, b) ensures b == c.idx {
        if b != c.idx { assert Newer(d.idx, c.idx, b); }
      }
      forall b | 0 <= b < d.size2 && d.tags[b].dev != NO_DEV && !Cached(d.cells, d.tags[b])
        && IsNewest(d.tags, d.idx, d.size2, d.tags[b], b)
        ensures OnDisk(d.disk, Key(DEV_RAM, b)) == OnDisk(d.disk, d.tags[b])
      {
        assert b != c.idx;
        forall a | 0 <= a < c.size2 && Newer(c.idx, a, b) ensures c.tags[a] != c.tags[b] {
          assert Newer(d.idx, a, b);
        }
        assert IsNewest(c.tags, c.idx, c.size2, c.tags[b], b);
      }
    }
  }

  lemma EvictKeeps(c: Cache)
    requires Inv(c) && c.lru != [] && c.blank == NIL
    ensures var e, v := Evict(c), c.lru[0];
      && Coherent(e) && SameContent(c, e) && e.blank == NIL && e.lru == c.lru[1..]
      && |e.cells| == |c.cells|
      && (forall i :: 0 <= i < |c.cells| ==> e.cells[i] == c.cells[i] || e.cells[i] == c.cells[i].(dirty := false))
      && (e.cells[v].dev != NO_DEV ==> !e.cells[v].dirty && Backed(e, e.cells[v].Id()))
      && e.size2 == c.size2
  {
    var v := c.lru[0];
    var c1 := c.(lru := c.lru[1..]);
    assert Coherent(c1) && SameContent(c, c1);
    if c.cells[v].dev != NO_DEV {
      var c2 := c1;
      if c.cells[v].dirty {
        c2 := Flush(c1, c.cells[v].dev);
        FlushKeeps(c1, c.cells[v].dev);
        FlushCells(c1, c.cells[v].dev);
      }
      SpillKeeps(c2, v);
    }
  }

  // ---------- Loading ----------

  /** Before a buffer changes hands: its block is clean and level 2 agrees with the device. */
  ghost predicate Vacant(e: Cache, v: int) {
    && Coherent(e) && e.blank == NIL && 0 <= v < |e.cells|
    && (e.cells[v].dev != NO_DEV ==> !e.cells[v].dirty && Backed(e, e.cells[v].Id()))
  }

  lemma LoadCells(e: Cache, v: int, k: Key, mode: Mode)
    requires Vacant(e, v)
    requires k.dev != NO_DEV ==> Find(e.cells, k) == NIL
    ensures var d := Load(e, v, k, mode); var got := d.cells[v];
      && |d.cells| == |e.cells| && (forall i :: 0 <= i < |e.cells| && i != v ==> d.cells[i] == e.cells[i])
      && got.count == e.cells[v].count + 1 && got.blk == k.blk && d.disk == e.disk
      && d.tags == e.tags && d.idx == e.idx && d.lru == e.lru
      && d.size2 == (if k.dev == DEV_RAM then 0 else e.size2)
      && d.blank == (if k.dev != NO_DEV && mode == NoRead then v else NIL)
      && (got.dev == k.dev || (got.dev == NO_DEV && mode == Prefetch))
      && (got.dev != NO_DEV && mode != NoRead ==> got.data == OnDisk(e.disk, k))
  {
    var d := Load(e, v, k, mode);
    var size2 := if k.dev == DEV_RAM then 0 else e.size2;
    if k.dev != NO_DEV && size2 != 0 && mode != NoRead {
      var b := Newest(e.tags, e.idx, size2, k);
      if b != NIL {
        assert IsNewest(e.tags, e.idx, e.size2, e.tags[b], b);
        assert !Cached(e.cells, e.tags[b]);
      }
    }
  }

  lemma LoadKeeps(e: Cache, v: int, k: Key, mode: Mode)
    requires Vacant(e, v)
    requires k.dev != NO_DEV ==> Find(e.cells, k) == NIL
    ensures var d := Load(e, v, k, mode); Coherent(d) && SameContent(e, d)
  {
    var d := Load(e, v, k, mode);
    LoadCells(e, v, k, mode);
    assert UniqueBlocks(d.cells);
    forall b | 0 <= b < d.size2 <= |d.tags| && d.tags[b].dev != NO_DEV && !Cached(d.cells, d.tags[b])
      && IsNewest(d.tags, d.idx, d.size2, d.tags[b], b)
      ensures OnDisk(d.disk, Key(DEV_RAM, b)) == OnDisk(d.disk, d.tags[b])
    {
      if e.tags[b] != e.cells[v].Id() { StillCached(e.cells, d.cells, v, e.tags[b]); }
    }
    forall j {:trigger Content(d, j)} | Kept(e, j) ensures Content(d, j) == Content(e, j) {
      LoadContent(e, v, k, mode, j);
    }
  }

  lemma LoadContent(e: Cache, v: int, k: Key, mode: Mode, j: Key)
    requires Vacant(e, v) && j.dev != NO_DEV
    requires k.dev != NO_DEV ==> Find(e.cells, k) == NIL
    ensures Content(Load(e, v, k, mode), j) == Content(e, j)
  {
    var d := Load(e, v, k, mode);
    LoadCells(e, v, k, mode);
    assert UniqueBlocks(d.cells);
    var i := Find(e.cells, j);
    if i != NIL && i != v {
      FindUnique(d.cells, j, i);
    } else if d.cells[v].Id() == j {
      FindUnique(d.cells, j, v);
    } else {
      var i' := Find(d.cells, j);
      if i' != NIL { FindUnique(e.cells, j, i'); }
    }
  }

  // ---------- The operations ----------

  lemma SameContentThen(c: Cache, d: Cache, e: Cache)
    requires SameContent(c, d) && SameContent(d, e) && (d.size2 == c.size2 || d.size2 == 0)
    ensures SameContent(c, e)
  {
    forall k {:trigger Content(e, k)} | Kept(c, k) ensures Content(e, k) == Content(c, k) {
      assert Kept(d, k);
      assert Content(d, k) == Content(c, k);
    }
  }

  /** The state moved from `c` to `d` without changing the contents it stands for. */
  ghost predicate Invisible(c: Cache, d: Cache) {
    && Inv(d) && SameContent(c, d) && |d.cells| == |c.cells|
    && (d.size2 == c.size2 || d.size2 == 0)
  }

  lemma InvisibleThen(c: Cache, d: Cache, e: Cache)
    requires Invisible(c, d) && Invisible(d, e)
    ensures Invisible(c, e)
  {
    SameContentThen(c, d, e);
  }

  lemma InvisibleRefl(c: Cache)
    requires Inv(c)
    ensures Invisible(c, c)
  {
  }

  /** What get_block promises about the state it leaves and the buffer it hands out. */
  ghost predicate Handed(c: Cache, k: Key, mode: Mode, d: Cache, i: int) {
    && Invisible(c, d)
    && 0 <= i < |d.cells| && d.cells[i].count > 0 && d.cells[i].blk == k.blk
    && (mode != Prefetch ==> d.cells[i].dev == k.dev)
    && (d.cells[i].dev == k.dev || d.cells[i].dev == NO_DEV)
    && (d.cells[i].dev != NO_DEV && d.blank == NIL ==> d.cells[i].data == Content(d, k))
    && (d.blank == NIL || (mode == NoRead && d.blank == i))
  }

  /** get_block is invisible, and hands out the block asked for with its contents. */
  lemma GetKeeps(c: Cache, k: Key, mode: Mode)
    requires Inv(c) && c.blank == NIL && CanGet(c, k)
    ensures var (d, i) := Get(c, k, mode); Handed(c, k, mode, d, i)
  {
    if k.dev != NO_DEV && Find(c.cells, k) != NIL {
      GetFoundKeeps(c, k, mode);
    } else {
      GetMissKeeps(c, k, mode);
    }
  }

  lemma MissInvisible(c: Cache, k: Key, mode: Mode)
    requires Inv(c) && c.blank == NIL && c.lru != []
    requires k.dev != NO_DEV ==> Find(c.cells, k) == NIL
    ensures Vacant(Evict(c), c.lru[0]) && (k.dev != NO_DEV ==> Find(Evict(c).cells, k) == NIL)
    ensures var d := Load(Evict(c), c.lru[0], k, mode); Coherent(d) && SameContent(c, d)
  {
    var e, v := Evict(c), c.lru[0];
    EvictKeeps(c);
    SameIds(c.cells, e.cells, k);
    LoadKeeps(e, v, k, mode);
    SameContentThen(c, e, Load(e, v, k, mode));
  }

  lemma GetMissKeeps(c: Cache, k: Key, mode: Mode)
    requires Inv(c) && c.blank == NIL && c.lru != []
    requires k.dev != NO_DEV ==> Find(c.cells, k) == NIL
    ensures Handed(c, k, mode, Load(Evict(c), c.lru[0], k, mode), c.lru[0])
  {
    MissInvisible(c, k, mode);
    EvictCounts(c);
    HandedOver(c, Evict(c), c.lru[0], k, mode, Load(Evict(c), c.lru[0], k, mode));
  }

  lemma HandedOver(c: Cache, e: Cache, v: int, k: Key, mode: Mode, d: Cache)
    requires FreeList(c.cells, c.lru) && c.lru != [] && v == c.lru[0] && |e.cells| == |c.cells|
    requires e.lru == c.lru[1..] && e.size2 == c.size2
    requires forall i :: 0 <= i < |c.cells| ==> e.cells[i].count == c.cells[i].count
    requires Vacant(e, v) && (k.dev != NO_DEV ==> Find(e.cells, k) == NIL)
    requires d == Load(e, v, k, mode) && Coherent(d) && SameContent(c, d)
    ensures Handed(c, k, mode, d, v)
  {
    LoadCells(e, v, k, mode);
    TakenAt(c.cells, c.lru, 0, e.cells, d.cells);
    assert c.lru[..0] + c.lru[1..] == c.lru[1..];
    if d.cells[v].dev != NO_DEV { FindUnique(d.cells, k, v); }
  }

  lemma EvictCounts(c: Cache)
    requires Inv(c) && c.lru != [] && c.blank == NIL
    ensures var e := Evict(c);
      && |e.cells| == |c.cells| && e.lru == c.lru[1..] && e.size2 == c.size2
      && forall i :: 0 <= i < |c.cells| ==> e.cells[i].count == c.cells[i].count
  {
    EvictKeeps(c);
  }

  lemma GetFoundKeeps(c: Cache, k: Key, mode: Mode)
    requires Inv(c) && c.blank == NIL && k.dev != NO_DEV && Find(c.cells, k) != NIL
    ensures var (d, i) := Get(c, k, mode);
      && Inv(d) && SameContent(c, d) && d.blank == NIL && d.size2 == c.size2
      && d.cells[i].Id() == k && d.cells[i].count > 0 && d.cells[i].data == Content(d, k)
  {
    var (d, i) := Get(c, k, mode);
    if c.cells[i].count == 0 {
      var p :| 0 <= p < |c.lru| && c.lru[p] == i;
      RemoveAt(c.lru, p);
      TakenAt(c.cells, c.lru, p, c.cells, d.cells);
    }
    CountOnly(c, d, i);
    FindUnique(d.cells, k, i);
  }

  lemma TakenAt(cells: seq<Cell>, lru: seq<int>, p: nat, mid: seq<Cell>, after: seq<Cell>)
    requires FreeList(cells, lru) && p < |lru| && |mid| == |cells| == |after|
    requires forall i :: 0 <= i < |cells| ==> mid[i].count == cells[i].count
    requires forall i :: 0 <= i < |cells| && i != lru[p] ==> after[i] == mid[i]
    requires after[lru[p]].count > 0
    ensures FreeList(after, lru[..p] + lru[p + 1..])
  {
    var r := lru[..p] + lru[p + 1..];
    forall q | 0 <= q < |r| ensures r[q] == lru[if q < p then q else q + 1] {}
    forall i | 0 <= i < |after| ensures i in r <==> after[i].count == 0 {
      if i in lru && i != lru[p] {
        var q :| 0 <= q < |lru| && lru[q] == i;
        assert r[if q < p then q else q - 1] == i;
      }
    }
  }

  /** Changing nothing but b_count of one buffer does not matter. */
  lemma CountOnly(c: Cache, d: Cache, i: int)
    requires Coherent(c) && 0 <= i < |c.cells| && |d.cells| == |c.cells|
    requires forall j :: 0 <= j < |c.cells| && j != i ==> d.cells[j] == c.cells[j]
    requires d.cells[i] == c.cells[i].(count := d.cells[i].count)
    requires d == c.(cells := d.cells, lru := d.lru)
    requires c.blank == i ==> d.cells[i].count > 0
    ensures Coherent(d) && SameContent(c, d)
  {
    assert forall k :: Cached(c.cells, k) ==> Cached(d.cells, k) by {
      forall k | Cached(c.cells, k) ensures Cached(d.cells, k) { StillCached(c.cells, d.cells, -1, k); }
    }
    forall k {:trigger Content(d, k)} | Kept(c, k) ensures Content(d, k) == Content(c, k) {
      SameIds(c.cells, d.cells, k);
    }
  }

  /** put_block is invisible. */
  lemma PutKeeps(c: Cache, i: int, oneShot: bool, writeImmed: bool)
    requires Inv(c) && c.blank == NIL && 0 <= i < |c.cells| && c.cells[i].count > 0
    ensures var d := Put(c, i, oneShot, writeImmed);
      Invisible(c, d) && d.blank == NIL && d.size2 == c.size2
  {
    var d := Put(c, i, oneShot, writeImmed);
    var cell := c.cells[i].(count := c.cells[i].count - 1);
    var counted := c.(cells := c.cells[i := cell], lru := d.lru);
    CountOnly(c, counted, i);
    if cell.count == 0 {
      assert i !in c.lru;
      if cell.dirty && cell.dev != NO_DEV && writeImmed {
        WriteOneKeeps(counted, i);
        assert counted.cells[i := cell.(dirty := false)] == d.cells;
        SameContentThen(c, counted, d);
      }
    }
  }

  /** rw_block(bp, WRITING): the buffer is clean and its block is on the device. */
  lemma WriteOneKeeps(c: Cache, i: int)
    requires Coherent(c) && c.blank == NIL && 0 <= i < |c.cells| && c.cells[i].dev != NO_DEV
    ensures var d := c.(cells := c.cells[i := c.cells[i].(dirty := false)], disk := c.disk[c.cells[i].Id() := c.cells[i].data]);
      Coherent(d) && SameContent(c, d)
  {
    var d := c.(cells := c.cells[i := c.cells[i].(dirty := false)], disk := c.disk[c.cells[i].Id() := c.cells[i].data]);
    forall k ensures Cached(c.cells, k) ==> Cached(d.cells, k) { StillCached(c.cells, d.cells, -1, k); }
    assert Cached(c.cells, c.cells[i].Id());
    forall k {:trigger Content(d, k)} | Kept(c, k) ensures Content(d, k) == Content(c, k) {
      SameIds(c.cells, d.cells, k);
      FindUnique(c.cells, c.cells[i].Id(), i);
    }
  }

  /** A holder's write changes the block the buffer holds, and no other. */
  lemma WriteChangesOne(c: Cache, i: int, data: Block)
    requires Inv(c) && (c.blank == NIL || c.blank == i)
    requires 0 <= i < |c.cells| && c.cells[i].count > 0
    ensures var d := Write(c, i, data);
      && Inv(d) && d.blank == NIL && d.size2 == c.size2
      && (forall k {:trigger Content(d, k)} :: Kept(c, k) ==> Content(d, k) == if c.cells[i].Id() == k then data else Content(c, k))
  {
    var d := Write(c, i, data);
    forall k ensures Cached(c.cells, k) <==> Cached(d.cells, k) {
      StillCached(c.cells, d.cells, -1, k);
      StillCached(d.cells, c.cells, -1, k);
    }
    forall k {:trigger Content(d, k)} | Kept(c, k)
      ensures Content(d, k) == if c.cells[i].Id() == k then data else Content(c, k)
    {
      SameIds(c.cells, d.cells, k);
      if c.cells[i].Id() == k { FindUnique(c.cells, k, i); }
    }
  }

  // ---------- do_sync and invalidate ----------

  ghost predicate AllClean(c: Cache, n: nat) {
    forall i :: 0 <= i < n <= |c.cells| && c.cells[i].dev != NO_DEV ==> !c.cells[i].dirty
  }

  lemma FlushInv(c: Cache, dev: nat)
    requires Inv(c) && dev != NO_DEV && c.blank == NIL
    ensures Invisible(c, Flush(c, dev))
  {
    FlushKeeps(c, dev);
    FlushCells(c, dev);
  }

  lemma FlushAllClean(c: Cache, dev: nat, n: nat)
    requires n < |c.cells| && c.cells[n].dev == dev && AllClean(c, n)
    ensures AllClean(Flush(c, dev), n + 1)
  {
    FlushCells(c, dev);
  }

  /** do_sync is invisible and leaves no dirty block behind. */
  lemma {:induction false} SyncKeeps(c: Cache, n: nat)
    requires Inv(c) && c.blank == NIL && n <= |c.cells|
    ensures var d := Sync(c, n);
      Invisible(c, d) && d.blank == NIL && AllClean(d, n)
  {
    InvisibleRefl(c);
    if n > 0 {
      SyncKeeps(c, n - 1);
      SyncStep(c, Sync(c, n - 1), n - 1);
    }
  }

  lemma SyncStep(c: Cache, e: Cache, i: nat)
    requires Invisible(c, e) && e.blank == NIL && i < |c.cells| && AllClean(e, i)
    ensures var d := if e.cells[i].dev != NO_DEV && e.cells[i].dirty then Flush(e, e.cells[i].dev) else e;
      Invisible(c, d) && d.blank == NIL && AllClean(d, i + 1)
  {
    if e.cells[i].dev != NO_DEV && e.cells[i].dirty {
      var dev := e.cells[i].dev;
      FlushInv(e, dev);
      FlushAllClean(e, dev, i);
      InvisibleThen(c, e, Flush(e, dev));
    }
  }

  lemma ForgetFind(cells: seq<Cell>, dev: nat, k: Key)
    requires UniqueBlocks(cells) && dev != NO_DEV && k.dev != NO_DEV
    ensures Find(Forget(cells, dev), k) == if k.dev == dev then NIL else Find(cells, k)
  {
    var r := Forget(cells, dev);
    assert UniqueBlocks(r);
    var i := Find(cells, k);
    if k.dev != dev {
      if i != NIL { FindUnique(r, k, i); }
      var j := Find(r, k);
      if j != NIL { FindUnique(cells, k, j); }
    }
  }

  /** invalidate: afterwards the device speaks for itself, and nothing else changed. */
  lemma InvalidateMeaning(c: Cache, dev: nat)
    requires Inv(c) && c.blank == NIL && dev != NO_DEV
    ensures Inv(Invalidate(c, dev))
    ensures forall k: Key {:trigger Content(Invalidate(c, dev), k)} :: k.dev != NO_DEV ==>
      Content(Invalidate(c, dev), k) == if k.dev == dev then OnDisk(c.disk, k) else Content(c, k)
  {
    var d := Invalidate(c, dev);
    assert UniqueBlocks(d.cells);
    forall k: Key {:trigger Content(d, k)} | k.dev != NO_DEV
      ensures Content(d, k) == if k.dev == dev then OnDisk(c.disk, k) else Content(c, k)
    {
      ForgetFind(c.cells, dev, k);
    }
    forall b | 0 <= b < d.size2 <= |d.tags| && d.tags[b].dev != NO_DEV && !Cached(d.cells, d.tags[b])
      && IsNewest(d.tags, d.idx, d.size2, d.tags[b], b)
      ensures OnDisk(d.disk, Key(DEV_RAM, b)) == OnDisk(d.disk, d.tags[b])
    {
      ForgetFind(c.cells, dev, c.tags[b]);
      assert d.tags[b] == c.tags[b];
      forall a | 0 <= a < c.size2 && Newer(c.idx, a, b) ensures c.tags[a] != c.tags[b] {}
      assert IsNewest(c.tags, c.idx, c.size2, c.tags[b], b);
      assert Find(d.cells, d.tags[b]) == NIL;
    }
  }

  /** No dirty buffer of the device differs from the device. */
  ghost predicate DirtyAgrees(c: Cache, dev: nat) {
    forall i :: 0 <= i < |c.cells| && c.cells[i].dev == dev && c.cells[i].dirty ==>
      c.cells[i].data == OnDisk(c.disk, c.cells[i].Id())
  }

  /** Exactly when invalidate is invisible: no dirty buffer of the device may differ
      from the device.  do_close calls do_sync first, which makes it so. */
  lemma InvalidateInvisible(c: Cache, dev: nat)
    requires Inv(c) && c.blank == NIL && dev != NO_DEV
    ensures (forall k: Key {:trigger Content(Invalidate(c, dev), k)} :: k.dev != NO_DEV ==> Content(Invalidate(c, dev), k) == Content(c, k))
      <==> DirtyAgrees(c, dev)
  {
    InvalidateMeaning(c, dev);
    var d := Invalidate(c, dev);
    forall i | 0 <= i < |c.cells| && c.cells[i].dev == dev
      ensures Content(c, c.cells[i].Id()) == c.cells[i].data
      ensures Content(d, c.cells[i].Id()) == OnDisk(c.disk, c.cells[i].Id())
    {
      FindUnique(c.cells, c.cells[i].Id(), i);
    }
    if DirtyAgrees(c, dev) {
      forall k: Key {:trigger Content(d, k)} | k.dev != NO_DEV ensures Content(d, k) == Content(c, k) {
        if k.dev == dev && Find(c.cells, k) != NIL { assert c.cells[Find(c.cells, k)].Id() == k; }
      }
    }
  }
}
