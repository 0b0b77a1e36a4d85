/** rahead: buffers without a device number become valid when the device delivered them. */
module CachePrefetch {
  import opened Storage
  import opened CacheSpec
  import opened CacheInvisible

  /** What get_block does to the rest of the table: buffers in use stay as they are
      (a dirty one may be written back), and only the block asked for can newly be cached. */
  ghost predicate Framed(c: Cache, d: Cache, i: int) {
    && |d.cells| == |c.cells| && 0 <= i < |c.cells|
    && (forall j :: 0 <= j < |c.cells| && j != i && c.cells[j].count > 0 ==>
          d.cells[j] == c.cells[j] || d.cells[j] == c.cells[j].(dirty := false))
    && (forall j: Key :: j.dev != NO_DEV && j != d.cells[i].Id() && Cached(d.cells, j) ==> Cached(c.cells, j))
  }

  lemma GetFrame(c: Cache, k: Key, mode: Mode)
    requires Inv(c) && c.blank == NIL && CanGet(c, k)
    ensures Framed(c, Get(c, k, mode).0, Get(c, k, mode).1)
  {
    if k.dev != NO_DEV && Find(c.cells, k) != NIL {
      var (d, i) := Get(c, k, mode);
      forall j: Key | Cached(d.cells, j) ensures Cached(c.cells, j) { StillCached(d.cells, c.cells, -1, j); }
    } else {
      MissInvisible(c, k, mode);
      EvictKeeps(c);
      LoadCells(Evict(c), c.lru[0], k, mode);
      MissFrame(c, Evict(c), Load(Evict(c), c.lru[0], k, mode), c.lru[0]);
    }
  }

  lemma MissFrame(c: Cache, e: Cache, d: Cache, v: int)
    requires |e.cells| == |c.cells| == |d.cells| && 0 <= v < |c.cells|
    requires forall i :: 0 <= i < |c.cells| ==> e.cells[i] == c.cells[i] || e.cells[i] == c.cells[i].(dirty := false)
    requires forall i :: 0 <= i < |c.cells| && i != v ==> d.cells[i] == e.cells[i]
    ensures Framed(c, d, v)
  {
    forall j: Key | j != d.cells[v].Id() && Cached(d.cells, j) ensures Cached(c.cells, j) {
      var m :| 0 <= m < |d.cells| && d.cells[m].Id() == j;
      assert c.cells[m].Id() == j;
    }
  }

  /** A prefetch that came back without a device number took a free buffer. */
  lemma PrefetchMiss(c: Cache, k: Key)
    requires Inv(c) && c.blank == NIL && CanGet(c, k) && k.dev != NO_DEV
    ensures var (d, i) := Get(c, k, Prefetch);
      && d.blank == NIL && (d.size2 == c.size2 || d.size2 == 0)
      && (d.cells[i].dev == NO_DEV && k.dev == DEV_RAM ==> d.size2 == 0)
      && (d.cells[i].dev == NO_DEV ==> i in c.lru && d.cells[i].count == 1 && d.lru == c.lru[1..] && !Cached(c.cells, k))
      && (d.cells[i].dev != NO_DEV ==> c.cells[i].count == 0 || Find(c.cells, k) == i)
  {
    if Find(c.cells, k) == NIL {
      MissInvisible(c, k, Prefetch);
      EvictKeeps(c);
      LoadCells(Evict(c), c.lru[0], k, Prefetch);
      assert c.lru[0] in c.lru;
    }
  }

  /** Buffers `q` wait for consecutive blocks of `dev` from `base` on; none of the blocks
      is cached. */
  ghost predicate WaitsFor(cell: Cell, blk: nat) {
    cell.dev == NO_DEV && cell.blk == blk && cell.count == 1
  }

  ghost predicate Waiting(c: Cache, dev: nat, base: nat, q: seq<int>) {
    && NoDup(q) && (q != [] && dev == DEV_RAM ==> c.size2 == 0)
    && (forall p :: 0 <= p < |q| ==> 0 <= q[p] < |c.cells| && WaitsFor(c.cells[q[p]], base + p))
    && (forall b :: base <= b < base + |q| ==> !Cached(c.cells, Key(dev, b)))
  }

  /** The loop of rahead that collects buffers.  `k` is the next block; the buffers
      of the blocks before it are already in `q`. */
  ghost function Gather(c: Cache, k: Key, ahead: int, q: seq<int>): (r: (Cache, seq<int>))
    requires Inv(c) && c.blank == NIL && k.dev != NO_DEV
    decreases |c.lru|
  {
    if ahead - 1 == 0 || |c.lru| <= 4 then (c, q)
    else
      GetKeeps(c, k, Prefetch);
      PrefetchMiss(c, k);
      var (d, i) := Get(c, k, Prefetch);
      if d.cells[i].dev != NO_DEV then (Put(d, i, false, false), q)
      else Gather(d, Key(k.dev, k.blk + 1), ahead - 1, q + [i])
  }

  lemma WaitingAfterGet(c: Cache, dev: nat, base: nat, q: seq<int>)
    requires Inv(c) && c.blank == NIL && dev != NO_DEV && Waiting(c, dev, base, q)
    requires CanGet(c, Key(dev, base + |q|))
    ensures var (d, i) := Get(c, Key(dev, base + |q|), Prefetch);
      && (d.cells[i].dev != NO_DEV ==> Waiting(d, dev, base, q))
      && (d.cells[i].dev == NO_DEV ==> Waiting(d, dev, base, q + [i]))
  {
    var k := Key(dev, base + |q|);
    var (d, i) := Get(c, k, Prefetch);
    GetKeeps(c, k, Prefetch);
    GetFrame(c, k, Prefetch);
    PrefetchMiss(c, k);
    WaitingStep(c, dev, base, q, d, i);
  }

  lemma WaitingStep(c: Cache, dev: nat, base: nat, q: seq<int>, d: Cache, i: int)
    requires FreeList(c.cells, c.lru) && dev != NO_DEV && Waiting(c, dev, base, q) && Framed(c, d, i)
    requires d.cells[i].blk == base + |q| && (d.cells[i].dev == dev || d.cells[i].dev == NO_DEV)
    requires d.size2 == c.size2 || d.size2 == 0
    requires d.cells[i].dev == NO_DEV && dev == DEV_RAM ==> d.size2 == 0
    requires d.cells[i].dev == NO_DEV ==> i in c.lru && d.cells[i].count == 1 && !Cached(c.cells, Key(dev, base + |q|))
    requires d.cells[i].dev != NO_DEV ==> c.cells[i].count == 0 || Find(c.cells, Key(dev, base + |q|)) == i
    ensures d.cells[i].dev != NO_DEV ==> Waiting(d, dev, base, q)
    ensures d.cells[i].dev == NO_DEV ==> Waiting(d, dev, base, q + [i])
  {
    forall p | 0 <= p < |q| ensures q[p] != i {
      assert WaitsFor(c.cells[q[p]], base + p);
    }
    forall p | 0 <= p < |q| ensures WaitsFor(d.cells[q[p]], base + p) {
      assert WaitsFor(c.cells[q[p]], base + p);
    }
    forall b | base <= b < base + |q| ensures !Cached(d.cells, Key(dev, b)) {
      assert Key(dev, b) != d.cells[i].Id();
    }
  }

  lemma WaitingAfterPut(c: Cache, dev: nat, base: nat, q: seq<int>, i: int)
    requires Waiting(c, dev, base, q) && 0 <= i < |c.cells| && c.cells[i].count > 0
    requires c.cells[i].dev != NO_DEV
    ensures Waiting(Put(c, i, false, false), dev, base, q)
  {
    var d := Put(c, i, false, false);
    forall p | 0 <= p < |q| ensures WaitsFor(d.cells[q[p]], base + p) {
      assert WaitsFor(c.cells[q[p]], base + p);
    }
    forall b | base <= b < base + |q| ensures !Cached(d.cells, Key(dev, b)) {
      StillCached(d.cells, c.cells, -1, Key(dev, b));
    }
  }

  lemma {:induction false} GatherKeeps(c: Cache, dev: nat, base: nat, ahead: int, q: seq<int>)
    requires Inv(c) && c.blank == NIL && dev != NO_DEV && Waiting(c, dev, base, q)
    ensures var (d, r) := Gather(c, Key(dev, base + |q|), ahead, q);
      && Invisible(c, d) && d.blank == NIL && Waiting(d, dev, base, r) && q <= r
    decreases |c.lru|
  {
    hide Get, Put, Coherent, SameContent, Waiting, FreeList, Find, Shaped;
    var k := Key(dev, base + |q|);
    InvisibleRefl(c);
    if ahead - 1 != 0 && |c.lru| > 4 {
      GetKeeps(c, k, Prefetch);
      PrefetchMiss(c, k);
      WaitingAfterGet(c, dev, base, q);
      var (d, i) := Get(c, k, Prefetch);
      if d.cells[i].dev != NO_DEV {
        PutKeeps(d, i, false, false);
        InvisibleThen(c, d, Put(d, i, false, false));
        WaitingAfterPut(d, dev, base, q, i);
      } else {
        GatherKeeps(d, dev, base, ahead - 1, q + [i]);
        InvisibleThen(c, d, Gather(c, k, ahead, q).0);
      }
    }
  }

  // ---------- The read itself ----------

  /** The device delivered the block a prefetch buffer waits for. */
  ghost function Deliver(c: Cache, i: int, dev: nat): Cache
    requires 0 <= i < |c.cells|
  {
    c.(cells := c.cells[i := c.cells[i].(dev := dev, data := OnDisk(c.disk, Key(dev, c.cells[i].blk)))])
  }

  /** The queue may be harvested. */
  ghost predicate HarvestReady(c: Cache, q: seq<int>) {
    NoDup(q) && forall p :: 0 <= p < |q| ==> 0 <= q[p] < |c.cells| && c.cells[q[p]].count > 0
  }

  /** The harvest of a read in rw_scattered: the device filled the first `t` buffers of
      the queue, which become valid; all are released. */
  ghost function Harvest(c: Cache, dev: nat, q: seq<int>, t: nat): Cache
    requires HarvestReady(c, q)
    decreases |q|
  {
    if q == [] then c
    else
      var d := Put(if t == 0 then c else Deliver(c, q[0], dev), q[0], false, false);
      assert forall p :: 0 < p < |q| ==> d.cells[q[p]] == c.cells[q[p]];
      Harvest(d, dev, q[1..], if t == 0 then 0 else t - 1)
  }

  lemma DeliverKeeps(c: Cache, dev: nat, base: nat, q: seq<int>)
    requires Inv(c) && c.blank == NIL && dev != NO_DEV && Waiting(c, dev, base, q) && q != []
    ensures var d := Deliver(c, q[0], dev);
      Inv(d) && SameContent(c, d) && d.cells[q[0]].Id() == Key(dev, base)
  {
    var i, k := q[0], Key(dev, base);
    assert WaitsFor(c.cells[q[0]], base + 0);
    var d := Deliver(c, i, dev);
    assert !Cached(c.cells, k);
    assert UniqueBlocks(d.cells);
    forall j: Key | j.dev != NO_DEV && Cached(c.cells, j) ensures Cached(d.cells, j) {
      StillCached(c.cells, d.cells, i, j);
    }
    forall j {:trigger Content(d, j)} | Kept(c, j) ensures Content(d, j) == Content(c, j) {
      if j == k { FindUnique(d.cells, k, i); }
      else if Find(c.cells, j) != NIL { FindUnique(d.cells, j, Find(c.cells, j)); }
      else if Find(d.cells, j) != NIL { FindUnique(c.cells, j, Find(d.cells, j)); }
    }
  }

  lemma WaitingRest(c: Cache, d: Cache, dev: nat, base: nat, q: seq<int>)
    requires Waiting(c, dev, base, q) && q != [] && |d.cells| == |c.cells| && d.size2 == c.size2
    requires forall i :: 0 <= i < |c.cells| && i != q[0] ==> d.cells[i] == c.cells[i]
    requires d.cells[q[0]].Id() == c.cells[q[0]].Id() || d.cells[q[0]].Id() == Key(dev, base)
    ensures Waiting(d, dev, base + 1, q[1..])
  {
    forall p | 0 <= p < |q| - 1 ensures WaitsFor(d.cells[q[1..][p]], base + 1 + p) {
      assert WaitsFor(c.cells[q[p + 1]], base + (p + 1));
    }
    forall b | base + 1 <= b < base + |q| ensures !Cached(d.cells, Key(dev, b)) {
      assert !Cached(c.cells, Key(dev, b));
      forall m | 0 <= m < |d.cells| ensures d.cells[m].Id() != Key(dev, b) {
        assert c.cells[m].Id() != Key(dev, b);
      }
    }
  }

  lemma {:induction false} HarvestKeeps(c: Cache, dev: nat, base: nat, q: seq<int>, t: nat)
    requires Inv(c) && c.blank == NIL && dev != NO_DEV && Waiting(c, dev, base, q)
    ensures var d := Harvest(c, dev, q, t);
      && Invisible(c, d) && d.blank == NIL && (q != [] ==> d.lru != [])
    decreases |q|
  {
    InvisibleRefl(c);
    if q != [] {
      var i := q[0];
      assert WaitsFor(c.cells[q[0]], base + 0);
      var d := c;
      if t != 0 {
        d := Deliver(c, i, dev);
        DeliverKeeps(c, dev, base, q);
      }
      var e := Put(d, i, false, false);
      PutKeeps(d, i, false, false);
      SameContentThen(c, d, e);
      WaitingRest(c, e, dev, base, q);
      HarvestKeeps(e, dev, base + 1, q[1..], if t == 0 then 0 else t - 1);
      InvisibleThen(c, e, Harvest(c, dev, q, t));
      if q[1..] == [] { assert i in e.lru; }
    }
  }

  // ---------- rahead ----------

  /** rahead: fetch block `k`, taking up to `ahead` blocks along of which the device
      delivers the first `t`. */
  ghost function ReadAhead(c: Cache, k: Key, ahead: int, t: nat): (r: (Cache, int))
    requires Inv(c) && c.blank == NIL && CanGet(c, k) && k.dev != NO_DEV
  {
    hide Put, Coherent, SameContent, FreeList, Waiting, Harvest, Gather, Get, Find;
    GetKeeps(c, k, Prefetch);
    PrefetchMiss(c, k);
    var (d, i) := Get(c, k, Prefetch);
    if d.cells[i].dev != NO_DEV then (d, i)
    else
      FirstWaits(c, k);
      GatherKeeps(d, k.dev, k.blk, ahead, [i]);
      var (e, q) := Gather(d, Key(k.dev, k.blk + 1), ahead, [i]);
      HarvestKeeps(e, k.dev, k.blk, q, t);
      WaitingCounts(e, k.dev, k.blk, q);
      Get(Harvest(e, k.dev, q, t), k, Normal)
  }

  lemma WaitingCounts(c: Cache, dev: nat, base: nat, q: seq<int>)
    requires Waiting(c, dev, base, q)
    ensures HarvestReady(c, q)
  {
    forall p | 0 <= p < |q| ensures c.cells[q[p]].count > 0 { assert WaitsFor(c.cells[q[p]], base + p); }
  }

  lemma FirstWaits(c: Cache, k: Key)
    requires Inv(c) && c.blank == NIL && CanGet(c, k) && k.dev != NO_DEV
    ensures var (d, i) := Get(c, k, Prefetch);
      d.cells[i].dev == NO_DEV ==> Waiting(d, k.dev, k.blk, [i])
  {
    WaitingAfterGet(c, k.dev, k.blk, []);
    assert forall i: int :: [] + [i] == [i];
  }

  /** Reading ahead is invisible, and hands out the block asked for. */
  lemma ReadAheadKeeps(c: Cache, k: Key, ahead: int, t: nat)
    requires Inv(c) && c.blank == NIL && CanGet(c, k) && k.dev != NO_DEV
    ensures var (d, i) := ReadAhead(c, k, ahead, t); Handed(c, k, Normal, d, i) && d.blank == NIL
  {
    hide Put, Coherent, SameContent, FreeList, Waiting, Harvest, Gather, Get, Find;
    GetKeeps(c, k, Prefetch);
    PrefetchMiss(c, k);
    var (d, i) := Get(c, k, Prefetch);
    if d.cells[i].dev == NO_DEV {
      FirstWaits(c, k);
      GatherKeeps(d, k.dev, k.blk, ahead, [i]);
      var (e, q) := Gather(d, Key(k.dev, k.blk + 1), ahead, [i]);
      WaitingCounts(e, k.dev, k.blk, q);
      HarvestKeeps(e, k.dev, k.blk, q, t);
      var f := Harvest(e, k.dev, q, t);
      GetKeeps(f, k, Normal);
      InvisibleThen(c, d, e);
      InvisibleThen(c, e, f);
      InvisibleThen(c, f, Get(f, k, Normal).0);
    }
  }
}
