/** The block cache as a value, with the chains abstracted away. */
module CacheSpec {
  import opened Storage

  /** struct buf without its links.  `dirty` is b_dirt, `count` is b_count. */
  datatype Cell = Cell(dev: nat, blk: nat, dirty: bool, count: nat, data: Block) {
    function Id(): Key { Key(dev, blk) }
  }

  datatype Mode = Normal | NoRead | Prefetch

  /** `lru` lists the free buffers from `front` to `rear`; `tags` is the buf2[]
      table, used circularly below `size2` (nr_buf2) with `idx` the next slot to
      reuse; `blank` is the buffer handed out by NO_READ whose holder has not yet
      filled it, or NIL. */
  datatype Cache = Cache(cells: seq<Cell>, lru: seq<int>, disk: map<Key, Block>,
                         tags: seq<Key>, idx: nat, size2: nat, blank: int)

  // ---------- Looking blocks up ----------

  /** The buffer that caches `k`, or NIL. */
  function Find(cells: seq<Cell>, k: Key): (i: int)
    ensures i == NIL || (0 <= i < |cells| && cells[i].Id() == k)
    ensures i == NIL ==> forall j :: 0 <= j < |cells| ==> cells[j].Id() != k
  {
    if cells == [] then NIL
    else if cells[|cells| - 1].Id() == k then |cells| - 1
    else Find(cells[..|cells| - 1], k)
  }

  /** In the ring, slot `a` was filled after slot `b`. */
  predicate Newer(idx: nat, a: int, b: int) {
    if b < idx then b < a < idx else a < idx || b < a
  }

  /** `b` is the newest slot of the ring that carries `k`. */
  ghost predicate IsNewest(tags: seq<Key>, idx: nat, size2: nat, k: Key, b: int) {
    && size2 <= |tags|
    && 0 <= b < size2 && tags[b] == k
    && forall a :: 0 <= a < size2 && Newer(idx, a, b) ==> tags[a] != k
  }

  /** The highest slot in [lo, hi) that carries `k`, or NIL. */
  function LastIn(tags: seq<Key>, lo: nat, hi: nat, k: Key): (b: int)
    requires lo <= hi <= |tags|
    ensures b == NIL || (lo <= b < hi && tags[b] == k)
    ensures forall a :: lo <= a < hi && b < a ==> tags[a] != k
  {
    if lo == hi then NIL
    else if tags[hi - 1] == k then hi - 1
    else LastIn(tags, lo, hi - 1, k)
  }

  /** The backward search of get_block2: from below `idx` down to 0, then from
      the top of the ring down to `idx`. */
  function Newest(tags: seq<Key>, idx: nat, size2: nat, k: Key): (b: int)
    requires idx <= size2 <= |tags|
    ensures b != NIL ==> IsNewest(tags, idx, size2, k, b)
    ensures b == NIL ==> forall a :: 0 <= a < size2 ==> tags[a] != k
  {
    var below := LastIn(tags, 0, idx, k);
    if below != NIL then below else LastIn(tags, idx, size2, k)
  }

  // ---------- The invariant ----------

  /** Indices are within their tables. */
  ghost predicate Shaped(c: Cache) {
    && (forall p :: 0 <= p < |c.lru| ==> 0 <= c.lru[p] < |c.cells|)
    && c.size2 <= |c.tags| && (c.size2 != 0 ==> c.idx < c.size2)
  }

  ghost predicate UniqueBlocks(cells: seq<Cell>) {
    forall i, j | 0 <= i < |cells| && 0 <= j < |cells| :: cells[i].dev != NO_DEV && cells[i].Id() == cells[j].Id() ==> i == j
  }

  /** The free list holds exactly the buffers nobody uses. */
  ghost predicate FreeList(cells: seq<Cell>, lru: seq<int>) {
    && NoDup(lru)
    && (forall p :: 0 <= p < |lru| ==> 0 <= lru[p] < |cells|)
    && (forall i :: 0 <= i < |cells| ==> (i in lru <==> cells[i].count == 0))
  }

  ghost predicate Cached(cells: seq<Cell>, k: Key) {
    exists i :: 0 <= i < |cells| && cells[i].Id() == k
  }

  /** Every slot of the ring that is the newest for a block absent from level 1
      agrees with the device that holds the block. */
  ghost predicate RingAgrees(c: Cache) {
    forall b | 0 <= b < c.size2 <= |c.tags| && c.tags[b].dev != NO_DEV && !Cached(c.cells, c.tags[b])
      && IsNewest(c.tags, c.idx, c.size2, c.tags[b], b) ::
      OnDisk(c.disk, Key(DEV_RAM, b)) == OnDisk(c.disk, c.tags[b])
  }

  /** A clean buffer agrees with its device. */
  ghost predicate CleanAgrees(c: Cache) {
    forall i | 0 <= i < |c.cells| && c.cells[i].dev != NO_DEV && !c.cells[i].dirty && i != c.blank ::
      c.cells[i].data == OnDisk(c.disk, c.cells[i].Id())
  }

  /** The part of the invariant that does not mention the free list. */
  ghost predicate Coherent(c: Cache) {
    && UniqueBlocks(c.cells)
    && CleanAgrees(c)
    && c.size2 <= |c.tags| && (c.size2 != 0 ==> c.idx < c.size2)
    && (forall i :: 0 <= i < |c.cells| && c.cells[i].dev == DEV_RAM ==> c.size2 == 0)
    && (c.size2 != 0 ==> forall b :: 0 <= b < c.size2 ==> c.tags[b].dev != DEV_RAM)
    && (c.blank == NIL || (0 <= c.blank < |c.cells| && c.cells[c.blank].count > 0 && c.cells[c.blank].dev != NO_DEV))
    && RingAgrees(c)
  }

  ghost predicate Inv(c: Cache) {
    Shaped(c) && Coherent(c) && FreeList(c.cells, c.lru)
  }

  /** The contents the cache stands for: a map from blocks to bytes. */
  ghost function Content(c: Cache, k: Key): Block {
    var i := Find(c.cells, k);
    if k.dev != NO_DEV && i != NIL && i != c.blank then c.cells[i].data else OnDisk(c.disk, k)
  }

  /** Blocks the cache must not disturb: all of them, except that while the second
      level cache is on, the RAM disk is its backing store. */
  predicate Kept(c: Cache, k: Key) {
    k.dev != NO_DEV && (k.dev == DEV_RAM ==> c.size2 == 0)
  }

  /** `d` stands for the same contents as `c`. */
  ghost predicate SameContent(c: Cache, d: Cache) {
    forall k {:trigger Content(d, k)} :: Kept(c, k) ==> Content(d, k) == Content(c, k)
  }

  lemma FindUnique(cells: seq<Cell>, k: Key, i: int)
    requires UniqueBlocks(cells) && k.dev != NO_DEV
    requires 0 <= i < |cells| && cells[i].Id() == k
    ensures Find(cells, k) == i
  {
  }

  // ---------- Writing dirty buffers back ----------

  /** Writes the listed buffers to their own blocks, one after the other. */
  function WriteBack(cells: seq<Cell>, disk: map<Key, Block>, q: seq<int>): (map<Key, Block>)
    requires forall p :: 0 <= p < |q| ==> 0 <= q[p] < |cells|
  {
    if q == [] then disk
    else
      var i := q[|q| - 1];
      WriteBack(cells, disk, q[..|q| - 1])[cells[i].Id() := cells[i].data]
  }

  function Cleaned(cells: seq<Cell>, q: seq<int>): (r: seq<Cell>)
    ensures |r| == |cells|
    ensures forall i :: 0 <= i < |cells| ==> r[i] == if i in q then cells[i].(dirty := false) else cells[i]
  {
    seq(|cells|, i requires 0 <= i < |cells| => if i in q then cells[i].(dirty := false) else cells[i])
  }

  /** The dirty buffers of a device, in the order flushall collects them. */
  function DirtyOf(cells: seq<Cell>, dev: nat, n: nat): (q: seq<int>)
    requires n <= |cells|
    ensures forall p :: 0 <= p < |q| ==> 0 <= q[p] < n
    ensures forall i :: i in q <==> 0 <= i < n && cells[i].dirty && cells[i].dev == dev
    ensures NoDup(q)
  {
    if n == 0 then []
    else
      var q := DirtyOf(cells, dev, n - 1);
      if cells[n - 1].dirty && cells[n - 1].dev == dev then q + [n - 1] else q
  }

  function Flush(c: Cache, dev: nat): Cache {
    var q := DirtyOf(c.cells, dev, |c.cells|);
    c.(cells := Cleaned(c.cells, q), disk := WriteBack(c.cells, c.disk, q))
  }

  ghost predicate Writable(cells: seq<Cell>, q: seq<int>) {
    forall p :: 0 <= p < |q| ==> 0 <= q[p] < |cells| && cells[q[p]].dev != NO_DEV
  }

  /** A write-back puts every listed buffer at its own block. */
  lemma {:induction false} WriteBackHits(cells: seq<Cell>, disk: map<Key, Block>, q: seq<int>, p: nat)
    requires UniqueBlocks(cells) && Writable(cells, q) && NoDup(q) && p < |q|
    ensures OnDisk(WriteBack(cells, disk, q), cells[q[p]].Id()) == cells[q[p]].data
  {
    var rest, last := q[..|q| - 1], q[|q| - 1];
    if p < |q| - 1 {
      WriteBackHits(cells, disk, rest, p);
      assert rest[p] == q[p] != last;
      assert cells[q[p]].Id() != cells[last].Id();
    }
  }

  /** A write-back changes no other block. */
  lemma {:induction false} WriteBackMisses(cells: seq<Cell>, disk: map<Key, Block>, q: seq<int>, k: Key)
    requires Writable(cells, q)
    requires forall p :: 0 <= p < |q| ==> cells[q[p]].Id() != k
    ensures OnDisk(WriteBack(cells, disk, q), k) == OnDisk(disk, k)
    ensures k in WriteBack(cells, disk, q) <==> k in disk
  {
    if q != [] {
      WriteBackMisses(cells, disk, q[..|q| - 1], k);
    }
  }

  lemma {:induction false} WriteBackAdds(cells: seq<Cell>, disk: map<Key, Block>, q: seq<int>, p: nat)
    requires Writable(cells, q) && p < |q|
    ensures cells[q[p]].Id() in WriteBack(cells, disk, q)
  {
    if p < |q| - 1 {
      WriteBackAdds(cells, disk, q[..|q| - 1], p);
    }
  }

  /** The order of a write-back does not matter. */
  lemma WriteBackAnyOrder(cells: seq<Cell>, disk: map<Key, Block>, q: seq<int>, r: seq<int>)
    requires UniqueBlocks(cells) && NoDup(q) && NoDup(r) && Writable(cells, q) && Writable(cells, r)
    requires forall i :: i in q <==> i in r
    ensures WriteBack(cells, disk, q) == WriteBack(cells, disk, r)
    ensures Cleaned(cells, q) == Cleaned(cells, r)
  {
    var a, b := WriteBack(cells, disk, q), WriteBack(cells, disk, r);
    forall k ensures (k in a <==> k in b) && OnDisk(a, k) == OnDisk(b, k) {
      WriteBackSame(cells, disk, q, r, k);
    }
    assert forall k :: k in a ==> a[k] == OnDisk(a, k);
    assert forall k :: k in b ==> b[k] == OnDisk(b, k);
  }

  lemma WriteBackSame(cells: seq<Cell>, disk: map<Key, Block>, q: seq<int>, r: seq<int>, k: Key)
    requires UniqueBlocks(cells) && NoDup(q) && NoDup(r) && Writable(cells, q) && Writable(cells, r)
    requires forall i :: i in q <==> i in r
    ensures k in WriteBack(cells, disk, q) <==> k in WriteBack(cells, disk, r)
    ensures OnDisk(WriteBack(cells, disk, q), k) == OnDisk(WriteBack(cells, disk, r), k)
  {
    if p :| 0 <= p < |q| && cells[q[p]].Id() == k {
      assert q[p] in r;
      var p' :| 0 <= p' < |r| && r[p'] == q[p];
      WriteBackHits(cells, disk, q, p);
      WriteBackHits(cells, disk, r, p');
      WriteBackAdds(cells, disk, q, p);
      WriteBackAdds(cells, disk, r, p');
    } else {
      forall p | 0 <= p < |r| ensures cells[r[p]].Id() != k {
        assert r[p] in q;
      }
      WriteBackMisses(cells, disk, q, k);
      WriteBackMisses(cells, disk, r, k);
    }
  }

  // ---------- The second level cache ----------

  /** put_block2: the evicted buffer goes into the slot at `idx`. */
  function Spill(c: Cache, v: int): Cache
    requires 0 <= v < |c.cells|
    requires c.size2 <= |c.tags| && (c.size2 != 0 ==> c.idx < c.size2)
  {
    if c.size2 == 0 then c
    else c.(disk := c.disk[Key(DEV_RAM, c.idx) := c.cells[v].data],
            tags := c.tags[c.idx := c.cells[v].Id()],
            idx := if c.idx + 1 == c.size2 then 0 else c.idx + 1)
  }

  // ---------- get_block ----------

  /** Takes `x` out of a list that has it once. */
  function Remove(s: seq<int>, x: int): (r: seq<int>)
    ensures forall y :: y in r ==> y in s
    ensures forall y :: y in s && y != x ==> y in r
  {
    if s == [] then []
    else if s[0] == x then s[1..]
    else [s[0]] + Remove(s[1..], x)
  }

  lemma {:induction false} RemoveAt(s: seq<int>, p: nat)
    requires p < |s| && NoDup(s)
    ensures Remove(s, s[p]) == s[..p] + s[p + 1..]
  {
    if p > 0 {
      assert s[1..][p - 1] == s[p] != s[0];
      RemoveAt(s[1..], p - 1);
      assert [s[0]] + (s[1..][..p - 1] + s[1..][p..]) == s[..p] + s[p + 1..];
    }
  }

  /** Makes room: the least recently used buffer leaves the free list; if it holds a
      dirty block its whole device is flushed, and it is spilled into level 2. */
  ghost function Evict(c: Cache): Cache
    requires Shaped(c) && c.lru != []
  {
    var v := c.lru[0];
    var c1 := c.(lru := c.lru[1..]);
    if c.cells[v].dev == NO_DEV then c1
    else Spill(if c.cells[v].dirty then Flush(c1, c.cells[v].dev) else c1, v)
  }

  /** Gives buffer `v` to block `k`, and fetches the block unless told otherwise. */
  function Load(c: Cache, v: int, k: Key, mode: Mode): Cache
    requires 0 <= v < |c.cells|
    requires c.size2 <= |c.tags| && (c.size2 != 0 ==> c.idx < c.size2)
  {
    var cell := Cell(k.dev, k.blk, c.cells[v].dirty, c.cells[v].count + 1, c.cells[v].data);
    if k.dev == NO_DEV then c.(cells := c.cells[v := cell])
    else
      var size2 := if k.dev == DEV_RAM then 0 else c.size2;
      var b := if size2 == 0 || mode == NoRead then NIL else Newest(c.tags, c.idx, size2, k);
      var loaded :=
        if b != NIL then cell.(data := OnDisk(c.disk, Key(DEV_RAM, b)))
        else match mode
          case Normal => cell.(data := OnDisk(c.disk, k), dirty := false)
          case NoRead => cell
          case Prefetch => cell.(dev := NO_DEV);
      c.(cells := c.cells[v := loaded], size2 := size2, blank := if mode == NoRead then v else c.blank)
  }

  /** Some buffer is free, or none is needed. */
  predicate CanGet(c: Cache, k: Key) {
    (k.dev != NO_DEV && Find(c.cells, k) != NIL) || c.lru != []
  }

  /** get_block; the second result is the buffer handed out. */
  ghost function Get(c: Cache, k: Key, mode: Mode): (r: (Cache, int))
    requires Shaped(c) && CanGet(c, k)
    ensures |r.0.cells| == |c.cells| && 0 <= r.1 < |c.cells|
  {
    var i := Find(c.cells, k);
    if k.dev != NO_DEV && i != NIL then
      (c.(cells := c.cells[i := c.cells[i].(count := c.cells[i].count + 1)],
          lru := if c.cells[i].count == 0 then Remove(c.lru, i) else c.lru), i)
    else
      (Load(Evict(c), c.lru[0], k, mode), c.lru[0])
  }

  // ---------- put_block and the holder ----------

  /** put_block: the last user gives the buffer back, at the front of the free list if
      it is not expected to be needed again, else at the rear. */
  function Put(c: Cache, i: int, oneShot: bool, writeImmed: bool): (r: Cache)
    requires 0 <= i < |c.cells| && c.cells[i].count > 0
    ensures |r.cells| == |c.cells|
  {
    var cell := c.cells[i].(count := c.cells[i].count - 1);
    if cell.count != 0 then c.(cells := c.cells[i := cell])
    else
      var d := c.(lru := if oneShot then [i] + c.lru else c.lru + [i]);
      if writeImmed && cell.dirty && cell.dev != NO_DEV
      then d.(cells := c.cells[i := cell.(dirty := false)], disk := c.disk[cell.Id() := cell.data])
      else d.(cells := c.cells[i := cell])
  }

  /** The holder of a buffer changes its bytes and marks it DIRTY. */
  function Write(c: Cache, i: int, data: Block): Cache
    requires 0 <= i < |c.cells|
  {
    c.(cells := c.cells[i := c.cells[i].(data := data, dirty := true)],
       blank := if c.blank == i then NIL else c.blank)
  }

  // ---------- invalidate ----------

  function Forget(cells: seq<Cell>, dev: nat): (r: seq<Cell>)
    ensures |r| == |cells|
    ensures forall i :: 0 <= i < |cells| ==> r[i] == if cells[i].dev == dev then cells[i].(dev := NO_DEV) else cells[i]
  {
    seq(|cells|, i requires 0 <= i < |cells| => if cells[i].dev == dev then cells[i].(dev := NO_DEV) else cells[i])
  }

  function ForgetTags(tags: seq<Key>, dev: nat, n: nat): (r: seq<Key>)
    ensures |r| == |tags|
    ensures forall b :: 0 <= b < |tags| ==> r[b] == if b < n && tags[b].dev == dev then tags[b].(dev := NO_DEV) else tags[b]
  {
    seq(|tags|, b requires 0 <= b < |tags| => if b < n && tags[b].dev == dev then tags[b].(dev := NO_DEV) else tags[b])
  }

  function Invalidate(c: Cache, dev: nat): Cache {
    c.(cells := Forget(c.cells, dev), tags := ForgetTags(c.tags, dev, c.size2))
  }

  // ---------- do_sync ----------

  /** The last loop of do_sync, over the first `n` buffers. */
  function Sync(c: Cache, n: nat): Cache
    requires n <= |c.cells|
    ensures |Sync(c, n).cells| == |c.cells|
  {
    if n == 0 then c
    else
      var d := Sync(c, n - 1);
      if d.cells[n - 1].dev != NO_DEV && d.cells[n - 1].dirty then Flush(d, d.cells[n - 1].dev) else d
  }
}
