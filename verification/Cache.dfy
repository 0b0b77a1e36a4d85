/** The block cache in place: free buffers on a doubly linked list, all buffers on hash chains,
    evicted blocks in a ring. Every method is proved to compute the functions of CacheSpec. */
module BlockCache {
  import opened Storage
  import opened Links
  import opened CacheSpec
  import opened CacheInvisible
  import opened CachePrefetch
  import opened CacheRuns
  import opened CacheTables
  import opened Scattered

  /** NR_IOREQS: the longest request handed to a device at once. */
  const NR_IOREQS: nat := 64

  /** Writing consecutive blocks from `pos` on. */
  function Transfer(disk: map<Key, Block>, dev: nat, pos: nat, data: seq<Block>): map<Key, Block> {
    if data == [] then disk
    else Transfer(disk, dev, pos, data[..|data| - 1])[Key(dev, pos + |data| - 1) := data[|data| - 1]]
  }

  /** Queue entries from `base` on name consecutive blocks of `dev`, and `data` is their bytes. */
  ghost predicate Vector(cells: seq<Cell>, q: seq<int>, base: nat, dev: nat, data: seq<Block>) {
    && Queue(q, cells) && base + |data| <= |q|
    && forall p :: base <= p < base + |data| ==>
         cells[q[p]].Id() == Key(dev, cells[q[base]].blk + (p - base)) && data[p - base] == cells[q[p]].data
  }

  /** A run of consecutive blocks written in one request is the same as writing each
      buffer to its own block. */
  lemma {:induction false} TransferIsWriteBack(cells: seq<Cell>, disk: map<Key, Block>, q: seq<int>, base: nat,
                                               dev: nat, data: seq<Block>)
    requires Vector(cells, q, base, dev, data)
    ensures data != [] ==>
      Transfer(WriteBack(cells, disk, q[..base]), dev, cells[q[base]].blk, data) == WriteBack(cells, disk, q[..base + |data|])
  {
    if data != [] {
      var n := |data|;
      assert q[..base + n][..base + n - 1] == q[..base + n - 1];
      assert q[..base + n][base + n - 1] == q[base + n - 1];
      TransferIsWriteBack(cells, disk, q, base, dev, data[..n - 1]);
      if n == 1 { assert data[..0] == []; }
      assert cells[q[base + n - 1]].Id() == Key(dev, cells[q[base]].blk + n - 1);
    }
  }

  ghost predicate OnDevice(q: seq<int>, cells: seq<Cell>, dev: nat) {
    Queue(q, cells) && forall p :: 0 <= p < |q| ==> cells[q[p]].dev == dev
  }

  /** The same blocks with the same bytes. */
  ghost predicate SameBytes(a: seq<Cell>, b: seq<Cell>) {
    |a| == |b| && forall i :: 0 <= i < |a| ==> b[i].Id() == a[i].Id() && b[i].data == a[i].data
  }

  lemma CleanedBytes(cells: seq<Cell>, q: seq<int>)
    ensures SameBytes(cells, Cleaned(cells, q))
  {
  }

  lemma CleanedMore(cells: seq<Cell>, q: seq<int>, p: nat)
    requires p < |q| && Queue(q, cells)
    ensures Cleaned(cells, q[..p])[q[p] := cells[q[p]].(dirty := false)] == Cleaned(cells, q[..p + 1])
  {
    assert q[..p + 1] == q[..p] + [q[p]];
    assert forall i :: i in q[..p + 1] <==> i in q[..p] || i == q[p];
  }

  class FsCache {
    // struct buf: buf[i] is cell[i], next[i], prev[i] and hash[i].
    const cell: array<Cell>
    const next: array<int>
    const prev: array<int>
    const hash: array<int>

    const bufHash: array<int>
    var front: int
    var rear: int
    var bufsInUse: nat

    // struct buf2: b2_blocknr and b2_dev are buf2[i], b2_count is b2count[i].
    const buf2: array<Key>
    const b2count: array<nat>
    var nrBuf2: nat
    var buf2Idx: nat

    // What the devices hold.
    var disk: map<Key, Block>

    ghost var lru: seq<int>
    ghost var chains: seq<seq<int>>
    ghost var blank: int

    ghost function Model(): Cache
      reads this, cell, buf2
    {
      Cache(cell[..], lru, disk, buf2[..], buf2Idx, nrBuf2, blank)
    }

    ghost predicate Arrays() {
      && cell.Length == next.Length == prev.Length == hash.Length
      && bufHash.Length > 0 && buf2.Length == b2count.Length
      && next != prev && next != hash && prev != hash
      && bufHash != next && bufHash != prev && bufHash != hash
    }

    ghost predicate LruList()
      reads this, next, prev
    {
      Dll(next[..], prev[..], front, rear, lru)
    }

    ghost predicate HashChains(off: int)
      reads this, cell, hash, bufHash
    {
      Hashed(hash[..], bufHash[..], cell[..], chains, off)
    }

    ghost predicate RingCounts()
      reads this, buf2, b2count
    {
      nrBuf2 > 0 ==> CountsKept(b2count[..], buf2[..], nrBuf2)
    }

    /** The structure every operation keeps: the free list is linked both ways and holds
        exactly the unused buffers, the hash chains partition all buffers by block
        number, the counters are right, no block has two buffers, and the two levels
        and the devices agree. */
    ghost predicate Valid()
      reads this, cell, next, prev, hash, bufHash, buf2, b2count
    {
      && Arrays() && LruList() && HashChains(NIL) && RingCounts()
      && bufsInUse + |lru| == cell.Length
      && Inv(Model())
    }

    // ---------- The free list ----------

    /** rm_lru: take a buffer off the free list. */
    method RmLru(bp: int, ghost p: nat)
      requires Arrays() && LruList() && p < |lru| && lru[p] == bp && bufsInUse + |lru| == cell.Length
      modifies this`front, this`rear, this`bufsInUse, this`lru, next, prev
      ensures LruList() && lru == Without(old(lru), p) && bufsInUse + |lru| == cell.Length
    {
      assert InRange(lru, next.Length);
      ghost var s, n0, p0, f0, r0 := lru, next[..], prev[..], front, rear;
      bufsInUse := bufsInUse + 1;
      var nextPtr := next[bp];
      var prevPtr := prev[bp];
      if prevPtr != NIL { next[prevPtr] := nextPtr; } else { front := nextPtr; }
      if nextPtr != NIL { prev[nextPtr] := prevPtr; } else { rear := prevPtr; }
      lru := Without(lru, p);
      DllRemove(n0, p0, f0, r0, s, p, next[..], prev[..], front, rear);
    }

    method PushFront(bp: int)
      requires Arrays() && LruList() && 0 <= bp < cell.Length && bp !in lru
      modifies this`front, this`rear, this`lru, next, prev
      ensures LruList() && lru == [bp] + old(lru)
    {
      ghost var n0, p0, f0, r0 := next[..], prev[..], front, rear;
      prev[bp] := NIL;
      next[bp] := front;
      if front == NIL { rear := bp; } else { prev[front] := bp; }
      front := bp;
      DllPushFront(n0, p0, f0, r0, lru, bp, next[..], prev[..], rear);
      lru := [bp] + lru;
    }

    method PushRear(bp: int)
      requires Arrays() && LruList() && 0 <= bp < cell.Length && bp !in lru
      modifies this`front, this`rear, this`lru, next, prev
      ensures LruList() && lru == old(lru) + [bp]
    {
      ghost var n0, p0, f0, r0 := next[..], prev[..], front, rear;
      prev[bp] := rear;
      next[bp] := NIL;
      if rear == NIL { front := bp; } else { next[rear] := bp; }
      rear := bp;
      DllPushRear(n0, p0, f0, r0, lru, bp, next[..], prev[..], front);
      lru := lru + [bp];
    }

    // ---------- Devices ----------

    /** dev_io, DEV_SCATTER: the device writes at least the first block and reports how
        far it got. */
    method DevScatter(dev: nat, pos: nat, data: seq<Block>) returns (done: nat)
      requires data != [] && |data| <= NR_IOREQS
      modifies this`disk
      ensures 1 <= done <= |data|
      ensures disk == Transfer(old(disk), dev, pos, data[..done])
    {
      done :| 1 <= done <= |data|;
      var i := 0;
      while i < done
        invariant i <= done
        invariant disk == Transfer(old(disk), dev, pos, data[..i])
      {
        disk := disk[Key(dev, pos + i) := data[i]];
        assert data[..i + 1][..i] == data[..i];
        i := i + 1;
      }
    }

    /** rw_block(bp, WRITING). */
    method WriteBlock(bp: int)
      requires 0 <= bp < cell.Length && cell[bp].dev != NO_DEV
      modifies this`disk, cell
      ensures disk == old(disk)[old(cell[bp]).Id() := old(cell[bp]).data]
      ensures cell[..] == old(cell[..])[bp := old(cell[bp]).(dirty := false)]
    {
      disk := disk[Key(cell[bp].dev, cell[bp].blk) := cell[bp].data];
      cell[bp] := cell[bp].(dirty := false);
    }

    /** The I/O vector of rw_scattered: as many buffers as have consecutive blocks. */
    method BuildVector(dev: nat, bufq: array<int>, base: nat, bufqsize: nat, ghost q: seq<int>, ghost cells: seq<Cell>)
      returns (iov: seq<Block>)
      requires base < bufqsize <= bufq.Length && bufq[..bufqsize] == q
      requires Queue(q, cells) && |cells| == cell.Length && OnDevice(q, cells, dev)
      requires SameBytes(cells, cell[..])
      ensures iov != [] && Vector(cells, q, base, dev, iov) && |iov| <= NR_IOREQS
      ensures |iov| < NR_IOREQS && base + |iov| < bufqsize ==> cells[q[base + |iov|]].blk != cells[q[base]].blk + |iov|
    {
      var j := 0;
      iov := [];
      while j < NR_IOREQS && j < bufqsize - base && cell[bufq[base + j]].blk == cell[bufq[base]].blk + j
        invariant 0 <= j <= bufqsize - base && |iov| == j && j <= NR_IOREQS
        invariant Vector(cells, q, base, dev, iov)
      {
        assert q[base + j] == bufq[base + j] && q[base] == bufq[base];
        iov := iov + [cell[bufq[base + j]].data];
        j := j + 1;
      }
      assert cell[bufq[base]].blk == cell[bufq[base]].blk + 0;
    }

    /** The harvest of a write: the buffers that reached the device are clean. */
    method MarkClean(bufq: array<int>, base: nat, done: nat, ghost q: seq<int>, ghost cells: seq<Cell>)
      requires base + done <= |q| <= bufq.Length && bufq[..|q|] == q
      requires Queue(q, cells) && cell[..] == Cleaned(cells, q[..base])
      modifies cell
      ensures cell[..] == Cleaned(cells, q[..base + done])
    {
      hide Cleaned;
      var i := 0;
      while i < done
        invariant i <= done && bufq[..|q|] == q && |cells| == cell.Length
        invariant cell[..] == Cleaned(cells, q[..base + i])
      {
        CleanedMore(cells, q, base + i);
        CleanedAt(cells, q, base + i);
        assert bufq[base + i] == q[base + i];
        assert cell[bufq[base + i]] == cell[..][q[base + i]];
        cell[bufq[base + i]] := cell[bufq[base + i]].(dirty := false);
        i := i + 1;
      }
    }

    /** One turn of the loop of rw_scattered. */
    method WriteBatch(dev: nat, bufq: array<int>, base: nat, bufqsize: nat,
                      ghost q: seq<int>, ghost cells: seq<Cell>, ghost disk0: map<Key, Block>)
      returns (next: nat)
      requires base < bufqsize <= bufq.Length && bufq[..bufqsize] == q
      requires Queue(q, cells) && OnDevice(q, cells, dev)
      requires Ascending(q, cells) && cell[..] == Cleaned(cells, q[..base])
      requires disk == WriteBack(cells, disk0, q[..base])
      modifies this`disk, cell
      ensures base < next <= bufqsize
      ensures cell[..] == Cleaned(cells, q[..next])
      ensures disk == WriteBack(cells, disk0, q[..next])
    {
      hide Transfer, WriteBack, Cleaned, Ascending;
      CleanedBytes(cells, q[..base]);
      var iov := BuildVector(dev, bufq, base, bufqsize, q, cells);
      assert cell[..][q[base]].blk == cells[q[base]].blk && q[base] == bufq[base];
      var done := DevScatter(dev, cell[bufq[base]].blk, iov);
      TransferIsWriteBack(cells, disk0, q, base, dev, iov[..done]);
      MarkClean(bufq, base, done, q, cells);
      next := base + done;
    }

    /** rw_scattered(dev, bufq, bufqsize, WRITING): every buffer of the queue goes to its
        own block and is clean afterwards.  They go there in ascending order, in which the queue is left. */
    method WriteScattered(dev: nat, bufq: array<int>, bufqsize: nat)
      requires Arrays() && bufq !in {next, prev, hash, bufHash} && bufqsize <= bufq.Length
      requires Queue(bufq[..bufqsize], cell[..]) && NoDup(bufq[..bufqsize])
      requires OnDevice(bufq[..bufqsize], cell[..], dev)
      requires UniqueBlocks(cell[..]) && dev != NO_DEV
      modifies this`disk, cell, bufq
      ensures cell[..] == Cleaned(old(cell[..]), old(bufq[..bufqsize]))
      ensures disk == WriteBack(old(cell[..]), old(disk), old(bufq[..bufqsize]))
      ensures multiset(bufq[..bufqsize]) == multiset(old(bufq[..bufqsize]))
      ensures Queue(bufq[..bufqsize], old(cell[..])) && Ascending(bufq[..bufqsize], old(cell[..]))
    {
      hide UniqueBlocks, WriteBack, Ascending;
      ghost var cells, q0 := cell[..], bufq[..bufqsize];
      SortQueue(bufq, bufqsize, cell);
      ghost var q := bufq[..bufqsize];
      PermutedQueue(q0, q, dev, cells, disk);
      WriteBackNone(cells, disk, q);
      var base := 0;
      while base < bufqsize
        invariant base <= bufqsize
        invariant bufq[..bufqsize] == q && Queue(q, cells)
        invariant cell[..] == Cleaned(cells, q[..base])
        invariant disk == WriteBack(cells, old(disk), q[..base])
      {
        base := WriteBatch(dev, bufq, base, bufqsize, q, cells, old(disk));
      }
      assert q[..base] == q;
    }

    /** The first loop of flushall. */
    method CollectDirty(dev: nat) returns (dirty: array<int>, ndirty: nat)
      ensures fresh(dirty) && ndirty <= dirty.Length
      ensures dirty[..ndirty] == DirtyOf(cell[..], dev, cell.Length)
    {
      dirty := new int[cell.Length];
      ndirty := 0;
      var bp := 0;
      while bp < cell.Length
        invariant bp <= cell.Length && ndirty <= bp
        invariant cell[..] == old(cell[..])
        invariant dirty[..ndirty] == DirtyOf(cell[..], dev, bp)
      {
        if cell[bp].dirty && cell[bp].dev == dev {
          dirty[ndirty] := bp;
          ndirty := ndirty + 1;
        }
        bp := bp + 1;
      }
    }

    /** flushall: write all dirty buffers of a device. */
    method FlushAll(dev: nat)
      requires Arrays() && UniqueBlocks(cell[..]) && dev != NO_DEV
      modifies this`disk, cell
      ensures Model() == Flush(old(Model()), dev)
    {
      hide UniqueBlocks, WriteBack, Cleaned, DirtyOf;
      var dirty, ndirty := CollectDirty(dev);
      ghost var q := dirty[..ndirty];
      forall p | 0 <= p < ndirty ensures 0 <= q[p] < cell.Length && cell[..][q[p]].dev == dev { assert q[p] in q; }
      WriteScattered(dev, dirty, ndirty);
    }

    // ---------- Hash chains ----------

    /** The walk down a hash chain to the block before `bp`. */
    method Before(first: int, bp: int, ghost s: seq<int>, ghost p: nat) returns (prevPtr: int)
      requires Chain(hash[..], first, s) && NoDup(s) && 0 < p < |s| && s[p] == bp
      ensures prevPtr == s[p - 1]
    {
      prevPtr := first;
      ghost var k := 0;
      while hash[prevPtr] != NIL
        invariant 0 <= k < p && prevPtr == s[k]
        decreases p - k
      {
        assert hash[..][s[k]] == s[k + 1];
        if hash[prevPtr] == bp { return; }
        prevPtr := hash[prevPtr];
        k := k + 1;
      }
    }

    /** Takes buffer `bp` off its chain; every other buffer stays on the chain of its block. */
    method Unhash(bp: int)
      requires Arrays() && HashChains(NIL) && 0 <= bp < cell.Length
      modifies this`chains, hash, bufHash
      ensures HashChains(bp)
    {
      hide Hashed, Bucket, OnChain;
      ghost var link, heads := hash[..], bufHash[..];
      ghost var p := OnItsChain(link, heads, cell[..], chains, bp);
      var b := Bucket(cell[bp].blk, bufHash.Length);
      ghost var s := chains[b];
      var prevPtr := bufHash[b];
      if prevPtr == bp {
        assert p == 0;
        bufHash[b] := hash[bp];
      } else {
        prevPtr := Before(prevPtr, bp, s, p);
        hash[prevPtr] := hash[bp];
      }
      chains := chains[b := Without(s, p)];
      Unhashed(link, heads, cell[..], old(chains), bp, p, hash[..], bufHash[..]);
    }

    /** Gives `bp` to another block, with one more user, and puts it on that block's chain; then every
        buffer is on its chain again. */
    method Rehash(bp: int, dev: nat, blk: nat)
      requires Arrays() && HashChains(bp) && 0 <= bp < cell.Length
      modifies this`chains, hash, bufHash, cell
      ensures HashChains(NIL)
      ensures cell[..] == old(cell[..])[bp := Cell(dev, blk, old(cell[bp]).dirty, old(cell[bp]).count + 1, old(cell[bp]).data)]
    {
      ghost var link, heads, cells := hash[..], bufHash[..], cell[..];
      cell[bp] := Cell(dev, blk, cell[bp].dirty, cell[bp].count + 1, cell[bp].data);
      var b := Bucket(cell[bp].blk, bufHash.Length);
      hash[bp] := bufHash[b];
      bufHash[b] := bp;
      Rehashed(link, heads, cells, chains, bp, cell[..]);
      chains := chains[b := [bp] + chains[b]];
    }

    /** Walking one chain finds the buffer of the block exactly if some buffer of the table has it. */
    method Search(dev: nat, blk: nat) returns (bp: int)
      requires Arrays() && HashChains(NIL) && UniqueBlocks(cell[..]) && dev != NO_DEV
      ensures bp == Find(cell[..], Key(dev, blk))
    {
      ghost var cells := cell[..];
      var b := Bucket(blk, bufHash.Length);
      ghost var s := chains[b];
      assert Chain(hash[..], bufHash[..][b], s);
      bp := bufHash[b];
      ghost var p := 0;
      while bp != NIL
        invariant 0 <= p <= |s| && bp == At(s, p)
        invariant forall q :: 0 <= q < p ==> cells[s[q]].Id() != Key(dev, blk)
        decreases |s| - p
      {
        if cell[bp].blk == blk && cell[bp].dev == dev {
          FindUnique(cells, Key(dev, blk), bp);
          return;
        }
        assert hash[..][s[p]] == At(s, p + 1);
        bp := hash[bp];
        p := p + 1;
      }
      forall i | 0 <= i < |cells| ensures cells[i].Id() != Key(dev, blk) {
        if cells[i].Id() == Key(dev, blk) { assert OnChain(cells, bufHash.Length, b, i, NIL); }
      }
    }

    // ---------- The second level cache ----------

    /** put_block2: store a buffer in the 2nd level cache. */
    method PutBlock2(bp: int)
      requires Arrays() && RingCounts() && 0 <= bp < cell.Length && cell[bp].dev != NO_DEV
      requires nrBuf2 <= buf2.Length && (nrBuf2 != 0 ==> buf2Idx < nrBuf2)
      modifies this`disk, this`buf2Idx, buf2, b2count
      ensures RingCounts() && Model() == Spill(old(Model()), bp)
    {
      if nrBuf2 == 0 { return; }
      var b := buf2Idx;
      buf2Idx := buf2Idx + 1;
      if buf2Idx == nrBuf2 { buf2Idx := 0; }
      ghost var tags, counts := buf2[..], b2count[..];
      disk := disk[Key(DEV_RAM, b) := cell[bp].data];
      var h := Bucket(buf2[b].blk, buf2.Length);
      if buf2[b].dev != NO_DEV {
        CountPositive(tags, nrBuf2, h, b);
        b2count[h] := b2count[h] - 1;
      }
      ghost var mid := b2count[..];
      buf2[b] := Key(cell[bp].dev, cell[bp].blk);
      h := Bucket(buf2[b].blk, buf2.Length);
      b2count[h] := b2count[h] + 1;
      CountsReplace(counts, tags, nrBuf2, b, cell[bp].Id(), mid, b2count[..]);
    }

    /** get_block2: a hit exactly if the ring holds the block and its bytes are wanted; then the buffer
        has the newest copy's bytes. */
    method GetBlock2(bp: int, mode: Mode) returns (hit: bool)
      requires Arrays() && RingCounts() && 0 <= bp < cell.Length && cell[bp].dev != NO_DEV
      requires nrBuf2 <= buf2.Length && (nrBuf2 != 0 ==> buf2Idx < nrBuf2)
      modifies this`nrBuf2, cell
      ensures RingCounts()
      ensures nrBuf2 == if old(cell[bp]).dev == DEV_RAM then 0 else old(nrBuf2)
      ensures var k := old(cell[bp]).Id();
        var b := if nrBuf2 == 0 || mode == NoRead then NIL else Newest(buf2[..], buf2Idx, nrBuf2, k);
        && hit == (b != NIL)
        && cell[..] == if hit then old(cell[..])[bp := old(cell[bp]).(data := OnDisk(disk, Key(DEV_RAM, b)))] else old(cell[..])
    {
      if cell[bp].dev == DEV_RAM { nrBuf2 := 0; }
      if nrBuf2 == 0 || mode == NoRead { return false; }
      ghost var tags := buf2[..];
      ghost var k := cell[bp].Id();
      if b2count[Bucket(cell[bp].blk, buf2.Length)] == 0 {
        NothingCounted(tags, buf2Idx, nrBuf2, k);
        return false;
      }
      var b := SearchRing(cell[bp].dev, cell[bp].blk);
      if b == NIL { return false; }
      cell[bp] := cell[bp].(data := OnDisk(disk, Key(DEV_RAM, b)));
      return true;
    }

    /** The backward search of get_block2. */
    method SearchRing(dev: nat, blk: nat) returns (found: int)
      requires 0 < nrBuf2 <= buf2.Length && buf2Idx < nrBuf2
      ensures found == Newest(buf2[..], buf2Idx, nrBuf2, Key(dev, blk))
    {
      ghost var tags, k := buf2[..], Key(dev, blk);
      var b := buf2Idx;
      ghost var wrapped := false;
      while true
        invariant !wrapped ==> 0 <= b <= buf2Idx && LastIn(tags, 0, buf2Idx, k) == LastIn(tags, 0, b, k)
        invariant wrapped ==> buf2Idx < b <= nrBuf2 && LastIn(tags, 0, buf2Idx, k) == NIL
        invariant wrapped ==> LastIn(tags, buf2Idx, nrBuf2, k) == LastIn(tags, buf2Idx, b, k)
        decreases !wrapped, b
      {
        if b == 0 {
          b := nrBuf2;
          wrapped := true;
        }
        b := b - 1;
        if buf2[b].blk == blk && buf2[b].dev == dev { return b; }
        if b == buf2Idx { return NIL; }
      }
    }

    // ---------- The entry points ----------

    /** The tables as they are before the file server starts: all zero. */
    ghost predicate Zeroed()
      reads this, cell, bufHash, buf2, b2count
    {
      && Arrays() && Fresh(cell[..], buf2[..]) && nrBuf2 <= buf2.Length && buf2Idx == 0 && blank == NIL
      && (forall h :: 0 <= h < bufHash.Length ==> bufHash[h] == NIL)
      && (forall h :: 0 <= h < b2count.Length ==> b2count[h] == 0)
    }

    /** Static allocation of the tables, and init_cache2. */
    constructor (nrBufs: nat, hashSize: nat, maxBuf2: nat, size2: nat, devices: map<Key, Block>)
      requires hashSize > 0
      ensures Zeroed() && disk == devices && nrBuf2 == if size2 > maxBuf2 then maxBuf2 else size2
      ensures cell.Length == nrBufs && bufHash.Length == hashSize && buf2.Length == maxBuf2
      ensures fresh(cell) && fresh(next) && fresh(prev) && fresh(hash) && fresh(bufHash) && fresh(buf2) && fresh(b2count)
    {
      cell := new Cell[nrBufs](_ => Cell(NO_DEV, 0, false, 0, []));
      next, prev, hash := new int[nrBufs], new int[nrBufs], new int[nrBufs];
      bufHash := new int[hashSize](_ => NIL);
      buf2 := new Key[maxBuf2](_ => Key(NO_DEV, 0));
      b2count := new nat[maxBuf2](_ => 0);
      nrBuf2 := if size2 > maxBuf2 then maxBuf2 else size2;
      buf2Idx := 0;
      disk := devices;
      blank := NIL;
    }

    /** The two loops of buf_pool. */
    method LinkAll()
      requires Arrays()
      modifies next, prev, hash
      ensures forall i :: 0 <= i < cell.Length ==>
        next[i] == hash[i] == (if i + 1 < cell.Length then i + 1 else NIL) && prev[i] == i - 1
    {
      var bp := 0;
      while bp < cell.Length
        invariant bp <= cell.Length
        invariant forall i :: 0 <= i < bp ==> next[i] == (if i + 1 < cell.Length then i + 1 else NIL) && prev[i] == i - 1
      {
        next[bp] := if bp + 1 < cell.Length then bp + 1 else NIL;
        prev[bp] := bp - 1;
        bp := bp + 1;
      }
      bp := 0;
      while bp < cell.Length
        invariant bp <= cell.Length
        invariant forall i :: 0 <= i < cell.Length ==> next[i] == (if i + 1 < cell.Length then i + 1 else NIL) && prev[i] == i - 1
        invariant forall i :: 0 <= i < bp ==> hash[i] == next[i]
      {
        hash[bp] := next[bp];
        bp := bp + 1;
      }
    }

    /** buf_pool: all buffers are free and on hash chain 0. */
    method BufPool()
      requires Zeroed()
      modifies this`front, this`rear, this`bufsInUse, this`lru, this`chains, next, prev, hash, bufHash
      ensures Valid() && Model() == Initial(cell[..], disk, buf2[..], nrBuf2)
    {
      hide Dll, Hashed, CountsKept, Coherent, FreeList, Shaped, Content, Indices, Empties;
      bufsInUse := 0;
      front := if cell.Length > 0 then 0 else NIL;
      rear := cell.Length - 1;
      LinkAll();
      bufHash[0] := front;
      lru := Indices(cell.Length);
      chains := [Indices(cell.Length)] + Empties(bufHash.Length - 1);
      InitialTables(cell[..], next[..], prev[..], hash[..], bufHash[..], chains, buf2[..], b2count[..], nrBuf2);
      InitialInv(cell[..], disk, buf2[..], nrBuf2);
    }

    /** put_block, when the last user gives the block back. */
    method LastUse(bp: int, oneShot: bool, writeImmed: bool)
      requires Arrays() && LruList() && HashChains(NIL) && 0 <= bp < cell.Length && bp !in lru
      requires bufsInUse > 0 && bufsInUse + |lru| == cell.Length
      modifies this`front, this`rear, this`lru, this`bufsInUse, this`disk, next, prev, cell
      ensures LruList() && HashChains(NIL) && bufsInUse + |lru| == cell.Length
      ensures lru == if oneShot then [bp] + old(lru) else old(lru) + [bp]
      ensures var c := old(cell[bp]);
        if writeImmed && c.dirty && c.dev != NO_DEV
        then cell[..] == old(cell[..])[bp := c.(dirty := false)] && disk == old(disk)[c.Id() := c.data]
        else cell[..] == old(cell[..]) && disk == old(disk)
    {
      hide Hashed;
      bufsInUse := bufsInUse - 1;
      if oneShot { PushFront(bp); } else { PushRear(bp); }
      if writeImmed && cell[bp].dirty && cell[bp].dev != NO_DEV { WriteBlock(bp); }
      HashedSame(hash[..], bufHash[..], old(cell[..]), cell[..], chains, NIL);
    }

    method ChangeCount(bp: int, count: nat)
      requires Arrays() && HashChains(NIL) && 0 <= bp < cell.Length
      modifies cell
      ensures HashChains(NIL) && cell[..] == old(cell[..])[bp := old(cell[bp]).(count := count)]
    {
      hide Hashed;
      cell[bp] := cell[bp].(count := count);
      HashedSame(hash[..], bufHash[..], old(cell[..]), cell[..], chains, NIL);
    }

    /** put_block: the linked tables do what the specified put does to the cache; NIL is no buffer and
        nothing happens. */
    method PutBlock(bp: int, oneShot: bool, writeImmed: bool)
      requires Valid() && blank == NIL
      requires bp == NIL || (0 <= bp < cell.Length && cell[bp].count > 0)
      modifies this, cell, next, prev, hash, bufHash, buf2, b2count
      ensures Valid() && blank == NIL
      ensures Model() == if bp == NIL then old(Model()) else Put(old(Model()), bp, oneShot, writeImmed)
    {
      if bp == NIL { return; }
      hide Coherent, SameContent, Hashed, CountsKept, FreeList, Dll, Shaped, Put;
      ghost var m := Model();
      PutKeeps(m, bp, oneShot, writeImmed);
      SomeInUse(cell[..], lru, bp);
      UseLess(bp, oneShot, writeImmed);
    }

    /** One use less of a buffer. */
    method UseLess(bp: int, oneShot: bool, writeImmed: bool)
      requires Arrays() && LruList() && HashChains(NIL) && 0 <= bp < cell.Length && cell[bp].count > 0 && bp !in lru
      requires bufsInUse > 0 && bufsInUse + |lru| == cell.Length
      modifies this`front, this`rear, this`lru, this`bufsInUse, this`disk, next, prev, cell
      ensures LruList() && HashChains(NIL) && bufsInUse + |lru| == cell.Length
      ensures Model() == Put(old(Model()), bp, oneShot, writeImmed)
    {
      hide Hashed, Dll, Put;
      ghost var m := Model();
      var count := cell[bp].count - 1;
      ChangeCount(bp, count);
      if count != 0 {
        PutEarly(m, Model(), bp, oneShot, writeImmed);
      } else {
        LastUse(bp, oneShot, writeImmed);
        PutLast(m, Model(), bp, oneShot, writeImmed);
      }
    }

    /** get_block, block needed has been found. */
    method Hit(bp: int)
      requires Arrays() && LruList() && HashChains(NIL) && bufsInUse + |lru| == cell.Length
      requires 0 <= bp < cell.Length && (bp in lru <==> cell[bp].count == 0)
      modifies this`front, this`rear, this`bufsInUse, this`lru, next, prev, cell
      ensures LruList() && HashChains(NIL) && bufsInUse + |lru| == cell.Length
      ensures lru == if old(cell[bp]).count == 0 then Remove(old(lru), bp) else old(lru)
      ensures cell[..] == old(cell[..])[bp := old(cell[bp]).(count := old(cell[bp]).count + 1)]
    {
      hide Hashed;
      if cell[bp].count == 0 {
        ghost var p: nat :| p < |lru| && lru[p] == bp;
        RemoveAt(lru, p);
        RmLru(bp, p);
      }
      ChangeCount(bp, cell[bp].count + 1);
    }

    /** What get_block does with the old block of the buffer it took: if it is dirty, every dirty buffer
        of its device goes to the device; then its bytes go to the ring. */
    method Vacate(bp: int)
      requires Arrays() && HashChains(bp) && RingCounts() && UniqueBlocks(cell[..]) && 0 <= bp < cell.Length
      requires nrBuf2 <= buf2.Length && (nrBuf2 != 0 ==> buf2Idx < nrBuf2)
      modifies this`disk, this`buf2Idx, cell, buf2, b2count
      ensures HashChains(bp) && RingCounts()
      ensures Model() == Vacated(old(Model()), bp)
    {
      hide Hashed, CountsKept, Flush, Spill, UniqueBlocks;
      if cell[bp].dev != NO_DEV {
        ghost var m := Model();
        if cell[bp].dirty { FlushTable(bp, cell[bp].dev); }
        ghost var cells := cell[..];
        PutBlock2(bp);
        assert cell[..] == cells by { SpillCells(if m.cells[bp].dirty then Flush(m, m.cells[bp].dev) else m, bp); }
      }
    }

    /** Takes the buffer at the head of the free list; list, chains and the count of buffers in use agree
        with that. */
    method TakeOldest() returns (bp: int)
      requires Arrays() && LruList() && HashChains(NIL) && lru != [] && bufsInUse + |lru| == cell.Length
      modifies this`front, this`rear, this`bufsInUse, this`lru, this`chains, next, prev, hash, bufHash
      ensures LruList() && HashChains(bp) && bufsInUse + |lru| == cell.Length
      ensures 0 <= bp < cell.Length && bp == old(lru)[0] && lru == old(lru)[1..]
    {
      assert front == lru[0] && 0 <= front < cell.Length;
      hide Dll, Hashed;
      bp := front;
      RmLru(bp, 0);
      Unhash(bp);
      assert Without(old(lru), 0) == old(lru)[1..];
    }

    /** flushall with one buffer off its hash chain. */
    method FlushTable(bp: int, dev: nat)
      requires Arrays() && HashChains(bp) && UniqueBlocks(cell[..]) && dev != NO_DEV && 0 <= bp < cell.Length
      modifies this`disk, cell
      ensures HashChains(bp) && Model() == Flush(old(Model()), dev)
      ensures cell[bp].dev == old(cell[bp].dev)
    {
      hide Hashed, UniqueBlocks;
      ghost var m := Model();
      FlushCells(m, dev);
      FlushAll(dev);
      HashedSame(hash[..], bufHash[..], m.cells, cell[..], chains, bp);
      assert cell[bp] == cell[..][bp];
    }

    /** get_block, once a buffer is free: fill in its parameters, hash it and go get the
        block. */
    method Fetch(bp: int, dev: nat, blk: nat, mode: Mode)
      requires Arrays() && HashChains(bp) && RingCounts() && 0 <= bp < cell.Length
      requires nrBuf2 <= buf2.Length && (nrBuf2 != 0 ==> buf2Idx < nrBuf2)
      modifies this`chains, this`nrBuf2, this`blank, hash, bufHash, cell
      ensures HashChains(NIL) && RingCounts() && Model() == Load(old(Model()), bp, Key(dev, blk), mode)
    {
      hide Hashed, CountsKept, Newest;
      ghost var m := Model();
      Rehash(bp, dev, blk);
      ghost var hashed := cell[..];
      if dev != NO_DEV {
        var hit := GetBlock2(bp, mode);
        if hit {
        } else if mode == Prefetch {
          cell[bp] := cell[bp].(dev := NO_DEV);
        } else if mode == Normal {
          cell[bp] := cell[bp].(data := OnDisk(disk, Key(dev, blk)), dirty := false);
        }
        if mode == NoRead { blank := bp; }
        HashedSame(hash[..], bufHash[..], hashed, cell[..], chains, NIL);
      }
      LoadIs(m, Model(), bp, Key(dev, blk), mode);
    }

    /** get_block, for a block that is not in level 1. */
    method Miss(dev: nat, blk: nat, mode: Mode) returns (bp: int)
      requires Arrays() && LruList() && HashChains(NIL) && RingCounts() && bufsInUse + |lru| == cell.Length
      requires Shaped(Model()) && UniqueBlocks(cell[..]) && lru != []
      modifies this, cell, next, prev, hash, bufHash, buf2, b2count
      ensures LruList() && HashChains(NIL) && RingCounts() && bufsInUse + |lru| == cell.Length
      ensures bp == old(lru)[0] && Model() == Load(Evict(old(Model())), bp, Key(dev, blk), mode)
    {
      hide Hashed, CountsKept, Dll, UniqueBlocks, Load, Vacated;
      ghost var m := Model();
      VacatedShape(m, m.lru[0]);
      bp := TakeOldest();
      Vacate(bp);
      Fetch(bp, dev, blk, mode);
    }

    /** get_block: the linked tables do what the specified get does, and the buffer handed out is of the
        block asked for and, unless it is to be filled first, holds its contents. */
    method GetBlock(dev: nat, blk: nat, mode: Mode) returns (bp: int)
      requires Valid() && blank == NIL && CanGet(Model(), Key(dev, blk))
      modifies this, cell, next, prev, hash, bufHash, buf2, b2count
      ensures Valid() && (Model(), bp) == Get(old(Model()), Key(dev, blk), mode)
      ensures Handed(old(Model()), Key(dev, blk), mode, Model(), bp)
    {
      hide Coherent, SameContent, Shaped, Hashed, CountsKept, Dll, UniqueBlocks, Evict, Load, Get, Handed, FreeList, CanGet;
      ghost var m, k := Model(), Key(dev, blk);
      BeforeGet(m, k, mode);
      bp := NIL;
      if dev != NO_DEV { bp := Search(dev, blk); }
      if bp != NIL {
        Hit(bp);
        GetIsHit(m, Model(), k, mode, bp);
      } else {
        GetIsMiss(m, k, mode);
        bp := Miss(dev, blk, mode);
      }
      UseHanded(m, k, mode, Model(), bp);
    }

    /** The holder of a buffer changes its bytes and marks it dirty. */
    method Modify(bp: int, data: Block)
      requires Valid() && (blank == NIL || blank == bp) && 0 <= bp < cell.Length && cell[bp].count > 0
      modifies this`blank, cell
      ensures Valid() && Model() == Write(old(Model()), bp, data)
    {
      hide Coherent, SameContent, Shaped, Hashed, CountsKept, Dll, FreeList, Content;
      ghost var m := Model();
      WriteChangesOne(m, bp, data);
      cell[bp] := cell[bp].(data := data, dirty := true);
      if blank == bp { blank := NIL; }
      HashedSame(hash[..], bufHash[..], m.cells, cell[..], chains, NIL);
      assert Model() == Write(m, bp, data);
    }

    /** invalidate2: invalidate all blocks of a device in the 2nd level cache. */
    method Invalidate2(device: nat)
      requires Arrays() && RingCounts() && nrBuf2 <= buf2.Length && device != NO_DEV
      modifies buf2, b2count
      ensures RingCounts() && buf2[..] == ForgetTags(old(buf2[..]), device, nrBuf2)
    {
      hide CountsKept;
      ghost var tags0 := buf2[..];
      var b := 0;
      while b < nrBuf2
        invariant b <= nrBuf2 && RingCounts()
        invariant buf2[..] == ForgetTags(tags0, device, b)
      {
        if buf2[b].dev == device {
          ghost var tags, counts := buf2[..], b2count[..];
          assert tags[b] == tags0[b];
          var h := Bucket(buf2[b].blk, buf2.Length);
          DropFacts(counts, tags, nrBuf2, b);
          buf2[b] := buf2[b].(dev := NO_DEV);
          b2count[h] := b2count[h] - 1;
          CountsDrop(counts, tags, nrBuf2, b, b2count[..]);
        }
        b := b + 1;
      }
    }

    /** invalidate: afterwards neither a buffer nor the ring knows any block of the device, as specified. */
    method InvalidateDevice(device: nat)
      requires Valid() && blank == NIL && device != NO_DEV
      modifies cell, buf2, b2count
      ensures Valid() && Model() == Invalidate(old(Model()), device)
    {
      hide Coherent, SameContent, Shaped, Hashed, CountsKept, Dll, FreeList, Content;
      ghost var m := Model();
      InvalidateMeaning(m, device);
      assert nrBuf2 <= buf2.Length by { ShapedRing(m); }
      var bp := 0;
      while bp < cell.Length
        invariant bp <= cell.Length && buf2[..] == m.tags && RingCounts()
        invariant forall i :: bp <= i < cell.Length ==> cell[i] == m.cells[i]
        invariant forall i :: 0 <= i < bp ==> cell[i] == if m.cells[i].dev == device then m.cells[i].(dev := NO_DEV) else m.cells[i]
      {
        if cell[bp].dev == device { cell[bp] := cell[bp].(dev := NO_DEV); }
        bp := bp + 1;
      }
      assert cell[..] == Forget(m.cells, device);
      HashedSame(hash[..], bufHash[..], m.cells, cell[..], chains, NIL);
      Invalidate2(device);
    }

    /** flushall on a whole cache. */
    method FlushDevice(dev: nat)
      requires Valid() && blank == NIL && dev != NO_DEV
      modifies this`disk, cell
      ensures Valid() && Invisible(old(Model()), Model()) && Model() == Flush(old(Model()), dev)
    {
      hide Coherent, SameContent, Shaped, Hashed, CountsKept, Dll, FreeList, Flush;
      ghost var m := Model();
      FlushInv(m, dev);
      FlushCells(m, dev);
      assert UniqueBlocks(cell[..]) by { CoherentUnique(m); }
      FlushAll(dev);
      HashedSame(hash[..], bufHash[..], m.cells, cell[..], chains, NIL);
      FlushRest(m, dev);
    }

    /** do_sync: write all the dirty blocks, one drive at a time. */
    method DoSync()
      requires Valid() && blank == NIL
      modifies this`disk, cell
      ensures Valid() && blank == NIL && Model() == Sync(old(Model()), cell.Length)
      ensures Invisible(old(Model()), Model()) && AllClean(Model(), cell.Length)
    {
      hide Coherent, SameContent, Shaped, Hashed, CountsKept, Dll, FreeList, Flush, AllClean;
      ghost var m := Model();
      SyncKeeps(m, cell.Length);
      var bp := 0;
      while bp < cell.Length
        invariant bp <= cell.Length && Valid() && blank == NIL
        invariant Model() == Sync(m, bp)
      {
        if cell[bp].dev != NO_DEV && cell[bp].dirty { FlushDevice(cell[bp].dev); }
        bp := bp + 1;
      }
    }

    /** The harvest of a read for one buffer: it becomes valid if the device delivered its
        block, and is released either way. */
    method Release(bp: int, dev: nat, delivered: bool, ghost base: nat, ghost q: seq<int>)
      requires Valid() && blank == NIL && dev != NO_DEV && Waiting(Model(), dev, base, q) && q != [] && q[0] == bp
      modifies this, cell, next, prev, hash, bufHash, buf2, b2count
      ensures Valid() && blank == NIL && Waiting(Model(), dev, base + 1, q[1..])
      ensures 0 <= bp < |old(Model()).cells| && old(Model()).cells[bp].count > 0
      ensures Model() == Put(if delivered then Deliver(old(Model()), bp, dev) else old(Model()), bp, false, false)
    {
      hide Coherent, SameContent, Shaped, Hashed, CountsKept, Dll, FreeList, Waiting, Put, Deliver;
      ghost var m := Model();
      ReleaseFacts(m, dev, base, q, delivered);
      if delivered {
        cell[bp] := cell[bp].(dev := dev, data := OnDisk(disk, Key(dev, cell[bp].blk)));
        DeliverIs(m, Model(), bp, dev);
        HashedSame(hash[..], bufHash[..], m.cells, cell[..], chains, NIL);
      }
      PutBlock(bp, false, false);
    }

    /** One of the two release loops at the end of rw_scattered. */
    method ReleaseRun(dev: nat, bufq: array<int>, from: nat, to: nat, delivered: bool, ghost base: nat, ghost q: seq<int>)
      requires Valid() && blank == NIL && dev != NO_DEV && from <= to <= |q| <= bufq.Length && bufq[..|q|] == q
      requires bufq !in {next, prev, hash, bufHash}
      requires Waiting(Model(), dev, base + from, q[from..]) && HarvestReady(Model(), q[from..])
      modifies this, cell, next, prev, hash, bufHash, buf2, b2count
      ensures Valid() && blank == NIL
      ensures Waiting(Model(), dev, base + to, q[to..]) && HarvestReady(Model(), q[to..])
      ensures Harvest(Model(), dev, q[to..], 0) == Harvest(old(Model()), dev, q[from..], if delivered then to - from else 0)
    {
      hide Waiting, Put, Deliver, Inv, Harvest, HarvestReady, Arrays, LruList, HashChains, RingCounts;
      ghost var m := Model();
      var i := from;
      while i < to
        invariant from <= i <= to && bufq[..|q|] == q
        invariant Valid() && blank == NIL && Waiting(Model(), dev, base + i, q[i..]) && HarvestReady(Model(), q[i..])
        invariant Harvest(Model(), dev, q[i..], if delivered then to - i else 0)
          == Harvest(m, dev, q[from..], if delivered then to - from else 0)
      {
        assert q[i..][0] == bufq[i] && q[i..][1..] == q[i + 1..];
        HarvestStep(Model(), dev, base + i, q[i..], if delivered then to - i else 0);
        Release(bufq[i], dev, delivered, base + i, q[i..]);
        i := i + 1;
      }
    }

    /** rw_scattered(dev, bufq, bufqsize, READING): one request for the buffers, of which the device fills
        the first `got`; those become valid, and all are released. */
    method ReadScattered(dev: nat, bufq: array<int>, bufqsize: nat, got: nat, ghost base: nat)
      requires Valid() && blank == NIL && dev != NO_DEV && bufqsize <= bufq.Length
      requires bufq !in {next, prev, hash, bufHash} && Waiting(Model(), dev, base, bufq[..bufqsize])
      modifies this, cell, next, prev, hash, bufHash, buf2, b2count, bufq
      ensures Valid() && blank == NIL
      ensures HarvestReady(old(Model()), old(bufq[..bufqsize]))
      ensures Model() == Harvest(old(Model()), dev, old(bufq[..bufqsize]), if got < NR_IOREQS then got else NR_IOREQS)
    {
      hide Waiting, Put, Deliver, Inv, Ascending, HarvestReady, LruList, HashChains, RingCounts;
      ghost var m, q := Model(), bufq[..bufqsize];
      WaitingQueue(m, dev, base, q);
      SortQueue(bufq, bufqsize, cell);
      SortedAlready(m, dev, base, q, bufq[..bufqsize]);
      var j := 0;
      while j < NR_IOREQS && j < bufqsize && cell[bufq[j]].blk == cell[bufq[0]].blk + j
        invariant 0 <= j <= bufqsize && j <= NR_IOREQS
      {
        assert bufq[..bufqsize][j] == bufq[j];
        j := j + 1;
      }
      assert j == NR_IOREQS || j == bufqsize by {
        if j < bufqsize { WaitingRow(m, dev, base, q, j); assert q[j] == bufq[j] && q[0] == bufq[0]; }
      }
      var done: nat := if got < j then got else j;
      HarvestAll(m, dev, q, done, if got < NR_IOREQS then got else NR_IOREQS);
      assert q[0..] == q;
      ReleaseRun(dev, bufq, 0, done, true, base, q);
      ReleaseRun(dev, bufq, done, bufqsize, false, base, q);
      assert q[bufqsize..] == [];
    }

    /** One turn of the loop of rahead: a buffer for block `b`, unless the block is cached already. */
    method CollectOne(dev: nat, b: nat, ghost ahead: int, ghost base: nat, ghost q: seq<int>) returns (bp: int, more: bool)
      requires Valid() && blank == NIL && dev != NO_DEV && Waiting(Model(), dev, base, q) && b == base + |q|
      requires ahead != 1 && bufsInUse + 4 < cell.Length
      modifies this, cell, next, prev, hash, bufHash, buf2, b2count
      ensures Valid() && blank == NIL
      ensures !more ==> Waiting(Model(), dev, base, q) && (Model(), q) == Gather(old(Model()), Key(dev, b), ahead, q)
      ensures more ==> Waiting(Model(), dev, base, q + [bp]) && |q| < cell.Length && |lru| < |old(lru)|
      ensures more ==> Gather(Model(), Key(dev, b + 1), ahead - 1, q + [bp]) == Gather(old(Model()), Key(dev, b), ahead, q)
    {
      hide Waiting, Inv, LruList, HashChains, RingCounts, Get, Put, Gather;
      CollectStep(Model(), dev, base, ahead, q);
      bp := GetBlock(dev, b, Prefetch);
      more := cell[bp].dev == NO_DEV;
      if more {
        QueueFits(Model(), dev, base, q + [bp]);
      } else {
        PutBlock(bp, false, false);
      }
    }

    /** The loop of rahead: collect buffers for the blocks after `block`, as many as
        wanted, but leave 4 free and stop at a block that is already cached. */
    method Collect(dev: nat, block: nat, ahead: int, readQ: array<int>, ghost first: int) returns (size: nat)
      requires Valid() && blank == NIL && dev != NO_DEV && 0 < readQ.Length && readQ.Length >= cell.Length
      requires readQ !in {next, prev, hash, bufHash} && Waiting(Model(), dev, block, [first]) && readQ[0] == first
      modifies this, cell, next, prev, hash, bufHash, buf2, b2count, readQ
      ensures Valid() && blank == NIL && size <= readQ.Length
      ensures (Model(), readQ[..size]) == Gather(old(Model()), Key(dev, block + 1), ahead, [first])
      ensures Waiting(Model(), dev, block, readQ[..size]) && size > 0
    {
      hide Waiting, Inv, LruList, HashChains, RingCounts, Get, Put;
      ghost var m := Model();
      size := 1;
      var left := ahead - 1;
      var b := block;
      assert readQ[..1] == [first];
      while left != 0 && bufsInUse + 4 < cell.Length
        invariant Valid() && blank == NIL && 0 < size <= readQ.Length
        invariant b == block + size - 1
        invariant Waiting(Model(), dev, block, readQ[..size])
        invariant Gather(Model(), Key(dev, b + 1), left + 1, readQ[..size]) == Gather(m, Key(dev, block + 1), ahead, [first])
        decreases |lru|
      {
        ghost var q := readQ[..size];
        b := b + 1;
        var bp, more := CollectOne(dev, b, left + 1, block, q);
        if !more { return; }
        readQ[size] := bp;
        size := size + 1;
        assert readQ[..size] == q + [bp];
        left := left - 1;
      }
    }

    /** rahead: for any number `got` of blocks the device may deliver of the one request, the block asked
        for is handed out with its contents and the contents of no block change. */
    method Rahead(dev: nat, baseblock: nat, ahead: int, got: nat) returns (bp: int)
      requires Valid() && blank == NIL && CanGet(Model(), Key(dev, baseblock)) && dev != NO_DEV
      modifies this, cell, next, prev, hash, bufHash, buf2, b2count
      ensures Valid() && blank == NIL
      ensures (Model(), bp) == ReadAhead(old(Model()), Key(dev, baseblock), ahead, if got < NR_IOREQS then got else NR_IOREQS)
      ensures Handed(old(Model()), Key(dev, baseblock), Normal, Model(), bp)
    {
      hide Waiting, LruList, HashChains, RingCounts, Get, Put, Gather, Harvest, HarvestReady, Handed, Coherent, FreeList, Shaped;
      ghost var m, k, t := Model(), Key(dev, baseblock), if got < NR_IOREQS then got else NR_IOREQS;
      ReadAheadKeeps(m, k, ahead, t);
      FirstWaits(m, k);
      BeforeGet(m, k, Prefetch);
      bp := GetBlock(dev, baseblock, Prefetch);
      PrefetchMiss(m, k);
      if cell[bp].dev != NO_DEV { return; }
      var readQ := new int[cell.Length];
      readQ[0] := bp;
      var size := Collect(dev, baseblock, ahead, readQ, bp);
      ghost var e, q := Model(), readQ[..size];
      ReadScattered(dev, readQ, size, got, baseblock);
      HarvestKeeps(e, dev, baseblock, q, t);
      bp := GetBlock(dev, baseblock, Normal);
    }
  }

  /** One turn of the loop of rahead. */
  lemma CollectStep(c: Cache, dev: nat, base: nat, ahead: int, q: seq<int>)
    requires Inv(c) && c.blank == NIL && dev != NO_DEV && Waiting(c, dev, base, q) && ahead != 1 && |c.lru| > 4
    ensures CanGet(c, Key(dev, base + |q|)) && Shaped(c)
    ensures var k := Key(dev, base + |q|);
      var (d, i) := Get(c, k, Prefetch);
      && Inv(d) && d.blank == NIL && 0 <= i < |d.cells| && d.cells[i].count > 0
      && Gather(c, k, ahead, q) == (if d.cells[i].dev != NO_DEV then (Put(d, i, false, false), q)
                                    else Gather(d, Key(dev, k.blk + 1), ahead - 1, q + [i]))
      && (if d.cells[i].dev != NO_DEV then Waiting(Put(d, i, false, false), dev, base, q)
          else Waiting(d, dev, base, q + [i]) && |d.lru| < |c.lru|)
  {
    var k := Key(dev, base + |q|);
    GetKeeps(c, k, Prefetch);
    PrefetchMiss(c, k);
    WaitingAfterGet(c, dev, base, q);
    var (d, i) := Get(c, k, Prefetch);
    if d.cells[i].dev != NO_DEV { WaitingAfterPut(d, dev, base, q, i); }
  }

  lemma QueueFits(c: Cache, dev: nat, base: nat, q: seq<int>)
    requires Waiting(c, dev, base, q)
    ensures |q| <= |c.cells|
  {
    WaitingCounts(c, dev, base, q);
    var used := set x | x in q;
    SizeOfList(q);
    forall x | x in used ensures x in UpTo(|c.cells|) { var p :| 0 <= p < |q| && q[p] == x; }
    if used != UpTo(|c.cells|) { SmallerSet(used, UpTo(|c.cells|)); }
  }

  lemma HarvestStep(c: Cache, dev: nat, base: nat, q: seq<int>, t: nat)
    requires HarvestReady(c, q) && q != []
    ensures 0 <= q[0] < |c.cells| && c.cells[q[0]].count > 0
    ensures var d := Put(if t == 0 then c else Deliver(c, q[0], dev), q[0], false, false);
      HarvestReady(d, q[1..]) && Harvest(c, dev, q, t) == Harvest(d, dev, q[1..], if t == 0 then 0 else t - 1)
  {
    var d := Put(if t == 0 then c else Deliver(c, q[0], dev), q[0], false, false);
    assert forall p :: 0 < p < |q| ==> d.cells[q[p]] == c.cells[q[p]];
  }

  lemma ReleaseFacts(m: Cache, dev: nat, base: nat, q: seq<int>, delivered: bool)
    requires Inv(m) && m.blank == NIL && dev != NO_DEV && Waiting(m, dev, base, q) && q != []
    ensures 0 <= q[0] < |m.cells| && m.cells[q[0]].count > 0
    ensures var d := if delivered then Deliver(m, q[0], dev) else m;
      Inv(d) && d.cells[q[0]].count > 0 && |d.cells| == |m.cells| && Waiting(Put(d, q[0], false, false), dev, base + 1, q[1..])
      && forall i :: 0 <= i < |m.cells| ==> d.cells[i].blk == m.cells[i].blk
  {
    assert WaitsFor(m.cells[q[0]], base + 0);
    if delivered { DeliverKeeps(m, dev, base, q); }
    var d := if delivered then Deliver(m, q[0], dev) else m;
    WaitingRest(m, Put(d, q[0], false, false), dev, base, q);
  }

  lemma DeliverIs(m: Cache, d: Cache, i: int, dev: nat)
    requires 0 <= i < |m.cells|
    requires d.cells == m.cells[i := m.cells[i].(dev := dev, data := OnDisk(m.disk, Key(dev, m.cells[i].blk)))]
    requires d.lru == m.lru && d.disk == m.disk && d.tags == m.tags && d.idx == m.idx && d.size2 == m.size2 && d.blank == m.blank
    ensures d == Deliver(m, i, dev)
  {
  }

  lemma WaitingQueue(m: Cache, dev: nat, base: nat, q: seq<int>)
    requires Waiting(m, dev, base, q)
    ensures Queue(q, m.cells) && HarvestReady(m, q)
  {
    WaitingCounts(m, dev, base, q);
  }

  lemma WaitingRow(m: Cache, dev: nat, base: nat, q: seq<int>, j: nat)
    requires Waiting(m, dev, base, q) && j < |q|
    ensures 0 <= q[j] < |m.cells| && 0 <= q[0] < |m.cells| && m.cells[q[j]].blk == m.cells[q[0]].blk + j
  {
    assert WaitsFor(m.cells[q[0]], base + 0) && WaitsFor(m.cells[q[j]], base + j);
  }

  /** The device fills no more than there is. */
  lemma {:induction false} HarvestAll(c: Cache, dev: nat, q: seq<int>, s: nat, t: nat)
    requires HarvestReady(c, q) && (s == t || (s >= |q| && t >= |q|))
    ensures Harvest(c, dev, q, s) == Harvest(c, dev, q, t)
    decreases |q|
  {
    if q != [] && s != t {
      var d := Put(if t == 0 then c else Deliver(c, q[0], dev), q[0], false, false);
      assert forall p :: 0 < p < |q| ==> d.cells[q[p]] == c.cells[q[p]];
      HarvestAll(d, dev, q[1..], s - 1, t - 1);
    }
  }

  /** Prefetched blocks are consecutive, so the sort leaves their queue as it is. */
  lemma SortedAlready(m: Cache, dev: nat, base: nat, q: seq<int>, r: seq<int>)
    requires Waiting(m, dev, base, q) && multiset(r) == multiset(q)
    requires Queue(r, m.cells) && Ascending(r, m.cells)
    ensures r == q
  {
    WaitingCounts(m, dev, base, q);
    forall p | 0 <= p < |q| ensures m.cells[q[p]].blk == base + p { assert WaitsFor(m.cells[q[p]], base + p); }
    OneOrder(m.cells, base, q, r);
  }

  ghost predicate Consecutive(q: seq<int>, cells: seq<Cell>, base: nat)
    requires Queue(q, cells)
  {
    forall p :: 0 <= p < |q| ==> cells[q[p]].blk == base + p
  }

  lemma {:induction false} OneOrder(cells: seq<Cell>, base: nat, q: seq<int>, r: seq<int>)
    requires Queue(q, cells) && Queue(r, cells) && multiset(r) == multiset(q)
    requires Consecutive(q, cells, base) && Ascending(r, cells)
    ensures r == q
  {
    hide Consecutive, Ascending, Queue;
    SameLength(q, r);
    if q != [] {
      var n := |q| - 1;
      LastSame(cells, base, q, r);
      MultisetInit(q, r);
      ShorterQueues(cells, base, q, r);
      OneOrder(cells, base, q[..n], r[..n]);
      assert q == q[..n] + [q[n]] && r == r[..n] + [r[n]];
    }
  }

  lemma ShorterQueues(cells: seq<Cell>, base: nat, q: seq<int>, r: seq<int>)
    requires Queue(q, cells) && Queue(r, cells) && Consecutive(q, cells, base) && Ascending(r, cells) && |r| == |q| > 0
    ensures var n := |q| - 1;
      Queue(q[..n], cells) && Queue(r[..n], cells) && Consecutive(q[..n], cells, base) && Ascending(r[..n], cells)
  {
  }

  lemma SameLength(q: seq<int>, r: seq<int>)
    requires multiset(r) == multiset(q)
    ensures |r| == |q|
  {
    assert |multiset(r)| == |r| && |multiset(q)| == |q|;
  }

  lemma MultisetInit(q: seq<int>, r: seq<int>)
    requires multiset(r) == multiset(q) && |r| == |q| > 0 && r[|q| - 1] == q[|q| - 1]
    ensures multiset(r[..|q| - 1]) == multiset(q[..|q| - 1])
  {
    assert q == q[..|q| - 1] + [q[|q| - 1]];
    assert r == r[..|q| - 1] + [r[|q| - 1]];
    assert multiset(q[..|q| - 1]) == multiset(q) - multiset{q[|q| - 1]};
    assert multiset(r[..|q| - 1]) == multiset(r) - multiset{r[|q| - 1]};
  }

  lemma LastSame(cells: seq<Cell>, base: nat, q: seq<int>, r: seq<int>)
    requires Queue(q, cells) && Queue(r, cells) && multiset(r) == multiset(q) && |r| == |q| > 0
    requires Consecutive(q, cells, base) && Ascending(r, cells)
    ensures r[|q| - 1] == q[|q| - 1]
  {
    var n := |q| - 1;
    assert r[n] in multiset(r) && q[n] in multiset(q);
    assert r[n] in q && q[n] in r;
    var a :| 0 <= a < |q| && q[a] == r[n];
    var b :| 0 <= b < |r| && r[b] == q[n];
    assert b < n ==> cells[r[b]].blk <= cells[r[n]].blk;
  }

  lemma DropFacts(counts: seq<nat>, tags: seq<Key>, n: nat, b: nat)
    requires CountsKept(counts, tags, n) && b < n && tags[b].dev != NO_DEV
    ensures b < |tags| == |counts| && counts[Bucket(tags[b].blk, |tags|)] > 0
  {
    CountPositive(tags, n, Bucket(tags[b].blk, |tags|), b);
  }

  lemma ShapedRing(m: Cache)
    requires Shaped(m)
    ensures m.size2 <= |m.tags|
  {
  }

  lemma CoherentUnique(m: Cache)
    requires Coherent(m)
    ensures UniqueBlocks(m.cells)
  {
  }

  lemma FlushRest(m: Cache, dev: nat)
    ensures var d := Flush(m, dev);
      d.lru == m.lru && d.tags == m.tags && d.idx == m.idx && d.size2 == m.size2 && d.blank == m.blank
  {
  }

  lemma BeforeGet(m: Cache, k: Key, mode: Mode)
    requires Inv(m) && m.blank == NIL && CanGet(m, k)
    ensures Shaped(m) && UniqueBlocks(m.cells)
    ensures Handed(m, k, mode, Get(m, k, mode).0, Get(m, k, mode).1)
    ensures forall i :: 0 <= i < |m.cells| ==> (i in m.lru <==> m.cells[i].count == 0)
  {
    GetKeeps(m, k, mode);
  }

  /** What an eviction does to the buffer taken. */
  ghost function Vacated(c: Cache, v: int): Cache
    requires 0 <= v < |c.cells| && c.size2 <= |c.tags| && (c.size2 != 0 ==> c.idx < c.size2)
  {
    if c.cells[v].dev == NO_DEV then c
    else Spill(if c.cells[v].dirty then Flush(c, c.cells[v].dev) else c, v)
  }

  lemma VacatedShape(c: Cache, v: int)
    requires Shaped(c) && c.lru != [] && v == c.lru[0]
    ensures Evict(c) == Vacated(c.(lru := c.lru[1..]), v)
    ensures var d := Evict(c); |d.cells| == |c.cells| && |d.tags| == |c.tags| && d.size2 == c.size2 && (d.size2 != 0 ==> d.idx < d.size2)
  {
  }

  lemma SpillCells(c: Cache, v: int)
    requires 0 <= v < |c.cells| && c.size2 <= |c.tags| && (c.size2 != 0 ==> c.idx < c.size2)
    ensures Spill(c, v).cells == c.cells
  {
  }

  lemma GetIsHit(m: Cache, d: Cache, k: Key, mode: Mode, i: int)
    requires Shaped(m) && CanGet(m, k) && k.dev != NO_DEV && i == Find(m.cells, k) && i != NIL
    requires d.lru == if m.cells[i].count == 0 then Remove(m.lru, i) else m.lru
    requires d.cells == m.cells[i := m.cells[i].(count := m.cells[i].count + 1)]
    requires d.disk == m.disk && d.tags == m.tags && d.idx == m.idx && d.size2 == m.size2 && d.blank == m.blank
    ensures (d, i) == Get(m, k, mode)
  {
  }

  lemma GetIsMiss(m: Cache, k: Key, mode: Mode)
    requires Shaped(m) && CanGet(m, k) && (k.dev != NO_DEV ==> Find(m.cells, k) == NIL)
    ensures m.lru != [] && 0 <= m.lru[0] < |m.cells|
    ensures var e := Evict(m);
      |e.cells| == |m.cells| && |e.tags| == |m.tags| && e.size2 <= |e.tags| && (e.size2 != 0 ==> e.idx < e.size2)
      && Get(m, k, mode) == (Load(e, m.lru[0], k, mode), m.lru[0])
  {
    VacatedShape(m, m.lru[0]);
  }

  lemma UseHanded(c: Cache, k: Key, mode: Mode, d: Cache, i: int)
    requires Handed(c, k, mode, d, i)
    ensures Inv(d)
  {
  }

  /** The cases of get_block's last step. */
  lemma LoadIs(m: Cache, d: Cache, v: int, k: Key, mode: Mode)
    requires 0 <= v < |m.cells| && m.size2 <= |m.tags| && (m.size2 != 0 ==> m.idx < m.size2)
    requires d.lru == m.lru && d.disk == m.disk && d.tags == m.tags && d.idx == m.idx
    requires var cell := Cell(k.dev, k.blk, m.cells[v].dirty, m.cells[v].count + 1, m.cells[v].data);
      if k.dev == NO_DEV then d.cells == m.cells[v := cell] && d.size2 == m.size2 && d.blank == m.blank
      else
        && d.size2 == (if k.dev == DEV_RAM then 0 else m.size2)
        && var b := if d.size2 == 0 || mode == NoRead then NIL else Newest(m.tags, m.idx, d.size2, k);
        && d.blank == (if mode == NoRead then v else m.blank)
        && d.cells == (
          if b != NIL then m.cells[v := cell][v := cell.(data := OnDisk(m.disk, Key(DEV_RAM, b)))]
          else match mode
            case Normal => m.cells[v := cell][v := cell.(data := OnDisk(m.disk, k), dirty := false)]
            case NoRead => m.cells[v := cell]
            case Prefetch => m.cells[v := cell][v := cell.(dev := NO_DEV)])
    ensures d == Load(m, v, k, mode)
  {
    assert forall x: Cell, y: Cell {:trigger m.cells[v := x][v := y]} :: m.cells[v := x][v := y] == m.cells[v := y];
  }

  lemma PutEarly(m: Cache, d: Cache, i: int, oneShot: bool, writeImmed: bool)
    requires 0 <= i < |m.cells| && m.cells[i].count > 1
    requires d.cells == m.cells[i := m.cells[i].(count := m.cells[i].count - 1)]
    requires d.lru == m.lru && d.disk == m.disk && d.tags == m.tags && d.idx == m.idx && d.size2 == m.size2 && d.blank == m.blank
    ensures d == Put(m, i, oneShot, writeImmed)
  {
  }

  lemma PutLast(m: Cache, d: Cache, i: int, oneShot: bool, writeImmed: bool)
    requires 0 <= i < |m.cells| && m.cells[i].count == 1
    requires d.lru == if oneShot then [i] + m.lru else m.lru + [i]
    requires var c := m.cells[i].(count := 0);
      if writeImmed && c.dirty && c.dev != NO_DEV
      then d.cells == m.cells[i := c][i := c.(dirty := false)] && d.disk == m.disk[c.Id() := c.data]
      else d.cells == m.cells[i := c] && d.disk == m.disk
    requires d.tags == m.tags && d.idx == m.idx && d.size2 == m.size2 && d.blank == m.blank
    ensures d == Put(m, i, oneShot, writeImmed)
  {
    assert forall c :: m.cells[i := c][i := c.(dirty := false)] == m.cells[i := c.(dirty := false)];
  }

  lemma SomeInUse(cells: seq<Cell>, lru: seq<int>, i: int)
    requires FreeList(cells, lru) && 0 <= i < |cells| && cells[i].count > 0
    ensures i !in lru && |lru| < |cells|
  {
    ShortList(lru, |cells|, i);
  }

  /** A list of distinct indices that leaves one out is shorter than the table. */
  lemma ShortList(s: seq<int>, n: nat, i: int)
    requires NoDup(s) && (forall p :: 0 <= p < |s| ==> 0 <= s[p] < n) && 0 <= i < n && i !in s
    ensures |s| < n
  {
    var used := set x | x in s;
    SizeOfList(s);
    assert i in UpTo(n) && i !in used;
    forall x | x in used ensures x in UpTo(n) { var p :| 0 <= p < |s| && s[p] == x; }
    SmallerSet(used, UpTo(n));
  }

  function UpTo(n: nat): (r: set<int>)
    ensures |r| == n && forall x :: x in r <==> 0 <= x < n
  {
    if n == 0 then {} else UpTo(n - 1) + {n - 1}
  }

  lemma {:induction false} SizeOfList(s: seq<int>)
    requires NoDup(s)
    ensures |set x | x in s| == |s|
  {
    if s != [] {
      var rest, last := s[..|s| - 1], s[|s| - 1];
      SizeOfList(rest);
      assert s == rest + [last];
      assert (set x | x in s) == (set x | x in rest) + {last};
      assert last !in rest;
    }
  }

  lemma SmallerSet(a: set<int>, b: set<int>)
    requires a < b
    ensures |a| < |b|
  {
    assert b == a + (b - a);
    assert b - a != {};
  }

  /** The three lists buf_pool sets up. */
  lemma InitialTables(cells: seq<Cell>, next: seq<int>, prev: seq<int>, hash: seq<int>, bufHash: seq<int>, chains: seq<seq<int>>,
                      tags: seq<Key>, counts: seq<nat>, size2: nat)
    requires Fresh(cells, tags) && |next| == |prev| == |hash| == |cells| && |bufHash| == |chains| > 0 && |counts| == |tags|
    requires size2 <= |tags|
    requires forall i :: 0 <= i < |cells| ==> next[i] == hash[i] == (if i + 1 < |cells| then i + 1 else NIL) && prev[i] == i - 1
    requires forall h :: 0 <= h < |chains| ==> bufHash[h] == if h == 0 && |cells| > 0 then 0 else NIL
    requires forall h :: 0 <= h < |chains| ==> chains[h] == if h == 0 then Indices(|cells|) else []
    requires forall h :: 0 <= h < |counts| ==> counts[h] == 0
    ensures Dll(next, prev, if cells == [] then NIL else 0, |cells| - 1, Indices(|cells|))
    ensures Hashed(hash, bufHash, cells, chains, NIL)
    ensures CountsKept(counts, tags, size2)
  {
    hide Indices;
    assert Dll(next, prev, if cells == [] then NIL else 0, |cells| - 1, Indices(|cells|));
    forall h | 0 <= h < |tags| ensures counts[h] == CountTags(tags, size2, h) { NoneCounted(tags, size2, h); }
    InitialChains(cells, hash, bufHash, chains);
  }

  lemma InitialChains(cells: seq<Cell>, hash: seq<int>, bufHash: seq<int>, chains: seq<seq<int>>)
    requires |hash| == |cells| && |bufHash| == |chains| > 0
    requires forall i :: 0 <= i < |cells| ==> cells[i].blk == 0
    requires forall i :: 0 <= i < |cells| ==> hash[i] == (if i + 1 < |cells| then i + 1 else NIL)
    requires forall h :: 0 <= h < |chains| ==> bufHash[h] == if h == 0 && |cells| > 0 then 0 else NIL
    requires forall h :: 0 <= h < |chains| ==> chains[h] == if h == 0 then Indices(|cells|) else []
    ensures Hashed(hash, bufHash, cells, chains, NIL)
  {
    hide Indices;
    var all := Indices(|cells|);
    assert Bucket(0, |bufHash|) == 0;
    assert Chain(hash, bufHash[0], all) && NoDup(all);
    hide Bucket;
    forall h, i | 0 <= h < |bufHash| ensures i in chains[h] <==> OnChain(cells, |bufHash|, h, i, NIL) {
      if 0 <= i < |cells| { assert all[i] == i; }
    }
  }

  function Empties(n: nat): (s: seq<seq<int>>)
    ensures |s| == n && forall h :: 0 <= h < n ==> s[h] == []
  {
    if n == 0 then [] else Empties(n - 1) + [[]]
  }

  lemma {:induction false} NoneCounted(tags: seq<Key>, n: nat, h: int)
    requires n <= |tags| && forall b :: 0 <= b < |tags| ==> tags[b].dev == NO_DEV
    ensures CountTags(tags, n, h) == 0
  {
    if n > 0 { NoneCounted(tags, n - 1, h); }
  }

  lemma NothingCounted(tags: seq<Key>, idx: nat, size2: nat, k: Key)
    requires idx <= size2 <= |tags| && size2 > 0 && k.dev != NO_DEV
    requires CountTags(tags, size2, Bucket(k.blk, |tags|)) == 0
    ensures Newest(tags, idx, size2, k) == NIL
  {
    var b := Newest(tags, idx, size2, k);
    if b != NIL { CountZero(tags, size2, Bucket(k.blk, |tags|), b); }
  }

  lemma CleanedAt(cells: seq<Cell>, q: seq<int>, p: nat)
    requires p < |q| && Queue(q, cells)
    ensures Cleaned(cells, q[..p])[q[p]].(dirty := false) == cells[q[p]].(dirty := false)
  {
  }

  lemma WriteBackNone(cells: seq<Cell>, disk: map<Key, Block>, q: seq<int>)
    requires Queue(q, cells)
    ensures WriteBack(cells, disk, q[..0]) == disk && Cleaned(cells, q[..0]) == cells
  {
  }

  lemma PermutedQueue(q0: seq<int>, q: seq<int>, dev: nat, cells: seq<Cell>, disk: map<Key, Block>)
    requires multiset(q) == multiset(q0) && Queue(q0, cells) && NoDup(q0) && UniqueBlocks(cells)
    requires dev != NO_DEV && OnDevice(q0, cells, dev)
    ensures OnDevice(q, cells, dev) && NoDup(q) && |q| == |q0|
    ensures Cleaned(cells, q) == Cleaned(cells, q0) && WriteBack(cells, disk, q) == WriteBack(cells, disk, q0)
  {
    forall i ensures i in q <==> i in q0 { assert i in multiset(q) <==> i in multiset(q0); }
    NoDupMultiset(q0);
    NoDupFromMultiset(q);
    assert |multiset(q)| == |q| && |multiset(q0)| == |q0|;
    forall p | 0 <= p < |q| ensures q[p] in q0 { assert q[p] in q; }
    WriteBackAnyOrder(cells, disk, q, q0);
  }

  lemma {:induction false} NoDupMultiset(q: seq<int>)
    requires NoDup(q)
    ensures forall x :: multiset(q)[x] <= 1
  {
    if q != [] {
      var rest := q[..|q| - 1];
      assert q == rest + [q[|q| - 1]];
      NoDupMultiset(rest);
      forall x ensures multiset(q)[x] <= 1 {
        if x == q[|q| - 1] { assert x !in rest; }
      }
    }
  }

  lemma NoDupFromMultiset(q: seq<int>)
    requires forall x :: multiset(q)[x] <= 1
    ensures NoDup(q)
  {
    forall i, j | 0 <= i < j < |q| ensures q[i] != q[j] {
      assert q == q[..j] + q[j..];
      assert q[i] in q[..j] && q[j] in q[j..];
      assert multiset(q)[q[i]] == multiset(q[..j])[q[i]] + multiset(q[j..])[q[i]];
    }
  }
}
