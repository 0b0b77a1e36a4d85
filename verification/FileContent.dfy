/** A regular file as a sequence of bytes over the block map. */
module FileContent {
  import opened Storage
  import opened Indirect
  import opened BlockMap

  // ---------- Arithmetic of positions ----------

  lemma QuotMono(x: nat, y: nat, n: nat)
    requires n > 0 && x <= y
    ensures Quot(x, n) <= Quot(y, n)
  {
    QuotRest(x, n);
    QuotRest(y, n);
    if Quot(y, n) < Quot(x, n) { MulStep(Quot(y, n), Quot(x, n), n); }
  }

  lemma QuotIs(x: nat, q: nat, r: nat, n: nat)
    requires n > 0 && r < n && x == q * n + r
    ensures Quot(x, n) == q && Rest(x, n) == r
  {
    QuotRest(x, n);
    if q < Quot(x, n) { MulStep(q, Quot(x, n), n); }
    else if Quot(x, n) < q { MulStep(Quot(x, n), q, n); }
  }

  /** Moving inside one group of `n`. */
  lemma SameGroup(x: nat, d: nat, n: nat)
    requires n > 0 && Rest(x, n) + d < n
    ensures Quot(x + d, n) == Quot(x, n) && Rest(x + d, n) == Rest(x, n) + d
  {
    QuotRest(x, n);
    QuotIs(x + d, Quot(x, n), Rest(x, n) + d, n);
  }

  /** Moving to the start of the next group. */
  lemma NextGroup(x: nat, n: nat)
    requires n > 0
    ensures Quot(x + (n - Rest(x, n)), n) == Quot(x, n) + 1 && Rest(x + (n - Rest(x, n)), n) == 0
  {
    QuotRest(x, n);
    var y := x + (n - Rest(x, n));
    assert (Quot(x, n) + 1) * n == Quot(x, n) * n + n;
    QuotIs(y, Quot(x, n) + 1, 0, n);
  }

  /** In the same group, distances are differences of remainders. */
  lemma GroupDistance(x: nat, y: nat, n: nat)
    requires n > 0 && Quot(x, n) == Quot(y, n)
    ensures y - x == Rest(y, n) - Rest(x, n)
  {
    QuotRest(x, n);
    QuotRest(y, n);
  }

  // ---------- Bytes of a file ----------

  /** Block `k` of file `i`, counted from the start of the file. */
  function FileBlock(g: Geo, fs: Fs, i: nat, k: nat): (r: Block)
    requires Shape(g, fs) && i < |fs.inos| && Quot(k, g.spz) < Limit(g)
    ensures |r| == g.bs
  {
    DataBlock(g, fs, i, PosOf(g, Quot(k, g.spz)), Rest(k, g.spz))
  }

  /** The byte at a position; beyond the end of the file this is whatever the disk holds. */
  function ByteAt(g: Geo, fs: Fs, i: nat, q: nat): byte
    requires Shape(g, fs) && i < |fs.inos| && ZnOf(g, q) < Limit(g)
  {
    FileBlock(g, fs, i, BlkOf(g, q))[Rest(q, g.bs)]
  }

  predicate InLimit(g: Geo, n: nat)
    requires g.bs > 0 && g.spz > 0
  {
    n > 0 ==> ZnOf(g, n - 1) < Limit(g)
  }

  lemma InLimitBelow(g: Geo, n: nat, q: nat)
    requires g.bs > 0 && g.spz > 0 && InLimit(g, n) && q < n
    ensures ZnOf(g, q) < Limit(g) && InLimit(g, q)
  {
    QuotMono(q, n - 1, g.bs);
    QuotMono(BlkOf(g, q), BlkOf(g, n - 1), g.spz);
    if q > 0 {
      QuotMono(q - 1, q, g.bs);
      QuotMono(BlkOf(g, q - 1), BlkOf(g, q), g.spz);
    }
  }

  /** The first `n` bytes of file `i`. */
  function Content(g: Geo, fs: Fs, i: nat, n: nat): (s: seq<byte>)
    requires Shape(g, fs) && i < |fs.inos| && InLimit(g, n)
    ensures |s| == n
    ensures forall q :: 0 <= q < n ==> ZnOf(g, q) < Limit(g) && s[q] == ByteAt(g, fs, i, q)
  {
    if n == 0 then []
    else
      InLimitBelow(g, n, n - 1);
      Content(g, fs, i, n - 1) + [ByteAt(g, fs, i, n - 1)]
  }

  function WrittenAt(old_: seq<byte>, pos: nat, data: seq<byte>, q: nat): byte {
    if pos <= q < pos + |data| then data[q - pos] else if q < |old_| then old_[q] else 0
  }

  /** What a write means: the old bytes, extended with zeros up to `pos` if they end before,
      with `data` laid over them. */
  function Written(old_: seq<byte>, pos: nat, data: seq<byte>): (s: seq<byte>)
    ensures |s| == if |old_| < pos + |data| then pos + |data| else |old_|
    ensures forall q :: 0 <= q < |s| ==> s[q] == WrittenAt(old_, pos, data, q)
  {
    var base := old_ + Zeros(if |old_| < pos then pos - |old_| else 0);
    base[..pos] + data + (if pos + |data| < |base| then base[pos + |data|..] else [])
  }

  /** Writing in two pieces is writing at once. */
  lemma WrittenTwice(old_: seq<byte>, pos: nat, d1: seq<byte>, d2: seq<byte>)
    ensures Written(Written(old_, pos, d1), pos + |d1|, d2) == Written(old_, pos, d1 + d2)
  {
  }

  // ---------- The invariant that makes holes and the end of file read as zeros ----------

  /** Bytes past the end of file within its last block are zero. */
  ghost predicate ZeroTail(g: Geo, fs: Fs, i: nat, e: nat)
    requires Shape(g, fs) && i < |fs.inos| && InLimit(g, e)
  {
    Rest(e, g.bs) != 0 ==>
      (ZnOf(g, e) < Limit(g) && forall r :: Rest(e, g.bs) <= r < g.bs ==> FileBlock(g, fs, i, BlkOf(g, e))[r] == 0)
  }

  /** No zone beyond the one that holds the last byte is mapped. */
  ghost predicate NothingBeyond(g: Geo, fs: Fs, i: nat, e: nat)
    requires Shape(g, fs) && i < |fs.inos|
  {
    forall zn | 0 <= zn < Limit(g) && (e > 0 ==> zn > ZnOf(g, e - 1)) :: ZoneOf(g, fs.store, fs.inos[i].zone, zn) == 0
  }

  /** The end of file is in the first block of its zone, or that zone is mapped. */
  ghost predicate EndMapped(g: Geo, fs: Fs, i: nat, e: nat)
    requires Shape(g, fs) && i < |fs.inos|
  {
    OffOf(g, e) != 0 && ZnOf(g, e) < Limit(g) ==> ZoneOf(g, fs.store, fs.inos[i].zone, ZnOf(g, e)) != 0
  }

  /** When zones are single blocks there is nothing to it. */
  lemma SmallZonesEnd(g: Geo, fs: Fs, i: nat, e: nat)
    requires Shape(g, fs) && i < |fs.inos| && g.spz == 1
    ensures EndMapped(g, fs, i, e)
  {
  }

  /** A position that is not at the start of a zone shares its zone with the one before. */
  lemma BackInZone(g: Geo, n: nat)
    requires g.bs > 0 && g.spz > 0 && OffOf(g, n) != 0
    ensures n > 0 && ZnOf(g, n) == ZnOf(g, n - 1)
  {
    hide Quot, Rest;
    QuotRest(n, g.bs);
    QuotRest(BlkOf(g, n), g.spz);
    if Rest(n, g.bs) != 0 { BackOne(g, n); }
    else {
      var k := BlkOf(g, n);
      PositiveQuot(k, g.spz);
      assert (k - 1) * g.bs == k * g.bs - g.bs;
      MulStep(0, k, g.bs);
      QuotIs(n - 1, k - 1, g.bs - 1, g.bs);
      QuotIs(k - 1, Quot(k, g.spz), Rest(k, g.spz) - 1, g.spz);
    }
  }

  lemma PositiveQuot(k: nat, n: nat)
    requires n > 0 && Rest(k, n) != 0
    ensures k > 0
  {
  }

  // ---------- One block of one zone ----------

  /** Writing block `off` of a data zone changes that block of that file and nothing else. */
  lemma DataWrite(g: Geo, a: Fs, held: set<nat>, i: nat, p: Pos, off: nat, blk: Block)
    requires Tidy(g, a, held) && ValidOwner(g, a, i, Data(p)) && Own(g, a, i, Data(p)) != 0 && off < g.spz && |blk| == g.bs
    ensures var b := a.(store := a.store[BlockNo(g, Own(g, a, i, Data(p)), off) := blk]);
      && Tidy(g, b, held) && SameSlots(g, a, b) && DataFrame(g, a, b, i, p)
      && forall x: nat | x < g.spz :: DataBlock(g, b, i, p, x) == if x == off then blk else DataBlock(g, a, i, p, x)
  {
    var z := Own(g, a, i, Data(p));
    var b := a.(store := a.store[BlockNo(g, z, off) := blk]);
    assert NoTable(g, a, z);
    WriteElsewhere(g, a, z, off, blk);
    TidySame(g, a, b, held);
    assert Own(g, b, i, Data(p)) == z;
    forall x: nat | x < g.spz ensures DataBlock(g, b, i, p, x) == if x == off then blk else DataBlock(g, a, i, p, x) {
      if x != off && BlockNo(g, z, x) == BlockNo(g, z, off) { BlockNoUnique(g, z, x, z, off); }
    }
    forall i', p', x: nat | ValidOwner(g, a, i', Data(p')) && x < g.spz && (i' != i || p' != p)
      ensures DataBlock(g, b, i', p', x) == DataBlock(g, a, i', p', x)
    {
      OtherBlock(g, a, b, held, i, p, off, blk, i', p', x);
    }
  }

  lemma OtherBlock(g: Geo, a: Fs, b: Fs, held: set<nat>, i: nat, p: Pos, off: nat, blk: Block, i': int, p': Pos, x: nat)
    requires Tidy(g, a, held) && ValidOwner(g, a, i, Data(p)) && Own(g, a, i, Data(p)) != 0 && off < g.spz && |blk| == g.bs
    requires b == a.(store := a.store[BlockNo(g, Own(g, a, i, Data(p)), off) := blk]) && SameSlots(g, a, b) && Shape(g, b)
    requires ValidOwner(g, a, i', Data(p')) && x < g.spz && (i' != i || p' != p)
    ensures ValidOwner(g, b, i', Data(p')) && DataBlock(g, b, i', p', x) == DataBlock(g, a, i', p', x)
  {
    var w, z := Own(g, a, i', Data(p')), Own(g, a, i, Data(p));
    assert Own(g, b, i', Data(p')) == w;
    if w != 0 && BlockNo(g, w, x) == BlockNo(g, z, off) { BlockNoUnique(g, w, x, z, off); }
  }

  // ---------- From blocks to bytes ----------

  /** Every block of file `i` among the first `n`, except block `k`, is as before. */
  ghost predicate BlocksBut(g: Geo, a: Fs, b: Fs, i: nat, n: nat, k: nat)
    requires Shape(g, a) && Shape(g, b) && i < |a.inos| && i < |b.inos|
  {
    forall j: nat | j < n && j != k && Quot(j, g.spz) < Limit(g) :: FileBlock(g, b, i, j) == FileBlock(g, a, i, j)
  }

  function Spliced(base: Block, off: nat, data: seq<byte>): (r: Block)
    requires off + |data| <= |base|
    ensures |r| == |base|
    ensures forall x :: 0 <= x < |r| ==> r[x] == if off <= x < off + |data| then data[x - off] else base[x]
  {
    base[..off] + data + base[off + |data|..]
  }

  /** What the block under a write held before the user's bytes were copied in, as far as
      they do not cover it: the old bytes below the end of file `e`, zeros from there on. */
  ghost predicate GoodBase(g: Geo, a: Fs, i: nat, pos: nat, len: nat, base: Block, e: nat)
    requires Shape(g, a) && i < |a.inos| && ZnOf(g, pos) < Limit(g)
  {
    |base| == g.bs && forall x | 0 <= x < g.bs && (x < Rest(pos, g.bs) || Rest(pos, g.bs) + len <= x) ::
      base[x] == if pos - Rest(pos, g.bs) + x < e then FileBlock(g, a, i, BlkOf(g, pos))[x] else 0
  }

  function Max(x: nat, y: nat): nat {
    if x < y then y else x
  }

  /** A chunk written into one block is a write on the byte sequence. */
  lemma ChunkByte(g: Geo, a: Fs, b: Fs, i: nat, pos: nat, data: seq<byte>, base: Block, e: nat, q: nat)
    requires Shape(g, a) && Shape(g, b) && i < |a.inos| == |b.inos|
    requires data != [] && Rest(pos, g.bs) + |data| <= g.bs && pos <= e && q < Max(e, pos + |data|)
    requires InLimit(g, e) && InLimit(g, pos + |data|) && ZnOf(g, pos) < Limit(g) && ZnOf(g, q) < Limit(g)
    requires GoodBase(g, a, i, pos, |data|, base, e)
    requires FileBlock(g, b, i, BlkOf(g, pos)) == Spliced(base, Rest(pos, g.bs), data)
    requires BlkOf(g, q) != BlkOf(g, pos) ==> FileBlock(g, b, i, BlkOf(g, q)) == FileBlock(g, a, i, BlkOf(g, q))
    ensures ByteAt(g, b, i, q) == if pos <= q < pos + |data| then data[q - pos] else ByteAt(g, a, i, q)
  {
    if BlkOf(g, q) == BlkOf(g, pos) {
      GroupDistance(pos, q, g.bs);
    } else if pos <= q < pos + |data| {
      SameGroup(pos, q - pos, g.bs);
    }
  }

  /** Blocks that hold one of the first `n` bytes. */
  function BlocksOf(g: Geo, n: nat): nat
    requires g.bs > 0
  {
    if n == 0 then 0 else BlkOf(g, n - 1) + 1
  }

  lemma BlockCounted(g: Geo, n: nat, q: nat)
    requires g.bs > 0 && q < n
    ensures BlkOf(g, q) < BlocksOf(g, n)
  {
    QuotMono(q, n - 1, g.bs);
  }

  /** A chunk written into one block is a write on the byte sequence. */
  lemma ChunkContent(g: Geo, a: Fs, b: Fs, i: nat, pos: nat, data: seq<byte>, base: Block, e: nat)
    requires Shape(g, a) && Shape(g, b) && i < |a.inos| == |b.inos|
    requires data != [] && Rest(pos, g.bs) + |data| <= g.bs && pos <= e
    requires InLimit(g, e) && InLimit(g, pos + |data|) && ZnOf(g, pos) < Limit(g)
    requires GoodBase(g, a, i, pos, |data|, base, e)
    requires FileBlock(g, b, i, BlkOf(g, pos)) == Spliced(base, Rest(pos, g.bs), data)
    requires BlocksBut(g, a, b, i, BlocksOf(g, Max(e, pos + |data|)), BlkOf(g, pos))
    ensures InLimit(g, Max(e, pos + |data|))
    ensures Content(g, b, i, Max(e, pos + |data|)) == Written(Content(g, a, i, e), pos, data)
  {
    hide Quot, Rest, FileBlock, Limit, GoodBase, Content, Written;
    var n := Max(e, pos + |data|);
    var was, now := Content(g, a, i, e), Content(g, b, i, n);
    ContentSays(g, a, i, e);
    ContentSays(g, b, i, n);
    forall q | 0 <= q < n ensures now[q] == WrittenAt(was, pos, data, q) {
      InLimitBelow(g, n, q);
      BlockCounted(g, n, q);
      ChunkByte(g, a, b, i, pos, data, base, e, q);
      if q < e { assert was[q] == ByteAt(g, a, i, q); }
    }
    assert |Written(was, pos, data)| == n;
  }

  lemma ContentSays(g: Geo, fs: Fs, i: nat, n: nat)
    requires Shape(g, fs) && i < |fs.inos| && InLimit(g, n)
    ensures |Content(g, fs, i, n)| == n
    ensures forall q :: 0 <= q < n ==> ZnOf(g, q) < Limit(g) && Content(g, fs, i, n)[q] == ByteAt(g, fs, i, q)
  {
  }

  /** A chunk leaves zeros behind the new end of file. */
  lemma ChunkTail(g: Geo, a: Fs, b: Fs, i: nat, pos: nat, data: seq<byte>, base: Block, e: nat)
    requires Shape(g, a) && Shape(g, b) && i < |a.inos| == |b.inos|
    requires data != [] && Rest(pos, g.bs) + |data| <= g.bs && pos <= e
    requires InLimit(g, e) && InLimit(g, pos + |data|) && ZnOf(g, pos) < Limit(g)
    requires GoodBase(g, a, i, pos, |data|, base, e) && ZeroTail(g, a, i, e)
    requires FileBlock(g, b, i, BlkOf(g, pos)) == Spliced(base, Rest(pos, g.bs), data)
    requires BlocksBut(g, a, b, i, BlocksOf(g, Max(e, pos + |data|)), BlkOf(g, pos))
    ensures InLimit(g, Max(e, pos + |data|)) && ZeroTail(g, b, i, Max(e, pos + |data|))
  {
    hide Quot, Rest, FileBlock, Limit;
    var n := Max(e, pos + |data|);
    if Rest(n, g.bs) != 0 {
      BackOne(g, n);
      if BlkOf(g, n) == BlkOf(g, pos) {
        GroupDistance(pos, n, g.bs);
      } else {
        if n == pos + |data| { BlockEnd(g, pos, |data|); }
        BlockCounted(g, n, n - 1);
      }
    }
  }

  /** A position that is not at the start of a block shares its block with the one before. */
  lemma BackOne(g: Geo, n: nat)
    requires g.bs > 0 && g.spz > 0 && Rest(n, g.bs) != 0
    ensures n > 0 && BlkOf(g, n) == BlkOf(g, n - 1) && ZnOf(g, n) == ZnOf(g, n - 1)
  {
    QuotRest(n, g.bs);
    QuotIs(n - 1, Quot(n, g.bs), Rest(n, g.bs) - 1, g.bs);
  }

  lemma BlockEnd(g: Geo, pos: nat, len: nat)
    requires g.bs > 0 && Rest(pos, g.bs) + len <= g.bs
    ensures Rest(pos, g.bs) + len == g.bs ==> Rest(pos + len, g.bs) == 0
    ensures Rest(pos, g.bs) + len < g.bs ==> BlkOf(g, pos + len) == BlkOf(g, pos)
  {
    if Rest(pos, g.bs) + len < g.bs { SameGroup(pos, len, g.bs); } else { NextGroup(pos, g.bs); }
  }

  // ---------- Choosing the base ----------

  /** An existing block below the end of file, or the one the file ends in. */
  lemma BaseIsOld(g: Geo, a: Fs, i: nat, pos: nat, len: nat, e: nat)
    requires Shape(g, a) && i < |a.inos| && InLimit(g, e) && ZnOf(g, pos) < Limit(g)
    requires pos <= e && ZeroTail(g, a, i, e) && (pos == e ==> Rest(pos, g.bs) != 0)
    ensures GoodBase(g, a, i, pos, len, FileBlock(g, a, i, BlkOf(g, pos)), e)
  {
    hide Quot, Rest, FileBlock, Limit;
    var blk := FileBlock(g, a, i, BlkOf(g, pos));
    forall x | 0 <= x < g.bs && pos - Rest(pos, g.bs) + x >= e ensures blk[x] == 0 {
      QuotRest(pos, g.bs);
      QuotIs(pos - Rest(pos, g.bs) + x, Quot(pos, g.bs), x, g.bs);
      QuotMono(pos, e, g.bs);
      QuotMono(e, pos - Rest(pos, g.bs) + x, g.bs);
      GroupDistance(pos, e, g.bs);
    }
  }

  /** A block of zeros, for a hole or for a block the file has not reached. */
  lemma BaseIsZero(g: Geo, a: Fs, i: nat, pos: nat, len: nat, e: nat)
    requires Shape(g, a) && i < |a.inos| && ZnOf(g, pos) < Limit(g)
    requires FileBlock(g, a, i, BlkOf(g, pos)) == Zeros(g.bs) || (pos >= e && Rest(pos, g.bs) == 0)
    ensures GoodBase(g, a, i, pos, len, Zeros(g.bs), e)
  {
  }

  lemma BaseIsAny(g: Geo, a: Fs, i: nat, pos: nat, base: Block, e: nat)
    requires Shape(g, a) && i < |a.inos| && ZnOf(g, pos) < Limit(g) && |base| == g.bs && Rest(pos, g.bs) == 0
    ensures GoodBase(g, a, i, pos, g.bs, base, e)
  {
  }
}
