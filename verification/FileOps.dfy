/** Reading and writing byte ranges of a regular file: rw_chunk and the loop of read_write. */
module FileOps {
  import opened Storage
  import opened Indirect
  import opened BlockMap
  import opened BitAlloc
  import opened Zones
  import opened FileContent
  import opened Files
  import opened FileEnds

  // ---------- Other files ----------

  /** What one file shows to its readers does not change when only others are written. */
  ghost predicate OthersUntouched(g: Geo, a: Fs, b: Fs, i: nat)
    requires Shape(g, a)
  {
    && |b.inos| == |a.inos|
    && forall j: nat | j < |a.inos| && j != i :: Untouched(g, a, b, j) && b.inos[j].size == a.inos[j].size
  }

  lemma OthersElsewhere(g: Geo, a: Fs, b: Fs, i: nat, p: Pos)
    requires Shape(g, a) && Elsewhere(g, a, b, i, p)
    ensures OthersUntouched(g, a, b, i)
  {
  }

  lemma UntouchedThen(g: Geo, a: Fs, b: Fs, c: Fs, j: nat)
    requires Shape(g, a) && j < |a.inos| && Untouched(g, a, b, j) && Untouched(g, b, c, j)
    ensures Untouched(g, a, c, j)
  {
    forall p, off: nat | ValidOwner(g, a, j, Data(p)) && off < g.spz
      ensures DataBlock(g, c, j, p, off) == DataBlock(g, a, j, p, off)
    {
      assert ValidOwner(g, b, j, Data(p));
    }
    forall p | ValidOwner(g, a, j, Data(p)) ensures Own(g, c, j, Data(p)) == Own(g, a, j, Data(p)) {
      assert ValidOwner(g, b, j, Data(p));
    }
  }

  lemma OthersThen(g: Geo, a: Fs, b: Fs, c: Fs, i: nat)
    requires Shape(g, a) && Shape(g, b) && OthersUntouched(g, a, b, i) && OthersUntouched(g, b, c, i)
    ensures OthersUntouched(g, a, c, i)
  {
    hide Untouched;
    forall j: nat | j < |a.inos| && j != i ensures Untouched(g, a, c, j) && c.inos[j].size == a.inos[j].size {
      UntouchedThen(g, a, b, c, j);
    }
  }

  lemma OthersRefl(g: Geo, a: Fs, i: nat)
    requires Shape(g, a)
    ensures OthersUntouched(g, a, a, i)
  {
  }

  // ---------- Where the bytes of a file lie ----------

  /** Byte q of file i is v: it is byte q % bs of block (q / bs) % spz of the zone that the position leads
      to, and zero if that is none. */
  ghost predicate ByteLies(g: Geo, fs: Fs, i: nat, q: nat, v: byte)
    requires Shape(g, fs) && i < |fs.inos|
  {
    exists z: nat :: LeadsAt(g, fs.store, fs.inos[i].zone, q, z) && ByteIn(g, fs.store, z, q, v)
  }

  /** This byte of zone z is v; a block never written is zero. */
  ghost predicate ByteIn(g: Geo, st: Store, z: nat, q: nat, v: byte)
    requires GeoOk(g)
  {
    var b, at := z * g.spz + Rest(Quot(q, g.bs), g.spz), Rest(q, g.bs);
    v == if z != 0 && b in st && |st[b]| == g.bs then st[b][at] else 0
  }

  /** The bytes that a file is said to have are those that lie in its blocks. */
  lemma ByteIs(g: Geo, fs: Fs, i: nat, q: nat)
    requires Shape(g, fs) && i < |fs.inos| && ZnOf(g, q) < Limit(g)
    ensures forall v :: ByteLies(g, fs, i, q, v) <==> v == ByteAt(g, fs, i, q)
  {
    hide Quot, Rest, Limit, LeadsAt;
    MapLeads(g, fs.store, fs.inos[i].zone, q);
    assert LeadsAt(g, fs.store, fs.inos[i].zone, q, ZoneOf(g, fs.store, fs.inos[i].zone, ZnOf(g, q)));
  }

  /** A stretch of what a file shows lies in its blocks. */
  lemma BytesAre(g: Geo, fs: Fs, i: nat, pos: nat, bytes: seq<byte>)
    requires Shape(g, fs) && i < |fs.inos| && InLimit(g, fs.inos[i].size)
    requires bytes != [] ==> pos + |bytes| <= fs.inos[i].size && bytes == Content(g, fs, i, fs.inos[i].size)[pos..pos + |bytes|]
    ensures forall k :: 0 <= k < |bytes| ==> ByteLies(g, fs, i, pos + k, bytes[k])
  {
    hide Content, ByteLies, ByteAt, Quot, Rest, Limit;
    ContentSays(g, fs, i, fs.inos[i].size);
    forall k | 0 <= k < |bytes| ensures ByteLies(g, fs, i, pos + k, bytes[k]) { ByteIs(g, fs, i, pos + k); }
  }

  // ---------- The size field ----------

  function SetSize(fs: Fs, i: nat, n: nat): Fs
    requires i < |fs.inos|
  {
    fs.(inos := fs.inos[i := fs.inos[i].(size := n)])
  }

  lemma SizeChange(g: Geo, a: Fs, held: set<nat>, i: nat, n: nat)
    requires Tidy(g, a, held) && i < |a.inos|
    ensures var b := SetSize(a, i, n);
      Tidy(g, b, held) && Untouched(g, a, b, i) && OthersUntouched(g, a, b, i)
  {
    var b := SetSize(a, i, n);
    assert Shape(g, b);
    forall j, s | ValidOwner(g, a, j, s) ensures Own(g, b, j, s) == Own(g, a, j, s) {}
    assert SameSlots(g, a, b);
    TidySame(g, a, b, held);
  }

  // ---------- The end of the file ----------

  /** A file in order: the rest of its last block is zero, no later zone is mapped, and the zone of the
      end is, unless the file ends in the first block of a zone. */
  ghost predicate FileOk(g: Geo, fs: Fs, i: nat) {
    Shape(g, fs) && i < |fs.inos| && FileState(g, fs, i, fs.inos[i].size) && EndMapped(g, fs, i, fs.inos[i].size)
  }

  /** Zones once mapped stay mapped. */
  lemma EndStaysMapped(g: Geo, a: Fs, b: Fs, i: nat, p: Pos, off: nat, clean: bool, e: nat)
    requires Shape(g, a) && ValidOwner(g, a, i, Data(p)) && off < g.spz && Mapped(g, a, b, i, p, off, clean)
    requires EndMapped(g, a, i, e)
    ensures Shape(g, b) && i < |b.inos| && EndMapped(g, b, i, e)
  {
    hide Quot, Rest, Limit;
    if OffOf(g, e) != 0 && ZnOf(g, e) < Limit(g) {
      var q := PosOf(g, ZnOf(g, e));
      assert ValidOwner(g, a, i, Data(q));
      assert Own(g, a, i, Data(q)) != 0;
      if q != p { assert Own(g, b, i, Data(q)) == Own(g, a, i, Data(q)); }
    }
  }

  /** A file that now ends with a chunk just written ends in a mapped zone. */
  lemma EndAfterChunk(g: Geo, a: Fs, b: Fs, i: nat, pos: nat, len: nat, off: nat, clean: bool)
    requires Shape(g, a) && i < |a.inos| && ZnOf(g, pos) < Limit(g) && off < g.spz
    requires Mapped(g, a, b, i, PosOf(g, ZnOf(g, pos)), off, clean)
    requires len > 0 && Rest(pos, g.bs) + len <= g.bs
    ensures Shape(g, b) && i < |b.inos| && EndMapped(g, b, i, pos + len)
  {
    hide Limit, Quot, Rest;
    SameGroup(pos, len - 1, g.bs);
    if OffOf(g, pos + len) != 0 { BackInZone(g, pos + len); }
  }

  /** A chunk within one block stays in its zone. */
  lemma ChunkInLimit(g: Geo, pos: nat, len: nat)
    requires g.bs > 0 && g.spz > 0 && len > 0 && InLimit(g, pos + len)
    ensures ZnOf(g, pos) < Limit(g)
  {
    InLimitBelow(g, pos + len, pos);
  }

  // ---------- rw_chunk, writing ----------

  /** A chunk has been written: the file is longer or as long, and says what it should. */
  ghost predicate ChunkDone(g: Geo, a: Fs, b: Fs, i: nat, pos: nat, data: seq<byte>, e: nat) {
    && FileState(g, a, i, e) && FileState(g, b, i, Max(e, pos + |data|))
    && Content(g, b, i, Max(e, pos + |data|)) == Written(Content(g, a, i, e), pos, data)
    && EndMapped(g, b, i, pos + |data|)
    && forall n: nat | EndMapped(g, a, i, n) :: EndMapped(g, b, i, n)
  }

  lemma MakesChunk(g: Geo, a: Fs, b: Fs, i: nat, pos: nat, data: seq<byte>, base: Block, e: nat, clean: bool)
    requires FileState(g, a, i, e) && Shape(g, b) && |b.inos| == |a.inos| && ZnOf(g, pos) < Limit(g)
    requires data != [] && Rest(pos, g.bs) + |data| <= g.bs && pos <= e && InLimit(g, pos + |data|)
    requires Mapped(g, a, b, i, PosOf(g, ZnOf(g, pos)), OffOf(g, pos), clean)
    requires |base| == g.bs && GoodBase(g, a, i, pos, |data|, base, e)
    requires DataBlock(g, b, i, PosOf(g, ZnOf(g, pos)), OffOf(g, pos)) == Spliced(base, Rest(pos, g.bs), data)
    requires !clean ==> pos == e && EndMapped(g, a, i, e)
    ensures ChunkMade(g, a, b, i, pos, data, base, e, clean)
  {
    hide Quot, Rest, Limit, Mapped, GoodBase, ZeroTail, NothingBeyond, EndMapped, DataBlock;
  }

  lemma ChunkFollows(g: Geo, a: Fs, b: Fs, i: nat, pos: nat, data: seq<byte>, base: Block, e: nat, clean: bool)
    requires ChunkMade(g, a, b, i, pos, data, base, e, clean)
    ensures ChunkDone(g, a, b, i, pos, data, e) && Elsewhere(g, a, b, i, PosOf(g, ZnOf(g, pos)))
  {
    hide Elsewhere, Quot, Rest, Limit, Mapped, GoodBase, EndMapped, Content, Written, FileBlock, FileState;
    var p := PosOf(g, ZnOf(g, pos));
    ChunkDoneContent(g, a, b, i, pos, data, base, e, clean);
    StateSays(g, a, i, e);
    EndAfterChunk(g, a, b, i, pos, |data|, OffOf(g, pos), clean);
    forall n: nat | EndMapped(g, a, i, n) ensures EndMapped(g, b, i, n) {
      EndStaysMapped(g, a, b, i, p, OffOf(g, pos), clean, n);
    }
    MappedSlots(g, a, b, i, p, OffOf(g, pos), clean);
  }

  lemma ChunkWritten(g: Geo, a: Fs, c: Fs, i: nat, pos: nat, data: seq<byte>, base: Block, e: nat, clean: bool)
    requires Tidy(g, c, {}) && data != [] && Rest(pos, g.bs) + |data| <= g.bs && pos <= e && InLimit(g, pos + |data|)
    requires Ready(g, a, c, i, pos, |data|, base, e, clean) && (!clean ==> pos == e && EndMapped(g, a, i, e))
    ensures ValidOwner(g, c, i, Data(PosOf(g, ZnOf(g, pos))))
    ensures var z := Own(g, c, i, Data(PosOf(g, ZnOf(g, pos))));
      var d := c.(store := c.store[BlockNo(g, z, OffOf(g, pos)) := Spliced(base, Rest(pos, g.bs), data)]);
      Tidy(g, d, {}) && ChunkDone(g, a, d, i, pos, data, e) && Elsewhere(g, a, d, i, PosOf(g, ZnOf(g, pos)))
  {
    hide Tidy, Elsewhere, DataFrame, SameSlots, BlockNo, Quot, Rest, Limit, Mapped, GoodBase, ZeroTail,
         NothingBeyond, EndMapped, DataBlock, ChunkMade, ChunkDone;
    TidyShape(g, c, {});
    var p := PosOf(g, ZnOf(g, pos));
    var bytes := Spliced(base, Rest(pos, g.bs), data);
    var d := c.(store := c.store[BlockNo(g, Own(g, c, i, Data(p)), OffOf(g, pos)) := bytes]);
    MappedWrite(g, a, c, {}, i, p, OffOf(g, pos), clean, bytes);
    MakesChunk(g, a, d, i, pos, data, base, e, clean);
    ChunkFollows(g, a, d, i, pos, data, base, e, clean);
  }

  lemma ReadySays(g: Geo, a: Fs, b: Fs, i: nat, pos: nat, len: nat, base: Block, e: nat, clean: bool)
    requires Ready(g, a, b, i, pos, len, base, e, clean)
    ensures |base| == g.bs
  {
  }

  /** Before the bytes of a chunk, right at the end of a file of which that zone is not mapped: the file
      has the zone, and shows what the zone held. */
  ghost predicate Opened(g: Geo, a: Fs, b: Fs, i: nat, z: nat) {
    && Shape(g, a) && i < |a.inos| && OthersUntouched(g, a, b, i)
    && FileState(g, a, i, a.inos[i].size) && FileState(g, b, i, a.inos[i].size) && b.inos[i].size == a.inos[i].size
    && Content(g, b, i, a.inos[i].size) == Exposed(g, a, i, z, a.inos[i].size)
    && forall e: nat | EndMapped(g, a, i, e) :: EndMapped(g, b, i, e)
  }

  lemma OpensOpened(g: Geo, a: Fs, b: Fs, i: nat, e: nat, z: nat)
    requires Opens(g, a, b, i, e) && Shape(g, b) && z == Own(g, b, i, Data(PosOf(g, ZnOf(g, e))))
    ensures Opened(g, a, b, i, z)
  {
    hide Quot, Rest, Limit, EndMapped, Content, Exposed;
    var p := PosOf(g, ZnOf(g, e));
    OpensState(g, a, b, i, e);
    OpensContent(g, a, b, i, e, z);
    MappedSlots(g, a, b, i, p, OffOf(g, e), false);
    OthersElsewhere(g, a, b, i, p);
    ElsewhereSize(g, a, b, i, p, i);
    forall n: nat | EndMapped(g, a, i, n) ensures EndMapped(g, b, i, n) {
      EndStaysMapped(g, a, b, i, p, OffOf(g, e), false, n);
    }
  }

  lemma MakesOpens(g: Geo, a: Fs, b: Fs, i: nat, pos: nat, len: nat, base: Block, e: nat)
    requires Ready(g, a, b, i, pos, len, base, e, false) && pos == e == a.inos[i].size && !EndMapped(g, a, i, e)
    requires Shape(g, b) && Unmapped(g, a, i, pos) ==> DataBlock(g, b, i, PosOf(g, ZnOf(g, pos)), OffOf(g, pos)) == Zeros(g.bs)
    ensures Opens(g, a, b, i, e) && Unmapped(g, a, i, pos)
  {
    hide Quot, Rest, Limit, EndMapped;
    OpenEnd(g, a, i, e);
  }

  /** rw_chunk: write `data` into the block of `position`. `e` is where the contents end so far.  The
      file `mid` the bytes go into is the one there was, but for a zone put in at an unmapped end. */
  method WriteChunk(fs: FileSys, ip: nat, position: nat, data: seq<byte>, ghost e: nat) returns (r: Code, ghost mid: Fs)
    requires fs.Valid({}) && FileState(fs.g, fs.Model(), ip, e) && position <= e
    requires data != [] && Rest(position, fs.g.bs) + |data| <= fs.g.bs && InLimit(fs.g, position + |data|)
    requires fs.inos[ip].size <= e && (position >= fs.inos[ip].size ==> position == e)
    modifies fs
    ensures fs.Valid({}) && |fs.inos| == |old(fs.inos)| && (r == OK || r == ENOSPC)
    ensures Shape(fs.g, old(fs.Model())) && fs.inos[ip].size == old(fs.inos)[ip].size
    ensures OthersUntouched(fs.g, old(fs.Model()), fs.Model(), ip)
    ensures r == OK ==> ChunkDone(fs.g, mid, fs.Model(), ip, position, data, e)
    ensures r == OK ==> Shape(fs.g, mid) && ip < |mid.inos| && OthersUntouched(fs.g, mid, fs.Model(), ip) && mid.inos[ip].size == fs.inos[ip].size
    ensures r == OK ==> if position == old(fs.inos)[ip].size && !EndMapped(fs.g, old(fs.Model()), ip, e)
      then Opened(fs.g, old(fs.Model()), mid, ip, Picked(fs.g, old(fs.Model()), fs.chunk, ip)) else mid == old(fs.Model())
    ensures r == ENOSPC ==> Untouched(fs.g, old(fs.Model()), fs.Model(), ip)
    ensures ZnOf(fs.g, position) < Limit(fs.g)
    ensures r == ENOSPC ==> Unmapped(fs.g, fs.Model(), ip, position)
    ensures r == ENOSPC ==> Full(old(fs.bits)) || ZnOf(fs.g, position) >= fs.g.ndz
    ensures Full(old(fs.bits)) && Unmapped(fs.g, old(fs.Model()), ip, position) ==> r == ENOSPC
  {
    hide Tidy, Elsewhere, Zeros, DataFrame, SameSlots, BlockNo, Quot, Rest, Limit, Mapped, GoodBase, ZeroTail,
         NothingBeyond, Untouched, OthersUntouched, EndMapped, Content, Written, DataBlock, FileState, Ready, ChunkDone,
         Opened, Opens, Exposed;
    var g := fs.g;
    ghost var a := fs.Model();
    TidyShape(g, a, {});
    StateSays(g, a, ip, e);
    ChunkInLimit(g, position, |data|);
    ghost var p := PosOf(g, ZnOf(g, position));
    ghost var clean := position != fs.inos[ip].size;
    mid := a;
    var b, bp;
    r, b, bp := ChunkBuffer(fs, ip, position, |data|, e);
    if r == OK {
      ghost var c := fs.Model();
      TidyShape(g, c, {});
      ReadySays(g, a, c, ip, position, |data|, bp, e, clean);
      if !clean && !EndMapped(g, a, ip, e) {
        MakesOpens(g, a, c, ip, position, |data|, bp, e);
        OpensOpened(g, a, c, ip, e, Picked(g, a, fs.chunk, ip));
        OpensReady(g, a, c, ip, e, |data|, bp);
        mid := c;
      }
      ChunkWritten(g, mid, c, ip, position, data, bp, e, clean);
      fs.Dirty(b, Spliced(bp, Rest(position, g.bs), data));
      ElsewhereSize(g, mid, fs.Model(), ip, p, ip);
      OthersElsewhere(g, mid, fs.Model(), ip, p);
      if mid != a { ElsewhereThen(g, a, c, fs.Model(), ip, p); }
    }
    ElsewhereSize(g, a, fs.Model(), ip, p, ip);
    OthersElsewhere(g, a, fs.Model(), ip, p);
  }

  lemma StateSays(g: Geo, a: Fs, i: nat, e: nat)
    requires FileState(g, a, i, e)
    ensures Shape(g, a) && i < |a.inos| && InLimit(g, e)
  {
  }

  // ---------- Making a hole ----------

  /** What clear_zone does before a write beyond the end `e` of a file. */
  ghost predicate Cleared(g: Geo, a: Fs, b: Fs, i: nat, e: nat)
    requires Shape(g, a) && i < |a.inos| && ZnOf(g, e) < Limit(g)
  {
    if ZoneOf(g, a.store, a.inos[i].zone, ZnOf(g, e)) == 0 then b == a
    else ClearedFrom(g, a, b, i, PosOf(g, ZnOf(g, e)), ClearLo(g, e, false), g.spz)
  }

  /** A file that ends at the start of a zone has nothing in that zone. */
  lemma StartUnmapped(g: Geo, a: Fs, i: nat, e: nat)
    requires Shape(g, a) && i < |a.inos| && NothingBeyond(g, a, i, e) && ZnOf(g, e) < Limit(g)
    requires Rest(e, g.bs) == 0 && OffOf(g, e) == 0
    ensures ZoneOf(g, a.store, a.inos[i].zone, ZnOf(g, e)) == 0
  {
    hide Quot, Rest, Limit, SlotZone;
    if e > 0 {
      QuotMono(e - 1, e, g.bs);
      QuotMono(BlkOf(g, e - 1), BlkOf(g, e), g.spz);
      if ZnOf(g, e - 1) == ZnOf(g, e) {
        GroupDistance(BlkOf(g, e - 1), BlkOf(g, e), g.spz);
        GroupDistance(e - 1, e, g.bs);
      }
    }
  }

  /** The first block that begins at or after byte `e`. */
  lemma FirstCleared(g: Geo, e: nat)
    requires g.bs > 0
    ensures ClearStart(g, e) == if Rest(e, g.bs) == 0 then BlkOf(g, e) else BlkOf(g, e) + 1
  {
    hide Quot, Rest;
    if Rest(e, g.bs) == 0 {
      SameGroup(e, g.bs - 1, g.bs);
    } else {
      NextGroup(e, g.bs);
      SameGroup(e + (g.bs - Rest(e, g.bs)), Rest(e, g.bs) - 1, g.bs);
    }
  }

  /** Before or behind the end of file, block by block. */
  lemma BeforeOrBehind(g: Geo, e: nat, q: nat)
    requires g.bs > 0
    ensures q < e ==> BlkOf(g, q) < ClearStart(g, e)
    ensures q >= e && BlkOf(g, q) < ClearStart(g, e) ==> BlkOf(g, q) == BlkOf(g, e) && Rest(q, g.bs) >= Rest(e, g.bs) != 0
  {
    hide Quot, Rest, ClearStart;
    FirstCleared(g, e);
    if q < e { QuotMono(q, e, g.bs); } else { QuotMono(e, q, g.bs); }
    if BlkOf(g, q) == BlkOf(g, e) { GroupDistance(e, q, g.bs); }
  }

  /** After clear_zone everything behind the end of file is zero, and nothing before it has changed. */
  lemma AfterClear(g: Geo, a: Fs, b: Fs, i: nat, e: nat, q: nat)
    requires FileState(g, a, i, e) && ZnOf(g, e) < Limit(g) && ZnOf(g, q) < Limit(g) && Shape(g, b) && |b.inos| == |a.inos|
    requires Cleared(g, a, b, i, e)
    ensures ByteAt(g, b, i, q) == if q < e then ByteAt(g, a, i, q) else 0
  {
    hide Quot, Rest, Limit, ClearStart, SlotZone, ClearedFrom;
    BeforeOrBehind(g, e, q);
    if ZnOf(g, q) != ZnOf(g, e) {
      OtherZoneClear(g, a, b, i, e, q);
    } else if Own(g, a, i, Data(PosOf(g, ZnOf(g, e)))) != 0 {
      SameZoneClear(g, a, b, i, e, q);
    }
  }

  lemma OtherZoneClear(g: Geo, a: Fs, b: Fs, i: nat, e: nat, q: nat)
    requires FileState(g, a, i, e) && ZnOf(g, e) < Limit(g) && ZnOf(g, q) < Limit(g) && Shape(g, b) && |b.inos| == |a.inos|
    requires Cleared(g, a, b, i, e) && ZnOf(g, q) != ZnOf(g, e)
    ensures ByteAt(g, b, i, q) == if q < e then ByteAt(g, a, i, q) else 0
  {
    hide Quot, Rest, Limit, ClearStart, SlotZone;
    if PosOf(g, ZnOf(g, q)) == PosOf(g, ZnOf(g, e)) { PosUnique(g, ZnOf(g, q), ZnOf(g, e)); }
    assert ValidOwner(g, a, i, Data(PosOf(g, ZnOf(g, q))));
    assert FileBlock(g, b, i, BlkOf(g, q)) == FileBlock(g, a, i, BlkOf(g, q));
    if q >= e {
      QuotMono(e, q, g.bs);
      QuotMono(BlkOf(g, e), BlkOf(g, q), g.spz);
      if e > 0 {
        QuotMono(e - 1, e, g.bs);
        QuotMono(BlkOf(g, e - 1), BlkOf(g, e), g.spz);
      }
      assert ZoneOf(g, a.store, a.inos[i].zone, ZnOf(g, q)) == 0;
    }
  }

  lemma SameZoneClear(g: Geo, a: Fs, b: Fs, i: nat, e: nat, q: nat)
    requires FileState(g, a, i, e) && ZnOf(g, e) < Limit(g) && ZnOf(g, q) == ZnOf(g, e) && Shape(g, b) && |b.inos| == |a.inos|
    requires Cleared(g, a, b, i, e) && Own(g, a, i, Data(PosOf(g, ZnOf(g, e)))) != 0
    ensures ByteAt(g, b, i, q) == if q < e then ByteAt(g, a, i, q) else 0
  {
    hide Quot, Rest, Limit, ClearStart, SlotZone, NothingBeyond;
    var first := ClearStart(g, e);
    BeforeOrBehind(g, e, q);
    if g.spz == 1 {
      GroupDistance(BlkOf(g, q), BlkOf(g, e), 1);
      if Rest(e, g.bs) == 0 { StartUnmapped(g, a, i, e); }
      if q >= e { GroupDistance(e, q, g.bs); }
      assert FileBlock(g, b, i, BlkOf(g, q)) == FileBlock(g, a, i, BlkOf(g, q));
    } else {
      FirstCleared(g, e);
      QuotMono(BlkOf(g, e), first, g.spz);
      if BlkOf(g, q) >= first { QuotMono(first, BlkOf(g, q), g.spz); }
      if Quot(first, g.spz) == ZnOf(g, e) { GroupDistance(first, BlkOf(g, q), g.spz); }
      if BlkOf(g, q) >= first {
        assert FileBlock(g, b, i, BlkOf(g, q)) == Zeros(g.bs);
      } else {
        assert FileBlock(g, b, i, BlkOf(g, q)) == FileBlock(g, a, i, BlkOf(g, q));
      }
    }
  }

  /** A write beyond the end first makes the file longer, with zeros. */
  lemma Extended(g: Geo, a: Fs, b: Fs, i: nat, e: nat, n: nat)
    requires FileState(g, a, i, e) && e < n && InLimit(g, n) && ZnOf(g, e) < Limit(g)
    requires Cleared(g, a, b, i, e)
    ensures FileState(g, b, i, n) && Content(g, b, i, n) == Written(Content(g, a, i, e), n, [])
  {
    hide Quot, Rest, Limit, ClearStart, Cleared, FileBlock, Content, Written;
    ClearedShape(g, a, b, i, e);
    assert ZeroTail(g, b, i, n) by {
      if Rest(n, g.bs) != 0 {
        BackOne(g, n);
        QuotRest(n, g.bs);
        forall r | Rest(n, g.bs) <= r < g.bs ensures FileBlock(g, b, i, BlkOf(g, n))[r] == 0 {
          var q := n - Rest(n, g.bs) + r;
          QuotIs(q, Quot(n, g.bs), r, g.bs);
          AfterClear(g, a, b, i, e, q);
        }
      }
    }
    QuotMono(e, n - 1, g.bs);
    QuotMono(BlkOf(g, e), BlkOf(g, n - 1), g.spz);
    ExtendedBeyond(g, a, b, i, e, n);
    var was, now := Content(g, a, i, e), Content(g, b, i, n);
    ContentSays(g, a, i, e);
    ContentSays(g, b, i, n);
    forall q | 0 <= q < n ensures now[q] == WrittenAt(was, n, [], q) {
      InLimitBelow(g, n, q);
      AfterClear(g, a, b, i, e, q);
    }
    assert |Written(was, n, [])| == n;
  }

  lemma ClearedShape(g: Geo, a: Fs, b: Fs, i: nat, e: nat)
    requires Shape(g, a) && i < |a.inos| && ZnOf(g, e) < Limit(g) && Cleared(g, a, b, i, e)
    ensures Shape(g, b) && |b.inos| == |a.inos| && b.inos == a.inos && SameSlots(g, a, b) && OthersUntouched(g, a, b, i)
  {
  }

  lemma ExtendedBeyond(g: Geo, a: Fs, b: Fs, i: nat, e: nat, n: nat)
    requires Shape(g, a) && i < |a.inos| && NothingBeyond(g, a, i, e) && SameSlots(g, a, b) && e < n
    ensures NothingBeyond(g, b, i, n)
  {
    hide Quot, Rest, Limit;
    if e > 0 {
      QuotMono(e - 1, n - 1, g.bs);
      QuotMono(BlkOf(g, e - 1), BlkOf(g, n - 1), g.spz);
    }
    forall zn | 0 <= zn < Limit(g) && zn > ZnOf(g, n - 1) ensures ZoneOf(g, b.store, b.inos[i].zone, zn) == 0 {
      assert ZoneOf(g, a.store, a.inos[i].zone, zn) == 0;
      assert ValidOwner(g, a, i, Data(PosOf(g, zn)));
      assert Own(g, b, i, Data(PosOf(g, zn))) == Own(g, a, i, Data(PosOf(g, zn)));
    }
  }

  // ---------- The loop of read_write, writing ----------

  /** `n` bytes of `data` have been written at `start` of a file that was taken to hold `was`. */
  ghost predicate WriteSoFar(g: Geo, a: Fs, b: Fs, i: nat, was: seq<byte>, start: nat, data: seq<byte>, n: nat) {
    && Shape(g, a) && i < |a.inos| && FileState(g, a, i, a.inos[i].size) && n <= |data|
    && var e := Max(a.inos[i].size, start + n);
    && FileState(g, b, i, e) && OthersUntouched(g, a, b, i) && b.inos[i].size == a.inos[i].size
    && Content(g, b, i, e) == Written(was, start, data[..n])
    && EndsSoFar(g, a, b, i, start, n)
  }

  /** Which ends of file would be in order after `n` bytes. */
  ghost predicate EndsSoFar(g: Geo, a: Fs, b: Fs, i: nat, start: nat, n: nat)
    requires Shape(g, a) && Shape(g, b) && i < |a.inos| && i < |b.inos|
  {
    && (n > 0 ==> EndMapped(g, b, i, start + n))
    && (forall e: nat | EndMapped(g, a, i, e) :: EndMapped(g, b, i, e))
    && (n == 0 ==> forall e: nat | EndMapped(g, b, i, e) :: EndMapped(g, a, i, e))
  }

  lemma WriteStarts(g: Geo, a: Fs, i: nat, start: nat, data: seq<byte>)
    requires Shape(g, a) && i < |a.inos| && FileState(g, a, i, a.inos[i].size) && start <= a.inos[i].size
    ensures WriteSoFar(g, a, a, i, Content(g, a, i, a.inos[i].size), start, data, 0)
  {
    hide Content, FileState, EndMapped;
    StateSays(g, a, i, a.inos[i].size);
    OthersRefl(g, a, i);
    assert data[..0] == [];
    var was := Content(g, a, i, a.inos[i].size);
    assert Written(was, start, []) == was;
  }

  lemma WriteStartsBeyond(g: Geo, a: Fs, b: Fs, i: nat, start: nat, data: seq<byte>)
    requires Shape(g, a) && i < |a.inos| && FileState(g, a, i, a.inos[i].size) && start > a.inos[i].size && InLimit(g, start) && ZnOf(g, a.inos[i].size) < Limit(g)
    requires Cleared(g, a, b, i, a.inos[i].size)
    ensures WriteSoFar(g, a, b, i, Content(g, a, i, a.inos[i].size), start, data, 0)
  {
    hide Content, FileState, EndMapped, Written, Limit, Cleared, InLimit, OthersUntouched;
    Extended(g, a, b, i, a.inos[i].size, start);
    ClearedShape(g, a, b, i, a.inos[i].size);
    forall e: nat ensures EndMapped(g, a, i, e) <==> EndMapped(g, b, i, e) { SameSlotsEnd(g, a, b, i, e); }
    assert data[..0] == [];
  }

  lemma WriteStep(g: Geo, a: Fs, b: Fs, c: Fs, i: nat, was: seq<byte>, start: nat, data: seq<byte>, n: nat, m: nat)
    requires WriteSoFar(g, a, b, i, was, start, data, n) && n < m <= |data|
    requires ChunkDone(g, b, c, i, start + n, data[n..m], Max(a.inos[i].size, start + n))
    requires OthersUntouched(g, b, c, i) && c.inos[i].size == b.inos[i].size
    ensures WriteSoFar(g, a, c, i, was, start, data, m)
  {
    hide Content, EndMapped, Written, OthersUntouched, ZeroTail, NothingBeyond;
    OthersThen(g, a, b, c, i);
    WrittenTwice(was, start, data[..n], data[n..m]);
    assert data[..n] + data[n..m] == data[..m];
  }

  /** The first step when the zone of the end had to be put in. */
  lemma OpenStep(g: Geo, a: Fs, mid: Fs, c: Fs, i: nat, z: nat, start: nat, data: seq<byte>, m: nat)
    requires Opened(g, a, mid, i, z) && start == a.inos[i].size && 0 < m <= |data|
    requires ChunkDone(g, mid, c, i, start, data[..m], start) && OthersUntouched(g, mid, c, i) && c.inos[i].size == mid.inos[i].size
    ensures WriteSoFar(g, a, c, i, Exposed(g, a, i, z, start), start, data, m)
  {
    hide Content, EndMapped, Written, OthersUntouched, ZeroTail, NothingBeyond, Exposed;
    OthersThen(g, a, mid, c, i);
  }

  lemma WriteStops(g: Geo, a: Fs, b: Fs, c: Fs, i: nat, was: seq<byte>, start: nat, data: seq<byte>, n: nat)
    requires WriteSoFar(g, a, b, i, was, start, data, n) && Untouched(g, b, c, i)
    requires OthersUntouched(g, b, c, i) && c.inos[i].size == b.inos[i].size
    ensures WriteSoFar(g, a, c, i, was, start, data, n)
  {
    hide Content, Written, OthersUntouched, ZeroTail, NothingBeyond;
    OthersThen(g, a, b, c, i);
    UntouchedState(g, b, c, i, Max(a.inos[i].size, start + n));
    forall e: nat ensures EndMapped(g, b, i, e) <==> EndMapped(g, c, i, e) { UntouchedEnd(g, b, c, i, e); }
  }

  lemma SameSlotsEnd(g: Geo, a: Fs, b: Fs, i: nat, e: nat)
    requires Shape(g, a) && Shape(g, b) && i < |a.inos| == |b.inos| && SameSlots(g, a, b)
    ensures EndMapped(g, a, i, e) <==> EndMapped(g, b, i, e)
  {
    hide Quot, Rest, Limit;
    if OffOf(g, e) != 0 && ZnOf(g, e) < Limit(g) {
      assert ValidOwner(g, a, i, Data(PosOf(g, ZnOf(g, e))));
      assert Own(g, b, i, Data(PosOf(g, ZnOf(g, e)))) == Own(g, a, i, Data(PosOf(g, ZnOf(g, e))));
    }
  }

  lemma UntouchedEnd(g: Geo, a: Fs, b: Fs, i: nat, e: nat)
    requires Shape(g, a) && i < |a.inos| && Untouched(g, a, b, i)
    ensures i < |b.inos| && Shape(g, b) && (EndMapped(g, a, i, e) <==> EndMapped(g, b, i, e))
  {
    hide Quot, Rest, Limit;
    if OffOf(g, e) != 0 && ZnOf(g, e) < Limit(g) {
      assert ValidOwner(g, a, i, Data(PosOf(g, ZnOf(g, e))));
      assert Own(g, b, i, Data(PosOf(g, ZnOf(g, e)))) == Own(g, a, i, Data(PosOf(g, ZnOf(g, e))));
    }
  }

  /** What a file is taken to hold when bytes are written at `start`: what it shows, unless they go
      right at an end of which the zone is not mapped. */
  ghost function TakenFor(g: Geo, fs: Fs, chunk: nat, i: nat, start: nat, written: seq<byte>): (s: seq<byte>)
    requires chunk > 0 && Shape(g, fs) && i < |fs.inos| && InLimit(g, fs.inos[i].size)
    ensures |s| == fs.inos[i].size
  {
    var size := fs.inos[i].size;
    if written != [] && start == size && !EndMapped(g, fs, i, size) then Exposed(g, fs, i, Picked(g, fs, chunk, i), size)
    else Content(g, fs, i, size)
  }

  /** A write is not right at an end of which the zone is not mapped, or the zone that alloc_zone picks
      then holds zeros below the block of the end. */
  ghost predicate EndsClean(g: Geo, fs: Fs, chunk: nat, i: nat, start: nat)
    requires chunk > 0 && Shape(g, fs) && i < |fs.inos|
  {
    start == fs.inos[i].size && !EndMapped(g, fs, i, start) ==> BlankBelow(g, fs.store, Picked(g, fs, chunk, i), OffOf(g, start))
  }

  /** What a write call leaves behind, after i_size has been set.  The file is in order if bytes up to
      its end were written.  If none were, for want of space, it is longer all the same when the write
      was to start beyond the end, and then in order exactly if it was to start in the first block of
      a zone. */
  ghost predicate WriteResult(g: Geo, a: Fs, b: Fs, chunk: nat, i: nat, start: nat, written: seq<byte>) {
    && chunk > 0 && Shape(g, a) && i < |a.inos| && FileState(g, a, i, a.inos[i].size) && OthersUntouched(g, a, b, i)
    && FileState(g, b, i, b.inos[i].size)
    && Content(g, b, i, b.inos[i].size) == Written(TakenFor(g, a, chunk, i, start, written), start, written)
    && (FileOk(g, a, i) && (written != [] || start <= a.inos[i].size) ==> FileOk(g, b, i))
    && (written != [] && start + |written| >= a.inos[i].size ==> FileOk(g, b, i))
    && (written == [] && start <= a.inos[i].size ==> (FileOk(g, b, i) <==> FileOk(g, a, i)))
    && (written == [] && start > a.inos[i].size ==> (FileOk(g, b, i) <==> OffOf(g, start) == 0))
  }

  /** The file is the old one with the bytes laid over it if and only if the write ends clean. */
  lemma ResultRight(g: Geo, a: Fs, b: Fs, chunk: nat, i: nat, start: nat, written: seq<byte>)
    requires WriteResult(g, a, b, chunk, i, start, written) && written != []
    ensures Shape(g, b) && i < |b.inos| && InLimit(g, b.inos[i].size) && InLimit(g, a.inos[i].size)
    ensures Content(g, b, i, b.inos[i].size) == Written(Content(g, a, i, a.inos[i].size), start, written) <==> EndsClean(g, a, chunk, i, start)
  {
    hide Content, Exposed, EndMapped, ZeroTail, NothingBeyond, OthersUntouched, BlankBelow, Picked, Written;
    var size := a.inos[i].size;
    if start == size && !EndMapped(g, a, i, size) {
      var z := Picked(g, a, chunk, i);
      ExposedRight(g, a, i, z);
      ContentSays(g, a, i, size);
      ExposedSays(g, a, i, z, size);
      WrittenAtEnd(Content(g, a, i, size), Exposed(g, a, i, z, size), written);
    }
  }

  /** Whether or not it ends clean, no byte before the zone of the end and before the write changes. */
  lemma ResultBefore(g: Geo, a: Fs, b: Fs, chunk: nat, i: nat, start: nat, written: seq<byte>, q: nat)
    requires WriteResult(g, a, b, chunk, i, start, written) && q < a.inos[i].size && q < start
    requires ZnOf(g, q) != ZnOf(g, a.inos[i].size)
    ensures Shape(g, b) && i < |b.inos| && InLimit(g, b.inos[i].size) && InLimit(g, a.inos[i].size) && q < b.inos[i].size
    ensures Content(g, b, i, b.inos[i].size)[q] == Content(g, a, i, a.inos[i].size)[q]
  {
    hide Content, Exposed, EndMapped, ZeroTail, NothingBeyond, OthersUntouched, Picked, ZnOf;
    var size := a.inos[i].size;
    ContentSays(g, a, i, size);
    ContentSays(g, b, i, b.inos[i].size);
    if start == size && !EndMapped(g, a, i, size) { ExposedBefore(g, a, i, Picked(g, a, chunk, i), q); }
  }

  lemma WrittenAtEnd(a: seq<byte>, b: seq<byte>, data: seq<byte>)
    requires |a| == |b|
    ensures Written(a, |a|, data) == Written(b, |b|, data) <==> a == b
  {
    assert Written(a, |a|, data)[..|a|] == a && Written(b, |b|, data)[..|b|] == b;
  }

  lemma WriteEnds(g: Geo, a: Fs, b: Fs, chunk: nat, i: nat, was: seq<byte>, start: nat, data: seq<byte>, n: nat)
    requires WriteSoFar(g, a, b, i, was, start, data, n) && Tidy(g, b, {}) && ZnOf(g, start) < Limit(g) && chunk > 0
    requires InLimit(g, a.inos[i].size) && was == TakenFor(g, a, chunk, i, start, data[..n])
    requires n == 0 ==> i < |b.inos| && Unmapped(g, b, i, start)
    ensures i < |b.inos| && var c := SetSize(b, i, Max(a.inos[i].size, start + n));
      Tidy(g, c, {}) && WriteResult(g, a, c, chunk, i, start, data[..n])
  {
    hide Content, Written, OthersUntouched, ZeroTail, NothingBeyond, Tidy, Untouched, InLimit, Quot, Rest, Limit, TakenFor;
    var e := Max(a.inos[i].size, start + n);
    var c := SetSize(b, i, e);
    SizeChange(g, b, {}, i, e);
    OthersThen(g, a, b, c, i);
    UntouchedState(g, b, c, i, e);
    UntouchedEnd(g, b, c, i, e);
  }

  lemma TakenNone(g: Geo, a: Fs, chunk: nat, i: nat, start: nat, data: seq<byte>)
    requires chunk > 0 && Shape(g, a) && i < |a.inos| && InLimit(g, a.inos[i].size)
    ensures TakenFor(g, a, chunk, i, start, data[..0]) == Content(g, a, i, a.inos[i].size)
  {
  }

  /** One more chunk; `mid` is the file its bytes went into. */
  lemma SoFarNext(g: Geo, chunk: nat, a: Fs, b: Fs, mid: Fs, c: Fs, i: nat, was: seq<byte>, start: nat, data: seq<byte>, n: nat, m: nat)
    requires WriteSoFar(g, a, b, i, was, start, data, n) && n < m <= |data| && chunk > 0
    requires Shape(g, a) && i < |a.inos| && InLimit(g, a.inos[i].size) && was == TakenFor(g, a, chunk, i, start, data[..n])
    requires n == 0 && start == a.inos[i].size ==> b == a
    requires ChunkDone(g, mid, c, i, start + n, data[n..m], Max(a.inos[i].size, start + n))
    requires Shape(g, mid) && i < |mid.inos| && i < |c.inos| && OthersUntouched(g, mid, c, i) && c.inos[i].size == mid.inos[i].size
    requires Shape(g, b) && i < |b.inos|
    requires if start + n == b.inos[i].size && !EndMapped(g, b, i, Max(a.inos[i].size, start + n)) then Opened(g, b, mid, i, Picked(g, b, chunk, i)) else mid == b
    ensures WriteSoFar(g, a, c, i, TakenFor(g, a, chunk, i, start, data[..m]), start, data, m)
  {
    hide Content, Written, OthersUntouched, ZeroTail, NothingBeyond, EndMapped, Exposed, Picked, ChunkDone, Opened;
    if n == 0 && start == a.inos[i].size && !EndMapped(g, a, i, start) {
      assert data[..m] == data[n..m];
      OpenStep(g, a, mid, c, i, Picked(g, a, chunk, i), start, data, m);
    } else {
      WriteStep(g, a, b, c, i, was, start, data, n, m);
    }
  }

  /** The loop of read_write, writing, from `start` on; `a` is the device before the call. */
  method WriteChunks(fs: FileSys, ip: nat, start: nat, data: seq<byte>, ghost a: Fs) returns (r: Code, n: nat, ghost was: seq<byte>)
    requires fs.Valid({}) && ip < |fs.inos| && data != [] && InLimit(fs.g, start + |data|) && ZnOf(fs.g, start) < Limit(fs.g)
    requires Shape(fs.g, a) && ip < |a.inos| && InLimit(fs.g, a.inos[ip].size) && (start == a.inos[ip].size ==> fs.Model() == a)
    requires WriteSoFar(fs.g, a, fs.Model(), ip, Content(fs.g, a, ip, a.inos[ip].size), start, data, 0)
    modifies fs
    ensures fs.Valid({}) && |fs.inos| == |old(fs.inos)| && n <= |data| && ((r == OK && n == |data|) || (r == ENOSPC && n < |data|))
    ensures WriteSoFar(fs.g, a, fs.Model(), ip, was, start, data, n) && was == TakenFor(fs.g, a, fs.chunk, ip, start, data[..n])
    ensures Shape(fs.g, fs.Model()) && (n == 0 ==> Unmapped(fs.g, fs.Model(), ip, start))
    ensures n == 0 ==> Full(old(fs.bits)) || ZnOf(fs.g, start) >= fs.g.ndz
    ensures Shape(fs.g, old(fs.Model())) && (n == 0 ==> Unmapped(fs.g, old(fs.Model()), ip, start))
    ensures Full(old(fs.bits)) && Unmapped(fs.g, old(fs.Model()), ip, start) ==> n == 0
  {
    hide HintOk, InLimit, Tidy, Quot, Rest, Limit, WriteSoFar, FileState, EndMapped, ChunkDone, OthersUntouched, Untouched, BlkOf, ZnOf, Full, Unmapped,
         Content, Opened, TakenFor;
    var g := fs.g;
    TidyShape(g, fs.Model(), {});
    ghost var m := fs.Model();
    ghost var stuck := Full(fs.bits) && Unmapped(g, m, ip, start);
    was := Content(g, a, ip, a.inos[ip].size);
    TakenNone(g, a, fs.chunk, ip, start, data);
    SoFarSays(g, a, m, ip, was, start, data, 0);
    var fsize := fs.inos[ip].size;
    r, n := OK, 0;
    while n < |data|
      invariant n <= |data| && r == OK && fs.Valid({}) && ip < |fs.inos| == |old(fs.inos)|
      invariant WriteSoFar(g, a, fs.Model(), ip, was, start, data, n)
      invariant was == TakenFor(g, a, fs.chunk, ip, start, data[..n]) && (n == 0 ==> fs.Model() == m)
      invariant stuck ==> n == 0
    {
      var position := start + n;
      var off := Rest(position, g.bs);
      var len := if |data| - n < g.bs - off then |data| - n else g.bs - off;
      ghost var b := fs.Model();
      TidyShape(g, b, {});
      SoFarSays(g, a, b, ip, was, start, data, n);
      ChunkFits(g, start, |data|, n + len);
      ghost var mid;
      r, mid := WriteChunk(fs, ip, position, data[n..n + len], Max(fsize, position));
      if r != OK {
        WriteStops(g, a, b, fs.Model(), ip, was, start, data, n);
        if n == 0 { TidyShape(g, fs.Model(), {}); StillUnmapped(g, b, fs.Model(), ip, start); }
        break;
      }
      SoFarNext(g, fs.chunk, a, b, mid, fs.Model(), ip, was, start, data, n, n + len);
      n := n + len;
      was := TakenFor(g, a, fs.chunk, ip, start, data[..n]);
    }
    TidyShape(g, fs.Model(), {});
  }

  lemma StillUnmapped(g: Geo, a: Fs, b: Fs, i: nat, start: nat)
    requires Shape(g, a) && i < |a.inos| && Untouched(g, a, b, i) && ZnOf(g, start) < Limit(g)
    ensures Shape(g, b) && i < |b.inos| && (Unmapped(g, b, i, start) <==> Unmapped(g, a, i, start))
  {
    hide Quot, Rest, Limit;
    assert ValidOwner(g, a, i, Data(PosOf(g, ZnOf(g, start))));
    assert Own(g, b, i, Data(PosOf(g, ZnOf(g, start)))) == Own(g, a, i, Data(PosOf(g, ZnOf(g, start))));
  }

  /** read_write with WRITING, on a regular file: write `data` at `filpPos`, or at the end of
      file with O_APPEND.  Returns the code, the number of bytes written and the new position. */
  method WriteFile(fs: FileSys, ip: nat, filpPos: nat, data: seq<byte>, append: bool, maxSize: nat)
    returns (r: Code, n: nat, position: nat)
    requires fs.Valid({}) && ip < |fs.inos| && FileState(fs.g, fs.Model(), ip, fs.inos[ip].size) && InLimit(fs.g, maxSize)
    requires append || |data| > maxSize ==> InLimit(fs.g, (if append then fs.inos[ip].size else filpPos) + |data|)
    modifies fs
    ensures fs.Valid({}) && |fs.inos| == |old(fs.inos)| && n <= |data|
    ensures data == [] ==> r == OK && fs.Model() == old(fs.Model())
    ensures r == EFBIG <==> data != [] && |data| <= maxSize < filpPos + |data|
    ensures r == EFBIG ==> fs.Model() == old(fs.Model()) && n == 0 && position == filpPos
    ensures r == OK ==> n == |data|
    ensures r == ENOSPC ==> n < |data|
    ensures data != [] && r != EFBIG ==>
      && var start := if append then old(fs.inos)[ip].size else filpPos;
      && position == start + n && ZnOf(fs.g, start) < Limit(fs.g)
      && WriteResult(fs.g, old(fs.Model()), fs.Model(), fs.chunk, ip, start, data[..n])
      && Landed(fs.g, old(fs.Model()), fs.Model(), ip, start, data[..n])
      && (n > 0 ==>
           (Content(fs.g, fs.Model(), ip, fs.inos[ip].size) == Written(Content(fs.g, old(fs.Model()), ip, old(fs.inos)[ip].size), start, data[..n])
            <==> EndsClean(fs.g, old(fs.Model()), fs.chunk, ip, start)))
      && (Full(old(fs.bits)) && Unmapped(fs.g, old(fs.Model()), ip, start) ==> n == 0)
      && (n == 0 ==> Unmapped(fs.g, old(fs.Model()), ip, start) && (Full(old(fs.bits)) || ZnOf(fs.g, start) >= fs.g.ndz))
  {
    hide Tidy, Quot, Rest, Limit, WriteSoFar, WriteResult, FileState, EndMapped, Cleared, ChunkDone, OthersUntouched, Untouched, BlkOf, ZnOf,
         Full, Unmapped, Content, Written, EndsClean, TakenFor, Landed;
    var g := fs.g;
    ghost var a := fs.Model();
    TidyShape(g, a, {});
    StateSays(g, a, ip, fs.inos[ip].size);
    r, n, position := OK, 0, filpPos;
    if data == [] { return; }
    // The difference is unsigned: for more bytes than a file can have it is a huge number.
    if |data| <= maxSize && position > maxSize - |data| { return EFBIG, 0, position; }
    var fsize := fs.inos[ip].size;
    if append { position := fsize; }
    var start := position;
    StartInLimit(g, if append || |data| > maxSize then start + |data| else maxSize, start, |data|, fsize);
    ChunkInLimit(g, start, |data|);
    if position > fsize {
      ClearZone(fs, ip, fsize, false, {});
      assert Cleared(g, a, fs.Model(), ip, fsize) by { ClearedIs(g, a, fs.Model(), ip, fsize); }
      WriteStartsBeyond(g, a, fs.Model(), ip, start, data);
      ClearedUnmapped(g, a, fs.Model(), ip, fsize, start);
    } else {
      WriteStarts(g, a, ip, start, data);
    }
    ghost var was;
    r, n, was := WriteChunks(fs, ip, start, data, a);
    position := start + n;
    SoFarSays(g, a, fs.Model(), ip, was, start, data, n);
    WriteEnds(g, a, fs.Model(), fs.chunk, ip, was, start, data, n);
    if position > fsize {
      fs.inos := fs.inos[ip := fs.inos[ip].(size := position)];
    } else {
      SameSize(fs.Model(), ip);
    }
    if n > 0 { ResultRight(g, a, fs.Model(), fs.chunk, ip, start, data[..n]); }
    ResultBytes(g, a, fs.Model(), fs.chunk, ip, start, data[..n]);
    ResultLimit(g, a, fs.Model(), fs.chunk, ip, start, data[..n]);
  }

  /** The bytes written lie where the file has them, and it is as long as it was or up to their end. */
  ghost predicate Landed(g: Geo, a: Fs, b: Fs, i: nat, start: nat, written: seq<byte>) {
    && Shape(g, b) && i < |a.inos| && i < |b.inos|
    && b.inos[i].size == (if start + |written| > a.inos[i].size then start + |written| else a.inos[i].size)
    && forall k :: 0 <= k < |written| ==> ByteLies(g, b, i, start + k, written[k])
  }

  lemma ResultBytes(g: Geo, a: Fs, b: Fs, chunk: nat, i: nat, start: nat, written: seq<byte>)
    requires WriteResult(g, a, b, chunk, i, start, written)
    ensures Landed(g, a, b, i, start, written)
  {
    hide Content, TakenFor, EndMapped, Untouched, ZeroTail, NothingBeyond, ByteLies;
    ResultLimit(g, a, b, chunk, i, start, written);
    var s := Content(g, b, i, b.inos[i].size);
    assert s[start..start + |written|] == written;
    BytesAre(g, b, i, start, written);
  }

  lemma ResultLimit(g: Geo, a: Fs, b: Fs, chunk: nat, i: nat, start: nat, written: seq<byte>)
    requires WriteResult(g, a, b, chunk, i, start, written)
    ensures Shape(g, a) && Shape(g, b) && i < |a.inos| == |b.inos| && InLimit(g, a.inos[i].size) && InLimit(g, b.inos[i].size)
  {
    hide Content, Written, TakenFor, EndMapped, Untouched, ZeroTail, NothingBeyond;
  }

  /** clear_zone maps nothing and takes nothing away. */
  lemma ClearedUnmapped(g: Geo, a: Fs, b: Fs, i: nat, e: nat, start: nat)
    requires Shape(g, a) && i < |a.inos| && ZnOf(g, e) < Limit(g) && ZnOf(g, start) < Limit(g) && Cleared(g, a, b, i, e)
    ensures Shape(g, b) && b.inos == a.inos && b.bits == a.bits && (Unmapped(g, a, i, start) <==> Unmapped(g, b, i, start))
  {
    hide Quot, Rest, Limit;
    ClearedShape(g, a, b, i, e);
    assert ValidOwner(g, a, i, Data(PosOf(g, ZnOf(g, start))));
    assert Own(g, b, i, Data(PosOf(g, ZnOf(g, start)))) == Own(g, a, i, Data(PosOf(g, ZnOf(g, start))));
  }

  lemma SameSize(a: Fs, i: nat)
    requires i < |a.inos|
    ensures SetSize(a, i, a.inos[i].size) == a
  {
    assert a.inos[i := a.inos[i].(size := a.inos[i].size)] == a.inos;
  }

  lemma ClearedIs(g: Geo, a: Fs, b: Fs, i: nat, e: nat)
    requires Shape(g, a) && i < |a.inos| && ZnOf(g, e) < Limit(g)
    requires if ZoneOf(g, a.store, a.inos[i].zone, ZnOf(g, e)) == NO_ZONE then b == a
             else ClearedFrom(g, a, b, i, PosOf(g, ZnOf(g, e)), ClearLo(g, e, false), g.spz)
    ensures Cleared(g, a, b, i, e)
  {
  }

  lemma SoFarSays(g: Geo, a: Fs, b: Fs, i: nat, was: seq<byte>, start: nat, data: seq<byte>, n: nat)
    requires WriteSoFar(g, a, b, i, was, start, data, n)
    ensures Shape(g, a) && Shape(g, b) && |b.inos| == |a.inos| && i < |b.inos| && b.inos[i].size == a.inos[i].size
    ensures FileState(g, b, i, Max(a.inos[i].size, start + n))
    ensures n > 0 && start + n == a.inos[i].size ==> EndMapped(g, b, i, a.inos[i].size)
  {
    hide FileState, EndMapped, Content, Written;
    StateSays(g, b, i, Max(a.inos[i].size, start + n));
    assert OthersUntouched(g, a, b, i);
    hide OthersUntouched;
  }

  /** Everything up to the end of the write has a place in the block map. */
  lemma StartInLimit(g: Geo, most: nat, start: nat, len: nat, fsize: nat)
    requires g.bs > 0 && g.spz > 0 && InLimit(g, most) && start + len <= most
    ensures InLimit(g, start) && InLimit(g, start + len)
    ensures start > fsize ==> ZnOf(g, fsize) < Limit(g)
  {
    hide Quot, Rest, Limit;
    if start + len < most { InLimitBelow(g, most, start + len); }
    if start < most { InLimitBelow(g, most, start); }
    if start > fsize { InLimitBelow(g, most, fsize); }
  }

  lemma ChunkFits(g: Geo, start: nat, len: nat, n: nat)
    requires g.bs > 0 && g.spz > 0 && InLimit(g, start + len) && n <= len
    ensures InLimit(g, start + n)
  {
    hide Quot, Rest, Limit;
    if n < len { InLimitBelow(g, start + len, start + n); }
  }

  // ---------- Reading ----------

  /** The bytes a read of `n` bytes at `pos` is to deliver. */
  function Slice(content: seq<byte>, pos: nat, n: nat): (s: seq<byte>)
    ensures |s| <= n
  {
    if pos >= |content| then [] else if pos + n <= |content| then content[pos..pos + n] else content[pos..]
  }

  lemma SliceIs(content: seq<byte>, pos: nat, n: nat)
    ensures var s := Slice(content, pos, n);
      && |s| == (if pos >= |content| then 0 else if pos + n <= |content| then n else |content| - pos)
      && (s != [] ==> s == content[pos..pos + |s|])
  {}

  lemma SliceStep(content: seq<byte>, pos: nat, n: nat, chunk: nat)
    requires pos + n + chunk <= |content|
    ensures Slice(content, pos, n) + content[pos + n..pos + n + chunk] == Slice(content, pos, n + chunk)
  {
  }

  lemma SliceEnd(content: seq<byte>, pos: nat, n: nat, more: nat)
    requires pos + n >= |content| && n <= more
    ensures Slice(content, pos, n) == Slice(content, pos, more)
  {
  }

  lemma ChunkRead(g: Geo, fs: Fs, i: nat, e: nat, pos: nat, chunk: nat)
    requires FileState(g, fs, i, e) && pos + chunk <= e && Rest(pos, g.bs) + chunk <= g.bs && chunk > 0
    ensures ZnOf(g, pos) < Limit(g)
    ensures FileBlock(g, fs, i, BlkOf(g, pos))[Rest(pos, g.bs)..Rest(pos, g.bs) + chunk] == Content(g, fs, i, e)[pos..pos + chunk]
  {
    hide Quot, Rest, Limit, FileBlock, Content, ZeroTail, NothingBeyond;
    InLimitBelow(g, e, pos);
    var block := FileBlock(g, fs, i, BlkOf(g, pos));
    ContentSays(g, fs, i, e);
    var got, want := block[Rest(pos, g.bs)..Rest(pos, g.bs) + chunk], Content(g, fs, i, e)[pos..pos + chunk];
    forall x | 0 <= x < chunk ensures got[x] == want[x] {
      SameGroup(pos, x, g.bs);
      assert want[x] == ByteAt(g, fs, i, pos + x);
    }
  }

  /** rw_chunk, reading: the bytes of one block, zeros where there is no block. */
  method ReadChunk(fs: FileSys, ip: nat, position: nat, chunk: nat) returns (piece: seq<byte>)
    requires fs.Valid({}) && ip < |fs.inos| && FileState(fs.g, fs.Model(), ip, fs.inos[ip].size)
    requires chunk > 0 && Rest(position, fs.g.bs) + chunk <= fs.g.bs && position + chunk <= fs.inos[ip].size
    ensures piece == Content(fs.g, fs.Model(), ip, fs.inos[ip].size)[position..position + chunk]
  {
    hide Tidy, Quot, Rest, Limit, Content, ZeroTail, NothingBeyond, BlockNo;
    var g := fs.g;
    ghost var a := fs.Model();
    ChunkRead(g, a, ip, fs.inos[ip].size, position, chunk);
    ghost var p := PosOf(g, ZnOf(g, position));
    var off := Rest(position, g.bs);
    var b := fs.ReadMap(ip, position);
    if Own(g, a, ip, Data(p)) != 0 { LegalNonZero(g, a, {}, ip, Data(p), OffOf(g, position)); }
    var bp;
    if b == NO_BLOCK {
      bp := Zeros(g.bs);
    } else {
      bp := fs.GetBlock(b, Normal);
    }
    piece := bp[off..off + chunk];
  }

  /** read_write with READING, on a regular file. */
  method ReadFile(fs: FileSys, ip: nat, filpPos: nat, nbytes: nat) returns (bytes: seq<byte>, position: nat)
    requires fs.Valid({}) && ip < |fs.inos| && FileState(fs.g, fs.Model(), ip, fs.inos[ip].size)
    ensures bytes == Slice(Content(fs.g, fs.Model(), ip, fs.inos[ip].size), filpPos, nbytes)
    ensures position == filpPos + |bytes|
    ensures var left := if filpPos < fs.inos[ip].size then fs.inos[ip].size - filpPos else 0;
      |bytes| == if nbytes < left then nbytes else left
    ensures Shape(fs.g, fs.Model()) && forall k :: 0 <= k < |bytes| ==> ByteLies(fs.g, fs.Model(), ip, filpPos + k, bytes[k])
  {
    hide Tidy, Quot, Rest, Limit, Content, ZeroTail, NothingBeyond, Slice, FileState, ByteLies;
    var g := fs.g;
    StateSays(g, fs.Model(), ip, fs.inos[ip].size);
    ghost var content := Content(g, fs.Model(), ip, fs.inos[ip].size);
    var fsize := fs.inos[ip].size;
    ContentSays(g, fs.Model(), ip, fsize);
    bytes, position := [], filpPos;
    var left: nat := nbytes;
    assert Slice(content, filpPos, 0) == [];
    while left != 0
      invariant left + |bytes| == nbytes && position == filpPos + |bytes| && bytes == Slice(content, filpPos, |bytes|)
    {
      var off := Rest(position, g.bs);
      var chunk: nat := if left < g.bs - off then left else g.bs - off;
      var bytesLeft := fsize - position;
      if position >= fsize {
        SliceEnd(content, filpPos, |bytes|, nbytes);
        break;
      }
      if chunk > bytesLeft { chunk := bytesLeft; }
      var piece := ReadChunk(fs, ip, position, chunk);
      SliceStep(content, filpPos, |bytes|, chunk);
      bytes := bytes + piece;
      left := left - chunk;
      position := position + chunk;
    }
    SliceIs(content, filpPos, nbytes);
    BytesAre(g, fs.Model(), ip, filpPos, bytes);
  }
}
