/** Reading and writing files: clear_zone, new_block, rw_chunk, read_write, truncate. */
module Files {
  import opened Storage
  import opened Indirect
  import opened BlockMap
  import opened BitAlloc
  import opened Zones
  import opened FileContent

  // ---------- clear_zone ----------

  lemma QuotQuot(x: nat, m: nat, n: nat)
    requires m > 0 && n > 0 && m * n > 0
    ensures Quot(x, m * n) == Quot(Quot(x, m), n)
    ensures Quot(x, m * n) * (m * n) <= x
    ensures Quot(Quot(x, m * n) * (m * n), m) == Quot(x, m * n) * n
  {
    var q, r := Quot(Quot(x, m), n), Rest(Quot(x, m), n);
    QuotRest(x, m);
    QuotRest(Quot(x, m), n);
    assert Quot(x, m) * m == (q * n + r) * m == q * (m * n) + r * m by {
      assert (q * n + r) * m == q * n * m + r * m;
      assert q * n * m == q * (m * n);
    }
    assert r * m + Rest(x, m) < m * n by { MulStep(r, n, m); assert n * m == m * n; }
    QuotIs(x, q, r * m + Rest(x, m), m * n);
    assert q * (m * n) == q * n * m;
    QuotIs(q * (m * n), q * n, 0, m);
  }

  lemma QuotBlockNo(g: Geo, z: nat, off: nat)
    requires g.spz > 0 && off < g.spz
    ensures Quot(BlockNo(g, z, off), g.spz) == z && Rest(BlockNo(g, z, off), g.spz) == off
  {
    QuotIs(BlockNo(g, z, off), z, off, g.spz);
  }

  /** The data at position `p` of file `i` is as before below block `lo` of the zone and
      zero from there on; nothing else has changed. */
  ghost predicate ClearedFrom(g: Geo, a: Fs, b: Fs, i: nat, p: Pos, lo: nat, hi: nat)
    requires Shape(g, a) && ValidOwner(g, a, i, Data(p))
  {
    && SameSlots(g, a, b) && DataFrame(g, a, b, i, p) && b.bits == a.bits && b.inos == a.inos && b.zsearch == a.zsearch
    && forall x: nat | x < g.spz ::
         DataBlock(g, b, i, p, x) == if lo <= x < hi then Zeros(g.bs) else DataBlock(g, a, i, p, x)
  }

  lemma ClearedNone(g: Geo, a: Fs, i: nat, p: Pos, lo: nat)
    requires Shape(g, a) && ValidOwner(g, a, i, Data(p))
    ensures ClearedFrom(g, a, a, i, p, lo, lo)
  {
  }

  lemma ClearedMore(g: Geo, a: Fs, b: Fs, held: set<nat>, i: nat, p: Pos, lo: nat, hi: nat)
    requires Shape(g, a) && ValidOwner(g, a, i, Data(p)) && ClearedFrom(g, a, b, i, p, lo, hi)
    requires Tidy(g, b, held) && Own(g, a, i, Data(p)) != 0 && lo <= hi < g.spz
    ensures var c := b.(store := b.store[BlockNo(g, Own(g, a, i, Data(p)), hi) := Zeros(g.bs)]);
      ClearedFrom(g, a, c, i, p, lo, hi + 1) && Tidy(g, c, held)
  {
    hide Tidy, Zeros, DataFrame, SameSlots;
    TidyShape(g, b, held);
    SameOwn(g, a, b, i, Data(p));
    var c := b.(store := b.store[BlockNo(g, Own(g, a, i, Data(p)), hi) := Zeros(g.bs)]);
    DataWrite(g, b, held, i, p, hi, Zeros(g.bs));
    DataFrameThen(g, a, b, c, i, p);
    SameSlotsThen(g, a, b, c);
  }

  lemma SameSlotsThen(g: Geo, a: Fs, b: Fs, c: Fs)
    requires Shape(g, a) && SameSlots(g, a, b) && SameSlots(g, b, c)
    ensures SameSlots(g, a, c)
  {
    forall i, s | ValidOwner(g, a, i, s) ensures Own(g, c, i, s) == Own(g, a, i, s) {
      assert ValidOwner(g, b, i, s);
    }
  }

  /** Where clear_zone starts: the block after the one `pos` is in, unless `pos` is at its start. */
  function ClearStart(g: Geo, pos: nat): nat
    requires g.bs > 0
  {
    BlkOf(g, pos + g.bs - 1)
  }

  /** The first block of its zone that clear_zone zeroes, or the number of blocks in a zone
      if it zeroes none. */
  function ClearLo(g: Geo, pos: nat, whole: bool): nat
    requires g.bs > 0 && g.spz > 0
  {
    var first := if whole then ZnOf(g, pos) * g.spz else ClearStart(g, pos);
    if g.spz == 1 || Quot(first, g.spz) != ZnOf(g, pos) then g.spz else Rest(first, g.spz)
  }

  /** The loop of clear_zone: zero the blocks of a zone from block `blo` to its end. */
  method ClearBlocks(fs: FileSys, blo: nat, ip: nat, ghost p: Pos, ghost lo: nat, ghost held: set<nat>)
    requires fs.Valid(held) && ip < |fs.inos| && ValidPos(fs.g, p) && lo < fs.g.spz
    requires Own(fs.g, fs.Model(), ip, Data(p)) != 0 && blo == BlockNo(fs.g, Own(fs.g, fs.Model(), ip, Data(p)), lo)
    modifies fs`store
    ensures fs.Valid(held) && Shape(fs.g, old(fs.Model()))
    ensures ClearedFrom(fs.g, old(fs.Model()), fs.Model(), ip, p, lo, fs.g.spz)
  {
    hide Tidy, Zeros, DataFrame, SameSlots, Quot, Rest, Limit, ClearedFrom, BlockNo;
    var g := fs.g;
    ghost var a := fs.Model();
    TidyShape(g, a, held);
    ghost var z := Own(g, a, ip, Data(p));
    QuotBlockNo(g, z, lo);
    var bhi := BlockNo(g, Quot(blo, g.spz) + 1, 0) - 1;
    BlockSpan(g, z, lo);
    var b := blo;
    ClearedNone(g, a, ip, p, lo);
    while b <= bhi
      invariant blo <= b <= bhi + 1 && fs.Valid(held)
      invariant ClearedFrom(g, a, fs.Model(), ip, p, lo, lo + (b - blo))
      decreases bhi + 1 - b
    {
      var bp := fs.GetBlock(b, NoRead);
      BlockStep(g, z, lo, b - blo);
      ClearedMore(g, a, fs.Model(), held, ip, p, lo, lo + (b - blo));
      bp := Zeros(g.bs);
      fs.Dirty(b, bp);
      b := b + 1;
    }
  }

  /** clear_zone: without a zone at the position nothing happens; else just the blocks of the zone from
      ClearLo on become zero, which for new_block (`whole`) is all of them. */
  method ClearZone(fs: FileSys, ip: nat, pos0: nat, whole: bool, ghost held: set<nat>)
    requires fs.Valid(held) && ip < |fs.inos| && ZnOf(fs.g, pos0) < Limit(fs.g)
    modifies fs`store
    ensures fs.Valid(held)
    ensures
      if ZoneOf(fs.g, old(fs.store), old(fs.inos)[ip].zone, ZnOf(fs.g, pos0)) == NO_ZONE then fs.Model() == old(fs.Model())
      else
        && Shape(fs.g, old(fs.Model()))
        && ClearedFrom(fs.g, old(fs.Model()), fs.Model(), ip, PosOf(fs.g, ZnOf(fs.g, pos0)), ClearLo(fs.g, pos0, whole), fs.g.spz)
  {
    hide Tidy, Zeros, DataFrame, SameSlots, Quot, Rest, Limit, ClearedFrom, BlockNo, ClearStart;
    var g := fs.g;
    ghost var a := fs.Model();
    TidyShape(g, a, held);
    ghost var p := PosOf(g, ZnOf(g, pos0));
    ClearedNone(g, a, ip, p, g.spz);
    if g.spz == 1 { return; }
    var zoneSize := g.bs * g.spz;
    PositiveProduct(g.bs, g.spz);
    var pos := pos0;
    if whole { pos := Quot(pos0, zoneSize) * zoneSize; }
    StartOfClear(g, pos0, whole, pos);
    var next := pos + g.bs - 1;
    if Quot(next, zoneSize) != Quot(pos, zoneSize) { return; }
    var blo := fs.ReadMap(ip, next);
    if blo == NO_BLOCK {
      if Own(g, a, ip, Data(p)) != 0 { LegalNonZero(g, a, held, ip, Data(p), OffOf(g, next)); }
      return;
    }
    ClearBlocks(fs, blo, ip, p, OffOf(g, next), held);
  }

  lemma PositiveProduct(m: nat, n: nat)
    requires m > 0 && n > 0
    ensures m * n > 0
  {
  }

  /** Blocks of one zone are numbered in a row. */
  lemma BlockSpan(g: Geo, z: nat, off: nat)
    requires off < g.spz
    ensures BlockNo(g, z + 1, 0) == BlockNo(g, z, off) + (g.spz - off)
  {
    assert (z + 1) * g.spz == z * g.spz + g.spz;
  }

  lemma BlockStep(g: Geo, z: nat, off: nat, d: nat)
    ensures BlockNo(g, z, off + d) == BlockNo(g, z, off) + d
  {
  }

  lemma LegalNonZero(g: Geo, a: Fs, held: set<nat>, i: nat, s: Slot, off: nat)
    requires Tidy(g, a, held) && ValidOwner(g, a, i, s) && Own(g, a, i, s) != 0
    ensures BlockNo(g, Own(g, a, i, s), off) != 0
  {
    assert LegalZone(g, Own(g, a, i, s));
    MulStep(0, Own(g, a, i, s), g.spz);
  }

  lemma StartOfClear(g: Geo, pos0: nat, whole: bool, pos: nat)
    requires g.bs > 0 && g.spz > 0 && g.bs * g.spz > 0
    requires pos == if whole then Quot(pos0, g.bs * g.spz) * (g.bs * g.spz) else pos0
    ensures ZnOf(g, pos) == ZnOf(g, pos0)
    ensures var first := if whole then ZnOf(g, pos0) * g.spz else ClearStart(g, pos0);
      BlkOf(g, pos + g.bs - 1) == first
    ensures Quot(pos + g.bs - 1, g.bs * g.spz) == ZnOf(g, pos + g.bs - 1) && Quot(pos, g.bs * g.spz) == ZnOf(g, pos0)
  {
    QuotQuot(pos, g.bs, g.spz);
    QuotQuot(pos + g.bs - 1, g.bs, g.spz);
    QuotQuot(pos0, g.bs, g.spz);
    if whole {
      var zn := ZnOf(g, pos0);
      QuotIs(zn * g.spz, zn, 0, g.spz);
      QuotRest(pos, g.bs);
      assert Quot(pos, g.bs) == zn * g.spz;
      assert pos == (zn * g.spz) * g.bs by { assert zn * (g.bs * g.spz) == (zn * g.spz) * g.bs; }
      QuotIs(pos, zn * g.spz, 0, g.bs);
      SameGroup(pos, g.bs - 1, g.bs);
    }
  }

  // ---------- new_block ----------

  /** Two steps on the same position. */
  lemma ClearedElsewhere(g: Geo, a: Fs, b: Fs, i: nat, p: Pos, lo: nat)
    requires Shape(g, a) && ValidOwner(g, a, i, Data(p)) && ClearedFrom(g, a, b, i, p, lo, g.spz)
    ensures Shape(g, b) && |b.inos| == |a.inos| && Elsewhere(g, a, b, i, p) && Own(g, b, i, Data(p)) == Own(g, a, i, Data(p))
    ensures forall x: nat | lo <= x < g.spz :: DataBlock(g, b, i, p, x) == Zeros(g.bs)
  {
  }

  /** The position has a zone; all blocks of it but `off` are as before, or, if the zone is new, zero
      if `clean` says so and else what the device held.  Nothing else changed. */
  ghost predicate Mapped(g: Geo, a: Fs, b: Fs, i: nat, p: Pos, off: nat, clean: bool)
    requires Shape(g, a) && ValidOwner(g, a, i, Data(p)) && off < g.spz
  {
    && Shape(g, b) && Elsewhere(g, a, b, i, p) && Own(g, b, i, Data(p)) != 0
    && (Own(g, a, i, Data(p)) != 0 ==> Own(g, b, i, Data(p)) == Own(g, a, i, Data(p)))
    && (Own(g, a, i, Data(p)) != 0 ==> forall x: nat | x < g.spz && x != off :: DataBlock(g, b, i, p, x) == DataBlock(g, a, i, p, x))
    && (Own(g, a, i, Data(p)) == 0 && clean ==> forall x: nat | x < g.spz && x != off :: DataBlock(g, b, i, p, x) == Zeros(g.bs))
    && (Own(g, a, i, Data(p)) == 0 && !clean ==>
         forall x: nat | x < g.spz && x != off :: DataBlock(g, b, i, p, x) == At(g, a.store, BlockNo(g, Own(g, b, i, Data(p)), x)))
  }

  /** Writing block `off` keeps that so. */
  lemma MappedWrite(g: Geo, a: Fs, b: Fs, held: set<nat>, i: nat, p: Pos, off: nat, clean: bool, blk: Block)
    requires Shape(g, a) && ValidOwner(g, a, i, Data(p)) && off < g.spz && |blk| == g.bs
    requires Tidy(g, b, held) && |b.inos| == |a.inos| && Mapped(g, a, b, i, p, off, clean)
    ensures var c := b.(store := b.store[BlockNo(g, Own(g, b, i, Data(p)), off) := blk]);
      && Tidy(g, c, held) && Shape(g, c) && Mapped(g, a, c, i, p, off, clean) && DataBlock(g, c, i, p, off) == blk
      && Own(g, c, i, Data(p)) == Own(g, b, i, Data(p))
  {
    hide Tidy, Elsewhere, Zeros, DataFrame, SameSlots;
    var c := b.(store := b.store[BlockNo(g, Own(g, b, i, Data(p)), off) := blk]);
    TidyShape(g, b, held);
    DataWrite(g, b, held, i, p, off, blk);
    SameElsewhere(g, b, c, i, p);
    SameOwn(g, b, c, i, Data(p));
    ElsewhereThen(g, a, b, c, i, p);
  }

  /** No zone is free. */
  predicate Full(bits: seq<bool>) {
    forall k :: 0 <= k < |bits| ==> bits[k]
  }

  /** There is no zone for the position. */
  predicate Unmapped(g: Geo, fs: Fs, i: nat, position: nat)
    requires GeoOk(g) && i < |fs.inos| && |fs.inos[i].zone| == g.ndz + 2 && ZnOf(g, position) < Limit(g)
  {
    ZoneOf(g, fs.store, fs.inos[i].zone, ZnOf(g, position)) == NO_ZONE
  }

  /** The zone new_block gets for the file, NO_ZONE if none is free: near its first zone, if it has one. */
  function Picked(g: Geo, fs: Fs, chunk: nat, i: nat): nat
    requires chunk > 0 && g.ndz > 0 && i < |fs.inos| && |fs.inos[i].zone| == g.ndz + 2
  {
    NextZone(g, fs.bits, fs.zsearch, chunk, if fs.inos[i].zone[0] == NO_ZONE then g.first else fs.inos[i].zone[0])
  }

  /** It is the first free one from that zone on, from the first data zone on if the file has none there. */
  lemma PickedIs(g: Geo, fs: Fs, chunk: nat, i: nat)
    requires chunk > 0 && g.ndz > 0 && g.first > 0 && i < |fs.inos| && |fs.inos[i].zone| == g.ndz + 2
    requires |fs.bits| > 0 && fs.bits[0]
    ensures var z := Picked(g, fs, chunk, i);
      if z == 0 then forall k :: 0 <= k < |fs.bits| ==> fs.bits[k]
      else if fs.inos[i].zone[0] != 0 then FirstFree(g, fs.bits, fs.zsearch, chunk, fs.inos[i].zone[0], z)
      else FirstFree(g, fs.bits, fs.zsearch, chunk, g.first, z)
  {
    hide NextZone, FirstFree;
    NextZoneIs(g, fs.bits, fs.zsearch, chunk, if fs.inos[i].zone[0] == NO_ZONE then g.first else fs.inos[i].zone[0]);
  }

  /** new_block: acquire a block for `position`, with a new zone if there is none yet. */
  method NewBlock(fs: FileSys, ip: nat, position: nat) returns (r: Code, b: nat)
    requires fs.Valid({}) && ip < |fs.inos| && ZnOf(fs.g, position) < Limit(fs.g)
    modifies fs
    ensures fs.Valid({}) && Shape(fs.g, old(fs.Model())) && |fs.inos| == |old(fs.inos)|
    ensures r == OK || r == ENOSPC
    ensures Full(old(fs.bits)) && Unmapped(fs.g, old(fs.Model()), ip, position) ==> r == ENOSPC
    ensures r == ENOSPC ==> Full(old(fs.bits)) || ZnOf(fs.g, position) >= fs.g.ndz
    ensures r == OK && Unmapped(fs.g, old(fs.Model()), ip, position) ==>
      Own(fs.g, fs.Model(), ip, Data(PosOf(fs.g, ZnOf(fs.g, position)))) == Picked(fs.g, old(fs.Model()), fs.chunk, ip)
    ensures r == OK ==>
      && Mapped(fs.g, old(fs.Model()), fs.Model(), ip, PosOf(fs.g, ZnOf(fs.g, position)), OffOf(fs.g, position),
                position != old(fs.inos)[ip].size)
      && DataBlock(fs.g, fs.Model(), ip, PosOf(fs.g, ZnOf(fs.g, position)), OffOf(fs.g, position)) == Zeros(fs.g.bs)
      && b == BlockNo(fs.g, ZoneOf(fs.g, fs.store, fs.inos[ip].zone, ZnOf(fs.g, position)), OffOf(fs.g, position))
      && Shape(fs.g, fs.Model()) && BlockAt(fs.g, fs.store, fs.inos[ip].zone, position, b)
    ensures r == ENOSPC ==>
      && Elsewhere(fs.g, old(fs.Model()), fs.Model(), ip, PosOf(fs.g, ZnOf(fs.g, position)))
      && ZoneOf(fs.g, fs.store, fs.inos[ip].zone, ZnOf(fs.g, position)) == NO_ZONE
      && ZoneOf(fs.g, old(fs.store), old(fs.inos)[ip].zone, ZnOf(fs.g, position)) == NO_ZONE
  {
    hide Tidy, Elsewhere, Zeros, DataFrame, SameSlots, ClearedFrom, BlockNo, Quot, Rest, Limit, Mapped, BlockAt;
    var g := fs.g;
    ghost var a := fs.Model();
    TidyShape(g, a, {});
    ghost var p := PosOf(g, ZnOf(g, position));
    ElsewhereRefl(g, a, ip, p);
    r := OK;
    b := fs.ReadMap(ip, position);
    if Own(g, a, ip, Data(p)) != 0 { LegalNonZero(g, a, {}, ip, Data(p), OffOf(g, position)); }
    if b == NO_BLOCK {
      r, b := NewZone(fs, ip, position);
      if r != OK { return; }
    }
    ghost var c := fs.Model();
    ElsewhereCounts(g, a, c, ip, p);
    IsMapped(g, a, c, ip, p, OffOf(g, position), position != a.inos[ip].size);
    MappedWrite(g, a, c, {}, ip, p, OffOf(g, position), position != a.inos[ip].size, Zeros(g.bs));
    var bp := fs.GetBlock(b, NoRead);
    bp := Zeros(g.bs);
    fs.Dirty(b, bp);
    TidyShape(g, fs.Model(), {});
    MapLeads(g, fs.store, fs.inos[ip].zone, position);
  }

  /** The part of new_block that allocates a complete zone. */
  method NewZone(fs: FileSys, ip: nat, position: nat) returns (r: Code, b: nat)
    requires fs.Valid({}) && ip < |fs.inos| && ZnOf(fs.g, position) < Limit(fs.g)
    requires ZoneOf(fs.g, fs.store, fs.inos[ip].zone, ZnOf(fs.g, position)) == NO_ZONE
    modifies fs
    ensures fs.Valid({}) && Shape(fs.g, old(fs.Model())) && |fs.inos| == |old(fs.inos)|
    ensures r == OK || r == ENOSPC
    ensures Full(old(fs.bits)) ==> r == ENOSPC
    ensures Elsewhere(fs.g, old(fs.Model()), fs.Model(), ip, PosOf(fs.g, ZnOf(fs.g, position)))
    ensures r == OK ==>
      && Own(fs.g, fs.Model(), ip, Data(PosOf(fs.g, ZnOf(fs.g, position)))) != 0
      && b == BlockNo(fs.g, Own(fs.g, fs.Model(), ip, Data(PosOf(fs.g, ZnOf(fs.g, position)))), OffOf(fs.g, position))
    ensures r == OK && position != old(fs.inos)[ip].size ==> forall x: nat | x < fs.g.spz && x != OffOf(fs.g, position) ::
      DataBlock(fs.g, fs.Model(), ip, PosOf(fs.g, ZnOf(fs.g, position)), x) == Zeros(fs.g.bs)
    ensures r == ENOSPC ==> Own(fs.g, fs.Model(), ip, Data(PosOf(fs.g, ZnOf(fs.g, position)))) == NO_ZONE
    ensures r == ENOSPC ==> Full(old(fs.bits)) || ZnOf(fs.g, position) >= fs.g.ndz
    ensures r == OK ==> Own(fs.g, fs.Model(), ip, Data(PosOf(fs.g, ZnOf(fs.g, position)))) == Picked(fs.g, old(fs.Model()), fs.chunk, ip)
    ensures r == OK && ZnOf(fs.g, position) < fs.g.ndz ==>
      && Shape(fs.g, fs.Model())
      && fs.zsearch == if old(fs.inos)[ip].zone[0] != NO_ZONE && old(fs.inos)[ip].zone[0] != fs.g.first then old(fs.zsearch)
                       else BitOf(fs.g, fs.inos[ip].zone[ZnOf(fs.g, position)])
    ensures r == OK && position == old(fs.inos)[ip].size ==> forall x: nat | x < fs.g.spz ::
      DataBlock(fs.g, fs.Model(), ip, PosOf(fs.g, ZnOf(fs.g, position)), x) ==
      At(fs.g, old(fs.store), BlockNo(fs.g, Picked(fs.g, old(fs.Model()), fs.chunk, ip), x))
  {
    hide Tidy, Elsewhere, Zeros, DataFrame, SameSlots, ClearedFrom, BlockNo, Quot, Rest, Limit, NextZone, FirstFree, LeadsAt;
    var g := fs.g;
    ghost var a := fs.Model();
    TidyShape(g, a, {});
    ghost var p := PosOf(g, ZnOf(g, position));
    ElsewhereRefl(g, a, ip, p);
    b := NO_BLOCK;
    var z := if fs.inos[ip].zone[0] == NO_ZONE then g.first else fs.inos[ip].zone[0];
    z := fs.AllocZone(z, {});
    if z == NO_ZONE { return ENOSPC, b; }
    ghost var a1 := fs.Model();
    assert {} + {z} == {z};
    TidyShape(g, a1, {z});
    BitsElsewhere(g, a, a1, ip, p);
    r := fs.WriteMap(ip, position, z, {z});
    ghost var a2 := fs.Model();
    assert {z} - {z} == {};
    TidyShape(g, a2, if r == OK then {} else {z});
    ElsewhereThen(g, a, a1, a2, ip, p);
    if r != OK {
      fs.FreeZone(z, fs.inos, {z});
      TidyShape(g, fs.Model(), {});
      BitsElsewhere(g, a2, fs.Model(), ip, p);
      ElsewhereThen(g, a, a2, fs.Model(), ip, p);
      return;
    }
    if position != fs.inos[ip].size {
      ElsewhereSize(g, a, a2, ip, p, ip);
      ClearZone(fs, ip, position, true, {});
      ClearsWhole(g, position);
      ClearedElsewhere(g, a2, fs.Model(), ip, p, ClearLo(g, position, true));
      ElsewhereThen(g, a, a2, fs.Model(), ip, p);
    } else {
      ElsewhereSize(g, a, a2, ip, p, ip);
    }
    b := BlockNo(g, z, OffOf(g, position));
  }

  lemma ElsewhereSize(g: Geo, a: Fs, b: Fs, i: nat, p: Pos, j: nat)
    requires Shape(g, a) && Elsewhere(g, a, b, i, p) && j < |a.inos|
    ensures |b.inos| == |a.inos| && b.inos[j].size == a.inos[j].size
  {
  }

  /** Called by new_block, clear_zone zeroes the whole zone, or leaves its only block to new_block. */
  lemma ClearsWhole(g: Geo, position: nat)
    requires g.bs > 0 && g.spz > 0
    ensures ClearLo(g, position, true) == 0 || (g.spz == 1 && ClearLo(g, position, true) == 1 && OffOf(g, position) == 0)
  {
    QuotIs(ZnOf(g, position) * g.spz, ZnOf(g, position), 0, g.spz);
  }

  lemma IsMapped(g: Geo, a: Fs, b: Fs, i: nat, p: Pos, off: nat, clean: bool)
    requires Shape(g, a) && Shape(g, b) && |b.inos| == |a.inos| && ValidOwner(g, a, i, Data(p)) && off < g.spz
    requires Elsewhere(g, a, b, i, p) && Own(g, b, i, Data(p)) != 0
    requires Own(g, a, i, Data(p)) != 0 ==> b == a
    requires Own(g, a, i, Data(p)) == 0 && clean ==> forall x: nat | x < g.spz && x != off :: DataBlock(g, b, i, p, x) == Zeros(g.bs)
    requires Own(g, a, i, Data(p)) == 0 && !clean ==>
      forall x: nat | x < g.spz && x != off :: DataBlock(g, b, i, p, x) == At(g, a.store, BlockNo(g, Own(g, b, i, Data(p)), x))
    ensures Mapped(g, a, b, i, p, off, clean)
  {
  }

  // ---------- rw_chunk ----------

  /** What must hold of a file whose contents so far end at `e`. */
  ghost predicate FileState(g: Geo, fs: Fs, i: nat, e: nat) {
    && Shape(g, fs) && i < |fs.inos| && InLimit(g, e)
    && ZeroTail(g, fs, i, e) && NothingBeyond(g, fs, i, e)
  }

  /** In the end a chunk touched one block. */
  lemma MappedBlocks(g: Geo, a: Fs, b: Fs, i: nat, pos: nat, n: nat, clean: bool)
    requires Shape(g, a) && i < |a.inos| && ZnOf(g, pos) < Limit(g)
    requires Mapped(g, a, b, i, PosOf(g, ZnOf(g, pos)), OffOf(g, pos), clean) && |b.inos| == |a.inos|
    requires !clean && ZoneOf(g, a.store, a.inos[i].zone, ZnOf(g, pos)) == 0 ==> OffOf(g, pos) == 0 && n <= BlkOf(g, pos) + 1
    ensures Shape(g, b) && BlocksBut(g, a, b, i, n, BlkOf(g, pos))
  {
    hide Quot, Rest, Limit;
    forall j: nat | j < n && j != BlkOf(g, pos) && Quot(j, g.spz) < Limit(g)
      ensures FileBlock(g, b, i, j) == FileBlock(g, a, i, j)
    {
      if Quot(j, g.spz) == ZnOf(g, pos) {
        GroupDistance(j, BlkOf(g, pos), g.spz);
      } else {
        if PosOf(g, Quot(j, g.spz)) == PosOf(g, ZnOf(g, pos)) { PosUnique(g, Quot(j, g.spz), ZnOf(g, pos)); }
      }
    }
  }

  /** A file that ends in an unmapped zone ends in its first block. */
  lemma EndAtStart(g: Geo, a: Fs, i: nat, e: nat, len: nat)
    requires Shape(g, a) && i < |a.inos| && EndMapped(g, a, i, e) && ZnOf(g, e) < Limit(g)
    requires ZoneOf(g, a.store, a.inos[i].zone, ZnOf(g, e)) == 0 && Rest(e, g.bs) + len <= g.bs && len > 0
    ensures OffOf(g, e) == 0 && BlocksOf(g, e + len) <= BlkOf(g, e) + 1
  {
    SameGroup(e, len - 1, g.bs);
  }

  /** Zones behind the chunk are still unmapped. */
  lemma ChunkBeyond(g: Geo, a: Fs, b: Fs, i: nat, pos: nat, len: nat, e: nat, clean: bool)
    requires Shape(g, a) && Shape(g, b) && i < |a.inos| == |b.inos| && ZnOf(g, pos) < Limit(g) && len > 0
    requires DataSlots(g, a, b, i, PosOf(g, ZnOf(g, pos))) && NothingBeyond(g, a, i, e)
    ensures NothingBeyond(g, b, i, Max(e, pos + len))
  {
    hide Quot, Rest, Limit;
    var n := Max(e, pos + len);
    forall zn | 0 <= zn < Limit(g) && (n > 0 ==> zn > ZnOf(g, n - 1)) ensures ZoneOf(g, b.store, b.inos[i].zone, zn) == 0 {
      QuotMono(pos, n - 1, g.bs);
      QuotMono(BlkOf(g, pos), BlkOf(g, n - 1), g.spz);
      if e > 0 {
        QuotMono(e - 1, n - 1, g.bs);
        QuotMono(BlkOf(g, e - 1), BlkOf(g, n - 1), g.spz);
      }
      if PosOf(g, zn) == PosOf(g, ZnOf(g, pos)) { PosUnique(g, zn, ZnOf(g, pos)); }
      assert ZoneOf(g, a.store, a.inos[i].zone, zn) == 0;
      assert ValidOwner(g, a, i, Data(PosOf(g, zn)));
      assert Own(g, b, i, Data(PosOf(g, zn))) == Own(g, a, i, Data(PosOf(g, zn)));
    }
  }

  /** A chunk `data` has been written over `base` in the block of `pos`. */
  ghost predicate ChunkMade(g: Geo, a: Fs, b: Fs, i: nat, pos: nat, data: seq<byte>, base: Block, e: nat, clean: bool) {
    && FileState(g, a, i, e) && Shape(g, b) && |b.inos| == |a.inos| && ZnOf(g, pos) < Limit(g)
    && data != [] && Rest(pos, g.bs) + |data| <= g.bs && pos <= e && InLimit(g, pos + |data|)
    && Mapped(g, a, b, i, PosOf(g, ZnOf(g, pos)), OffOf(g, pos), clean)
    && |base| == g.bs && GoodBase(g, a, i, pos, |data|, base, e)
    && FileBlock(g, b, i, BlkOf(g, pos)) == Spliced(base, Rest(pos, g.bs), data)
    && (!clean ==> pos == e && EndMapped(g, a, i, e))
  }

  lemma ChunkMadeBlocks(g: Geo, a: Fs, b: Fs, i: nat, pos: nat, data: seq<byte>, base: Block, e: nat, clean: bool)
    requires ChunkMade(g, a, b, i, pos, data, base, e, clean)
    ensures Shape(g, a) && Shape(g, b) && i < |a.inos| && i < |b.inos|
    ensures BlocksBut(g, a, b, i, BlocksOf(g, Max(e, pos + |data|)), BlkOf(g, pos))
  {
    hide Quot, Rest, Limit, ZeroTail, NothingBeyond, GoodBase, EndMapped, Mapped, BlocksBut, FileBlock;
    if !clean && ZoneOf(g, a.store, a.inos[i].zone, ZnOf(g, pos)) == 0 { EndAtStart(g, a, i, e, |data|); }
    MappedBlocks(g, a, b, i, pos, BlocksOf(g, Max(e, pos + |data|)), clean);
  }

  /** The effect of a written chunk on the state of the file. */
  lemma ChunkDoneState(g: Geo, a: Fs, b: Fs, i: nat, pos: nat, data: seq<byte>, base: Block, e: nat, clean: bool)
    requires ChunkMade(g, a, b, i, pos, data, base, e, clean)
    ensures FileState(g, b, i, Max(e, pos + |data|))
  {
    hide Quot, Rest, Limit, ZeroTail, NothingBeyond, GoodBase, EndMapped, Mapped, BlocksBut, FileBlock;
    ChunkMadeBlocks(g, a, b, i, pos, data, base, e, clean);
    ChunkTail(g, a, b, i, pos, data, base, e);
    MappedSlots(g, a, b, i, PosOf(g, ZnOf(g, pos)), OffOf(g, pos), clean);
    ChunkBeyond(g, a, b, i, pos, |data|, e, clean);
  }

  /** The effect of a written chunk on the bytes of the file. */
  lemma ChunkDoneContent(g: Geo, a: Fs, b: Fs, i: nat, pos: nat, data: seq<byte>, base: Block, e: nat, clean: bool)
    requires ChunkMade(g, a, b, i, pos, data, base, e, clean)
    ensures FileState(g, a, i, e) && FileState(g, b, i, Max(e, pos + |data|))
    ensures Content(g, b, i, Max(e, pos + |data|)) == Written(Content(g, a, i, e), pos, data)
  {
    hide Quot, Rest, Limit, ZeroTail, NothingBeyond, GoodBase, EndMapped, Mapped, BlocksBut, FileBlock, Content, Written;
    ChunkMadeBlocks(g, a, b, i, pos, data, base, e, clean);
    ChunkDoneState(g, a, b, i, pos, data, base, e, clean);
    ChunkContent(g, a, b, i, pos, data, base, e);
  }

  lemma MappedSlots(g: Geo, a: Fs, b: Fs, i: nat, p: Pos, off: nat, clean: bool)
    requires Shape(g, a) && ValidOwner(g, a, i, Data(p)) && off < g.spz && Mapped(g, a, b, i, p, off, clean)
    ensures Shape(g, b) && |b.inos| == |a.inos| && DataSlots(g, a, b, i, p) && Elsewhere(g, a, b, i, p)
    ensures Own(g, b, i, Data(p)) != 0
    ensures Own(g, a, i, Data(p)) != 0 ==> Own(g, b, i, Data(p)) == Own(g, a, i, Data(p))
  {
  }

  /** Nothing happened to the file, as far as its data goes. */
  ghost predicate Untouched(g: Geo, a: Fs, b: Fs, i: nat)
    requires Shape(g, a)
  {
    && Shape(g, b) && |b.inos| == |a.inos|
    && (forall p | ValidOwner(g, a, i, Data(p)) :: Own(g, b, i, Data(p)) == Own(g, a, i, Data(p)))
    && forall p, off: nat | ValidOwner(g, a, i, Data(p)) && off < g.spz :: DataBlock(g, b, i, p, off) == DataBlock(g, a, i, p, off)
  }

  lemma UntouchedState(g: Geo, a: Fs, b: Fs, i: nat, e: nat)
    requires Shape(g, a) && FileState(g, a, i, e) && Untouched(g, a, b, i)
    ensures FileState(g, b, i, e) && Content(g, b, i, e) == Content(g, a, i, e)
  {
    forall k: nat | Quot(k, g.spz) < Limit(g) ensures FileBlock(g, b, i, k) == FileBlock(g, a, i, k) {}
    hide Quot, Rest, Limit, Content;
    ContentSays(g, a, i, e);
    ContentSays(g, b, i, e);
    assert ZeroTail(g, b, i, e);
    forall zn | 0 <= zn < Limit(g) && (e > 0 ==> zn > ZnOf(g, e - 1)) ensures ZoneOf(g, b.store, b.inos[i].zone, zn) == 0 {
      assert ZoneOf(g, a.store, a.inos[i].zone, zn) == 0;
      assert Own(g, b, i, Data(PosOf(g, zn))) == Own(g, a, i, Data(PosOf(g, zn)));
    }
    assert Content(g, b, i, e) == Content(g, a, i, e);
  }

  lemma HoleStays(g: Geo, a: Fs, b: Fs, i: nat, p: Pos)
    requires Shape(g, a) && Elsewhere(g, a, b, i, p) && ValidOwner(g, a, i, Data(p))
    requires Own(g, a, i, Data(p)) == 0 && Shape(g, b) && |b.inos| == |a.inos| && Own(g, b, i, Data(p)) == 0
    ensures Untouched(g, a, b, i)
  {
  }

  /** A block of the file being written: which bytes the buffer holds before the copy. */
  ghost predicate Ready(g: Geo, a: Fs, b: Fs, i: nat, pos: nat, len: nat, base: Block, e: nat, clean: bool) {
    && FileState(g, a, i, e) && |b.inos| == |a.inos| && ZnOf(g, pos) < Limit(g) && |base| == g.bs
    && Mapped(g, a, b, i, PosOf(g, ZnOf(g, pos)), OffOf(g, pos), clean)
    && GoodBase(g, a, i, pos, len, base, e)
  }

  /** rw_chunk, writing: get a buffer for the block of `position`, filled with what is needed
      of its old contents. */
  method ChunkBuffer(fs: FileSys, ip: nat, position: nat, chunk: nat, ghost e: nat) returns (r: Code, b: nat, bp: Block)
    requires fs.Valid({}) && FileState(fs.g, fs.Model(), ip, e) && position <= e && ZnOf(fs.g, position) < Limit(fs.g)
    requires 0 < chunk && Rest(position, fs.g.bs) + chunk <= fs.g.bs
    requires fs.inos[ip].size <= e && (position >= fs.inos[ip].size ==> position == e)
    modifies fs
    ensures fs.Valid({}) && Shape(fs.g, old(fs.Model())) && |fs.inos| == |old(fs.inos)| && (r == OK || r == ENOSPC)
    ensures r == OK ==>
      && Ready(fs.g, old(fs.Model()), fs.Model(), ip, position, chunk, bp, e, position != old(fs.inos)[ip].size)
      && b == BlockNo(fs.g, Own(fs.g, fs.Model(), ip, Data(PosOf(fs.g, ZnOf(fs.g, position)))), OffOf(fs.g, position))
    ensures r == ENOSPC ==> Untouched(fs.g, old(fs.Model()), fs.Model(), ip) && Unmapped(fs.g, fs.Model(), ip, position)
    ensures Full(old(fs.bits)) && Unmapped(fs.g, old(fs.Model()), ip, position) ==> r == ENOSPC
    ensures r == ENOSPC ==> Full(old(fs.bits)) || ZnOf(fs.g, position) >= fs.g.ndz
    ensures r == OK && Unmapped(fs.g, old(fs.Model()), ip, position) ==>
      && Own(fs.g, fs.Model(), ip, Data(PosOf(fs.g, ZnOf(fs.g, position)))) == Picked(fs.g, old(fs.Model()), fs.chunk, ip)
      && DataBlock(fs.g, fs.Model(), ip, PosOf(fs.g, ZnOf(fs.g, position)), OffOf(fs.g, position)) == Zeros(fs.g.bs)
    ensures Elsewhere(fs.g, old(fs.Model()), fs.Model(), ip, PosOf(fs.g, ZnOf(fs.g, position)))
  {
    hide Tidy, Elsewhere, Zeros, DataFrame, SameSlots, BlockNo, Quot, Rest, Limit, Mapped, GoodBase, ZeroTail, NothingBeyond, Untouched;
    var g := fs.g;
    ghost var a := fs.Model();
    ghost var p := PosOf(g, ZnOf(g, position));
    ElsewhereRefl(g, a, ip, p);
    var off := Rest(position, g.bs);
    r := OK;
    b := fs.ReadMap(ip, position);
    if Own(g, a, ip, Data(p)) != 0 { LegalNonZero(g, a, {}, ip, Data(p), OffOf(g, position)); }
    if b == NO_BLOCK {
      bp := Zeros(g.bs);
      r, b := NewBlock(fs, ip, position);
      if r != OK {
        TidyShape(g, fs.Model(), {});
        HoleStays(g, a, fs.Model(), ip, p);
        return;
      }
      BaseIsZero(g, a, ip, position, chunk, e);
      MappedSlots(g, a, fs.Model(), ip, p, OffOf(g, position), position != a.inos[ip].size);
    } else {
      var n := if chunk == g.bs then NoRead else Access.Normal;
      if off == 0 && position >= fs.inos[ip].size { n := NoRead; }
      bp := fs.GetBlock(b, n);
      if chunk == g.bs { BaseIsAny(g, a, ip, position, bp, e); }
      else if n == Access.Normal { BaseIsOld(g, a, ip, position, chunk, e); }
      IsMapped(g, a, a, ip, p, OffOf(g, position), position != a.inos[ip].size);
    }
    if chunk != g.bs && position >= fs.inos[ip].size && off == 0 {
      BaseIsZero(g, a, ip, position, chunk, e);
      MappedWrite(g, a, fs.Model(), {}, ip, p, OffOf(g, position), position != a.inos[ip].size, Zeros(g.bs));
      bp := Zeros(g.bs);
      fs.Dirty(b, bp);
      MappedSlots(g, a, fs.Model(), ip, p, OffOf(g, position), position != a.inos[ip].size);
    }
  }
}
