/** A write right at the end of a file of which that zone is not mapped: new_block does not clear the
    zone it gets there. */
module FileEnds {
  import opened Storage
  import opened Indirect
  import opened BlockMap
  import opened BitAlloc
  import opened Zones
  import opened FileContent
  import opened Files

  /** Byte `q` of file `i` once zone `z` is the zone of its end: the blocks below the one of the end
      hold what the device held. */
  function ExposedAt(g: Geo, fs: Fs, i: nat, z: nat, q: nat): byte
    requires Shape(g, fs) && i < |fs.inos| && ZnOf(g, q) < Limit(g)
  {
    var size := fs.inos[i].size;
    if ZnOf(g, q) == ZnOf(g, size) && BlkOf(g, q) < BlkOf(g, size) then At(g, fs.store, BlockNo(g, z, OffOf(g, q)))[Rest(q, g.bs)]
    else ByteAt(g, fs, i, q)
  }

  /** The first `n` bytes then. */
  function Exposed(g: Geo, fs: Fs, i: nat, z: nat, n: nat): (s: seq<byte>)
    requires Shape(g, fs) && i < |fs.inos| && InLimit(g, n)
    ensures |s| == n
    ensures forall q :: 0 <= q < n ==> ZnOf(g, q) < Limit(g) && s[q] == ExposedAt(g, fs, i, z, q)
  {
    if n == 0 then []
    else
      InLimitBelow(g, n, n - 1);
      Exposed(g, fs, i, z, n - 1) + [ExposedAt(g, fs, i, z, n - 1)]
  }

  ghost predicate BlankBelow(g: Geo, st: Store, z: nat, off: nat) {
    forall x: nat | x < off :: At(g, st, BlockNo(g, z, x)) == Zeros(g.bs)
  }

  /** Every byte before the zone of the end is as it was. */
  lemma ExposedBefore(g: Geo, fs: Fs, i: nat, z: nat, q: nat)
    requires Shape(g, fs) && i < |fs.inos| && InLimit(g, fs.inos[i].size) && q < fs.inos[i].size
    requires ZnOf(g, q) != ZnOf(g, fs.inos[i].size)
    ensures Exposed(g, fs, i, z, fs.inos[i].size)[q] == Content(g, fs, i, fs.inos[i].size)[q]
  {
    hide Quot, Rest, Limit, FileBlock;
    ContentSays(g, fs, i, fs.inos[i].size);
  }

  lemma ExposedSays(g: Geo, fs: Fs, i: nat, z: nat, n: nat)
    requires Shape(g, fs) && i < |fs.inos| && InLimit(g, n)
    ensures |Exposed(g, fs, i, z, n)| == n
    ensures forall q :: 0 <= q < n ==> ZnOf(g, q) < Limit(g) && Exposed(g, fs, i, z, n)[q] == ExposedAt(g, fs, i, z, q)
  {
  }

  /** The place of byte `r` of block `x` of the zone of the end. */
  function PlaceIn(g: Geo, e: nat, x: nat, r: nat): nat
    requires g.bs > 0 && g.spz > 0
  {
    (ZnOf(g, e) * g.spz + x) * g.bs + r
  }

  lemma PlaceInIs(g: Geo, e: nat, x: nat, r: nat)
    requires g.bs > 0 && g.spz > 0 && x < OffOf(g, e) && r < g.bs
    ensures var q := PlaceIn(g, e, x, r);
      q < e && ZnOf(g, q) == ZnOf(g, e) && OffOf(g, q) == x && Rest(q, g.bs) == r && BlkOf(g, q) < BlkOf(g, e)
  {
    hide Quot, Rest;
    var q, k := PlaceIn(g, e, x, r), ZnOf(g, e) * g.spz + x;
    QuotIs(q, k, r, g.bs);
    QuotIs(k, ZnOf(g, e), x, g.spz);
    QuotRest(BlkOf(g, e), g.spz);
    if q >= e { QuotMono(e, q, g.bs); }
  }

  /** A byte in a zone that is not mapped reads as zero. */
  lemma HoleByte(g: Geo, fs: Fs, i: nat, q: nat)
    requires Shape(g, fs) && i < |fs.inos| && ZnOf(g, q) < Limit(g) && Unmapped(g, fs, i, q)
    ensures ByteAt(g, fs, i, q) == 0
  {
    hide Quot, Rest, Limit;
    assert Own(g, fs, i, Data(PosOf(g, ZnOf(g, q)))) == 0;
  }

  lemma OpenEnd(g: Geo, fs: Fs, i: nat, e: nat)
    requires Shape(g, fs) && i < |fs.inos| && !EndMapped(g, fs, i, e)
    ensures OffOf(g, e) != 0 && ZnOf(g, e) < Limit(g) && Unmapped(g, fs, i, e) && e > 0 && ZnOf(g, e - 1) == ZnOf(g, e)
  {
    hide Quot, Rest, Limit;
    BackInZone(g, e);
  }

  /** No byte before the end changes if and only if the blocks of the zone below the one of the end are
      blank. */
  lemma ExposedRight(g: Geo, fs: Fs, i: nat, z: nat)
    requires Shape(g, fs) && i < |fs.inos| && InLimit(g, fs.inos[i].size) && !EndMapped(g, fs, i, fs.inos[i].size)
    ensures var e := fs.inos[i].size;
      Exposed(g, fs, i, z, e) == Content(g, fs, i, e) <==> BlankBelow(g, fs.store, z, OffOf(g, e))
  {
    hide Quot, Rest, Limit, FileBlock, Exposed, Content, EndMapped, ByteAt;
    var e := fs.inos[i].size;
    OpenEnd(g, fs, i, e);
    ContentSays(g, fs, i, e);
    ExposedSays(g, fs, i, z, e);
    var was, now := Content(g, fs, i, e), Exposed(g, fs, i, z, e);
    if was == now {
      forall x: nat, r | x < OffOf(g, e) && 0 <= r < g.bs ensures At(g, fs.store, BlockNo(g, z, x))[r] == 0 {
        PlaceInIs(g, e, x, r);
        var q := PlaceIn(g, e, x, r);
        SameHole(g, fs, i, e, q);
        assert was[q] == now[q];
      }
      forall x: nat | x < OffOf(g, e) ensures At(g, fs.store, BlockNo(g, z, x)) == Zeros(g.bs) {}
    }
    if BlankBelow(g, fs.store, z, OffOf(g, e)) {
      forall q | 0 <= q < e ensures now[q] == was[q] {
        if ZnOf(g, q) == ZnOf(g, e) && BlkOf(g, q) < BlkOf(g, e) {
          SameHole(g, fs, i, e, q);
          GroupDistance(BlkOf(g, q), BlkOf(g, e), g.spz);
          assert At(g, fs.store, BlockNo(g, z, OffOf(g, q))) == Zeros(g.bs);
        }
      }
    }
  }

  lemma SameHole(g: Geo, fs: Fs, i: nat, e: nat, q: nat)
    requires Shape(g, fs) && i < |fs.inos| && ZnOf(g, e) < Limit(g) && Unmapped(g, fs, i, e) && ZnOf(g, q) == ZnOf(g, e)
    ensures ByteAt(g, fs, i, q) == 0
  {
    hide Quot, Rest, Limit, ByteAt;
    HoleByte(g, fs, i, q);
  }

  /** new_block has put a zone in at the end of the file. */
  ghost predicate Opens(g: Geo, a: Fs, b: Fs, i: nat, e: nat) {
    && FileState(g, a, i, e) && a.inos[i].size == e && !EndMapped(g, a, i, e) && ZnOf(g, e) < Limit(g)
    && Mapped(g, a, b, i, PosOf(g, ZnOf(g, e)), OffOf(g, e), false) && |b.inos| == |a.inos|
    && DataBlock(g, b, i, PosOf(g, ZnOf(g, e)), OffOf(g, e)) == Zeros(g.bs)
  }

  lemma OpensState(g: Geo, a: Fs, b: Fs, i: nat, e: nat)
    requires Opens(g, a, b, i, e)
    ensures FileState(g, b, i, e) && EndMapped(g, b, i, e)
  {
    hide Quot, Rest, Limit;
    OpenEnd(g, a, i, e);
    var p := PosOf(g, ZnOf(g, e));
    assert FileBlock(g, b, i, BlkOf(g, e)) == Zeros(g.bs);
    assert ZeroTail(g, b, i, e);
    forall zn | 0 <= zn < Limit(g) && zn > ZnOf(g, e - 1) ensures ZoneOf(g, b.store, b.inos[i].zone, zn) == 0 {
      if PosOf(g, zn) == p { PosUnique(g, zn, ZnOf(g, e)); }
      assert ZoneOf(g, a.store, a.inos[i].zone, zn) == 0;
      assert ValidOwner(g, a, i, Data(PosOf(g, zn)));
      assert Own(g, b, i, Data(PosOf(g, zn))) == Own(g, a, i, Data(PosOf(g, zn)));
    }
    assert NothingBeyond(g, b, i, e);
  }

  lemma OpensByte(g: Geo, a: Fs, b: Fs, i: nat, e: nat, z: nat, q: nat)
    requires Opens(g, a, b, i, e) && q < e && ZnOf(g, q) < Limit(g)
    requires Shape(g, b) && z == Own(g, b, i, Data(PosOf(g, ZnOf(g, e))))
    ensures ByteAt(g, b, i, q) == ExposedAt(g, a, i, z, q)
  {
    hide Quot, Rest, Limit, NothingBeyond, ZeroTail;
    OpenEnd(g, a, i, e);
    var p := PosOf(g, ZnOf(g, e));
    if ZnOf(g, q) != ZnOf(g, e) {
      if PosOf(g, ZnOf(g, q)) == p { PosUnique(g, ZnOf(g, q), ZnOf(g, e)); }
      assert FileBlock(g, b, i, BlkOf(g, q)) == FileBlock(g, a, i, BlkOf(g, q));
    } else {
      QuotMono(q, e, g.bs);
      GroupDistance(BlkOf(g, q), BlkOf(g, e), g.spz);
      HoleByte(g, a, i, q);
    }
  }

  lemma OpensContent(g: Geo, a: Fs, b: Fs, i: nat, e: nat, z: nat)
    requires Opens(g, a, b, i, e) && Shape(g, b) && z == Own(g, b, i, Data(PosOf(g, ZnOf(g, e))))
    ensures InLimit(g, e) && Content(g, b, i, e) == Exposed(g, a, i, z, e)
  {
    hide Quot, Rest, Limit, FileBlock, ByteAt, ExposedAt, Exposed, Content, EndMapped, Mapped, NothingBeyond, ZeroTail;
    ContentSays(g, b, i, e);
    ExposedSays(g, a, i, z, e);
    forall q | 0 <= q < e ensures Content(g, b, i, e)[q] == Exposed(g, a, i, z, e)[q] {
      OpensByte(g, a, b, i, e, z, q);
    }
  }

  /** The buffer for the block of the end is as good for what the file is then. */
  lemma OpensReady(g: Geo, a: Fs, b: Fs, i: nat, e: nat, len: nat, base: Block)
    requires Opens(g, a, b, i, e) && Ready(g, a, b, i, e, len, base, e, false)
    ensures Ready(g, b, b, i, e, len, base, e, false) && EndMapped(g, b, i, e)
  {
    hide Quot, Rest, Limit, EndMapped;
    OpensState(g, a, b, i, e);
    OpenEnd(g, a, i, e);
    assert FileBlock(g, b, i, BlkOf(g, e)) == Zeros(g.bs);
    assert Own(g, a, i, Data(PosOf(g, ZnOf(g, e)))) == 0;
    assert FileBlock(g, a, i, BlkOf(g, e)) == Zeros(g.bs);
    assert GoodBase(g, b, i, e, len, base, e);
    ElsewhereRefl(g, b, i, PosOf(g, ZnOf(g, e)));
    IsMapped(g, b, b, i, PosOf(g, ZnOf(g, e)), OffOf(g, e), false);
  }
}
