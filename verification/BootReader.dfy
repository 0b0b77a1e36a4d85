module BootReader {
  /** The boot monitor's own reader of file systems, with its one-block caches of indirect blocks. */

  import opened Storage
  import opened Indirect
  import opened BlockMap
  import opened Zones
  import opened FileContent

  datatype Abs = PastEnd | Block_(b: nat)

  /** What r_vir2abs answers for block `k` of a file: like read_map for a block that is there, but
      the offset in the zone for one that is not, unless a whole indirect block is missing. */
  function BootBlock(g: Geo, st: Store, zone: seq<nat>, k: nat): nat
    requires GeoOk(g) && |zone| == g.ndz + 2 && Quot(k, g.spz) < Limit(g)
  {
    var p := PosOf(g, Quot(k, g.spz));
    if p.Single? && zone[g.ndz] == 0 then 0
    else if p.Double? && Under(g, st, zone[g.ndz + 1], p.j) == 0 then 0
    else BlockNo(g, SlotZone(g, st, zone, Data(p)), Rest(k, g.spz))
  }

  /** read_map's answer for the same block. */
  function MapBlock(g: Geo, st: Store, zone: seq<nat>, k: nat): nat
    requires GeoOk(g) && |zone| == g.ndz + 2 && Quot(k, g.spz) < Limit(g)
  {
    var z := ZoneOf(g, st, zone, Quot(k, g.spz));
    if z == NO_ZONE then NO_BLOCK else BlockNo(g, z, Rest(k, g.spz))
  }

  /** The two readers agree on every block that is mapped, and on a hole exactly if it is the first
      block of its zone or its indirect block is missing; so always, if zones are single blocks. */
  lemma ReadersAgree(g: Geo, st: Store, zone: seq<nat>, k: nat)
    requires GeoOk(g) && |zone| == g.ndz + 2 && Quot(k, g.spz) < Limit(g)
    ensures ZoneOf(g, st, zone, Quot(k, g.spz)) != 0 ==> BootBlock(g, st, zone, k) == MapBlock(g, st, zone, k)
    ensures
      var p := PosOf(g, Quot(k, g.spz));
      var missing := (p.Single? && zone[g.ndz] == 0) || (p.Double? && Under(g, st, zone[g.ndz + 1], p.j) == 0);
      ZoneOf(g, st, zone, Quot(k, g.spz)) == 0 ==>
        (BootBlock(g, st, zone, k) == MapBlock(g, st, zone, k) <==> missing || Rest(k, g.spz) == 0)
    ensures g.spz == 1 ==> BootBlock(g, st, zone, k) == MapBlock(g, st, zone, k)
  {
    hide Quot, Limit;
  }

  /** Such a hole: the second block of a file without its first zone is block 1 of the disk to the boot
      reader, and no block to the file server. */
  lemma HoleAnswered(g: Geo, st: Store, zone: seq<nat>)
    requires GeoOk(g) && |zone| == g.ndz + 2 && g.spz > 1 && zone[0] == 0
    ensures Quot(1, g.spz) < Limit(g) && BootBlock(g, st, zone, 1) == 1 && MapBlock(g, st, zone, 1) == NO_BLOCK
  {
    QuotIs(1, 0, 1, g.spz);
  }

  class RawFs {
    const g: Geo
    // The disk does not change while the monitor reads it.
    const disk: Store
    // curfil, and the indirect blocks last read with their addresses.
    var zone: seq<nat>
    var size: nat
    var indir: Block
    var dindir: Block
    var aIndir: nat
    var aDindir: nat

    ghost predicate Valid()
      reads this
    {
      && GeoOk(g) && g.native && |zone| == g.ndz + 2 && InLimit(g, size)
      && (aIndir != 0 ==> indir == At(g, disk, aIndir)) && (aDindir != 0 ==> dindir == At(g, disk, aDindir))
    }

    /** readblock. */
    method ReadBlock(b: nat) returns (buf: Block)
      ensures buf == At(g, disk, b)
    {
      buf := At(g, disk, b);
    }

    /** r_stat: another file; the cached indirect blocks are forgotten. */
    method Stat(zone: seq<nat>, size: nat)
      requires GeoOk(g) && g.native && |zone| == g.ndz + 2 && InLimit(g, size)
      modifies this
      ensures Valid() && this.zone == zone && this.size == size
    {
      this.zone, this.size := zone, size;
      aIndir, aDindir := 0, 0;
    }

    /** r_vir2abs: where on the disk a block of the current file is. */
    method Vir2Abs(virblk: nat) returns (r: Abs)
      requires Valid()
      modifies this`indir, this`dindir, this`aIndir, this`aDindir
      ensures Valid()
      ensures r.PastEnd? <==> virblk * g.bs >= size
      ensures r.Block_? ==> Quot(virblk, g.spz) < Limit(g) && r.b == BootBlock(g, disk, zone, virblk)
    {
      hide Quot, Rest, Limit, At, RdIndir, InLimit;
      if virblk * g.bs >= size { return PastEnd; }
      BlockInLimit(g, size, virblk);
      QuotRest(virblk, g.spz);
      var zn := Quot(virblk, g.spz);
      var zoneIndex := virblk - BlockNo(g, zn, 0);
      ghost var p := PosOf(g, zn);
      if zn < g.ndz {
        return Block_(BlockNo(g, zone[zn], 0) + zoneIndex);
      }
      var rel := zn - g.ndz;
      var indZone;
      if rel < g.nind {
        indZone := zone[g.ndz];
      } else {
        indZone := zone[g.ndz + 1];
        if indZone == 0 { return Block_(0); }
        var z := BlockNo(g, indZone, 0);
        Positive(indZone, g.spz);
        if aDindir != z {
          dindir := ReadBlock(z);
          aDindir := z;
        }
        rel := rel - g.nind;
        var i := Quot(rel, g.nind);
        EntryFits(g, i);
        indZone := RdIndir(dindir, i, g.width, true);
        rel := Rest(rel, g.nind);
      }
      if indZone == 0 { return Block_(0); }
      var z := BlockNo(g, indZone, 0);
      Positive(indZone, g.spz);
      if aIndir != z {
        indir := ReadBlock(z);
        aIndir := z;
      }
      EntryFits(g, rel);
      var last := RdIndir(indir, rel, g.width, true);
      r := Block_(BlockNo(g, last, 0) + zoneIndex);
    }

    /** For every block of the file, in whatever order they are asked for, the monitor finds the
        block that the file server would read, as long as the block is there. */
    method SameBlock(virblk: nat) returns (r: Abs)
      requires Valid() && virblk * g.bs < size
      modifies this`indir, this`dindir, this`aIndir, this`aDindir
      ensures Valid() && r.Block_? && Quot(virblk, g.spz) < Limit(g) && ZnOf(g, virblk * g.bs) == Quot(virblk, g.spz)
      ensures var z := ZoneOf(g, disk, zone, ZnOf(g, virblk * g.bs));
        z != 0 || g.spz == 1 ==> r.b == if z == NO_ZONE then NO_BLOCK else BlockNo(g, z, OffOf(g, virblk * g.bs))
    {
      hide Quot, Rest, Limit, BootBlock, SlotZone, InLimit;
      r := Vir2Abs(virblk);
      QuotIs(virblk * g.bs, virblk, 0, g.bs);
      ReadersAgree(g, disk, zone, virblk);
    }
  }

  lemma Positive(z: nat, n: nat)
    requires z > 0 && n > 0
    ensures z * n > 0
  {
  }

  lemma BlockInLimit(g: Geo, size: nat, k: nat)
    requires g.bs > 0 && g.spz > 0 && InLimit(g, size) && k * g.bs < size
    ensures Quot(k, g.spz) < Limit(g)
  {
    hide Quot, Rest, Limit;
    InLimitBelow(g, size, k * g.bs);
    QuotIs(k * g.bs, k, 0, g.bs);
  }
}
