/** alloc_zone, free_zone, read_map and write_map over the contents the block cache presents. */
module Zones {
  import opened Storage
  import opened Indirect
  import opened BlockMap
  import opened BitAlloc

  const NO_ZONE: nat := 0
  const NO_BLOCK: nat := 0

  datatype Code = OK | ENOSPC | EFBIG
  datatype Access = Normal | NoRead

  // ---------- Taking zones from the map and giving them back ----------

  lemma TidyAlloc(g: Geo, a: Fs, held: set<nat>, z: nat, hint: nat)
    requires Tidy(g, a, held) && LegalZone(g, z) && !a.bits[BitOf(g, z)]
    ensures z !in held && Tidy(g, a.(bits := a.bits[BitOf(g, z) := true], zsearch := hint), held + {z})
  {
    var b := a.(bits := a.bits[BitOf(g, z) := true], zsearch := hint);
    assert Shape(g, b);
    forall i, s | ValidOwner(g, b, i, s) ensures Own(g, b, i, s) == Own(g, a, i, s) {}
    forall y ensures Reached(g, b, y) <==> Reached(g, a, y) { SameReached(g, a, b, y); }
    assert !Reached(g, a, z);
    forall y | LegalZone(g, y) && y != z ensures b.bits[BitOf(g, y)] == a.bits[BitOf(g, y)] {}
  }

  lemma TidyFree(g: Geo, a: Fs, held: set<nat>, z: nat, hint: nat)
    requires Tidy(g, a, held) && z in held
    ensures a.bits[BitOf(g, z)]
    ensures Tidy(g, a.(bits := a.bits[BitOf(g, z) := false], zsearch := hint), held - {z})
  {
    var b := a.(bits := a.bits[BitOf(g, z) := false], zsearch := hint);
    assert Shape(g, b);
    forall i, s | ValidOwner(g, b, i, s) ensures Own(g, b, i, s) == Own(g, a, i, s) {}
    forall y ensures Reached(g, b, y) <==> Reached(g, a, y) { SameReached(g, a, b, y); }
    assert !Reached(g, a, z);
    forall y | LegalZone(g, y) && y != z ensures b.bits[BitOf(g, y)] == a.bits[BitOf(g, y)] {}
  }

  lemma SameReached(g: Geo, a: Fs, b: Fs, y: nat)
    requires Shape(g, a) && Shape(g, b) && b.store == a.store && b.inos == a.inos
    ensures Reached(g, b, y) <==> Reached(g, a, y)
  {
    if Reached(g, a, y) {
      var i, s :| ValidOwner(g, a, i, s) && Own(g, a, i, s) == y;
      assert ValidOwner(g, b, i, s) && Own(g, b, i, s) == y;
    }
    if Reached(g, b, y) {
      var i, s :| ValidOwner(g, b, i, s) && Own(g, b, i, s) == y;
      assert ValidOwner(g, a, i, s) && Own(g, a, i, s) == y;
    }
  }

  /** The zone alloc_zone picks when asked for one near `near`; NO_ZONE if none is free. */
  function NextZone(g: Geo, bits: seq<bool>, zsearch: nat, chunk: nat, near: nat): nat
    requires chunk > 0
  {
    // In C the subtraction wraps for zone 0, which is then out of range.
    var bit := if near == g.first then zsearch else if near < g.first - 1 then |bits| else near - (g.first - 1);
    var b := Found(bits, bit, chunk);
    if b == NO_BIT then NO_ZONE else g.first - 1 + b
  }

  /** The bit where alloc_zone begins to look: the hint if it is asked for the first data zone, else the
      bit of the zone asked for, or 0 if there is none; and that from the start of its chunk on. */
  ghost predicate LooksFrom(g: Geo, size: nat, zsearch: nat, chunk: nat, near: nat, from: nat)
    requires chunk > 0
  {
    var bit := if near == g.first then zsearch else near - (g.first - 1);
    from % chunk == 0 && from <= (if 0 <= bit < size then bit else 0) < from + chunk
  }

  /** Bit `b` is the first clear one from `from` on, or if there is none, the first clear one. */
  ghost predicate FirstClear(bits: seq<bool>, from: nat, b: int) {
    && 0 < b < |bits| && !bits[b]
    && if b >= from then forall k :: from <= k < b ==> bits[k]
       else (forall k :: from <= k < |bits| ==> bits[k]) && forall k :: 0 <= k < b ==> bits[k]
  }

  /** Zone `z` is the first free one from where alloc_zone looks, or if there is none, the first free one. */
  ghost predicate FirstFree(g: Geo, bits: seq<bool>, zsearch: nat, chunk: nat, near: nat, z: nat)
    requires chunk > 0
  {
    forall from: nat | LooksFrom(g, |bits|, zsearch, chunk, near, from) :: FirstClear(bits, from, z - (g.first - 1))
  }

  /** The zone picked is that one; there is none exactly if no zone is free. */
  lemma NextZoneIs(g: Geo, bits: seq<bool>, zsearch: nat, chunk: nat, near: nat)
    requires chunk > 0 && g.first > 0 && |bits| > 0 && bits[0]
    ensures var z := NextZone(g, bits, zsearch, chunk, near);
      if z == NO_ZONE then forall k :: 0 <= k < |bits| ==> bits[k] else FirstFree(g, bits, zsearch, chunk, near, z)
  {
    hide Found;
    var bit := if near == g.first then zsearch else if near < g.first - 1 then |bits| else near - (g.first - 1);
    FoundComplete(bits, bit, chunk);
    forall from: nat | NextZone(g, bits, zsearch, chunk, near) != NO_ZONE && LooksFrom(g, |bits|, zsearch, chunk, near, from)
      ensures FirstClear(bits, from, Found(bits, bit, chunk))
    {
      FoundFirst(bits, bit, chunk, from);
    }
  }

  /** Zone `z` holds what it held. */
  ghost predicate SameIn(g: Geo, before: Store, after: Store, z: nat) {
    forall x: nat | x < g.spz :: At(g, after, BlockNo(g, z, x)) == At(g, before, BlockNo(g, z, x))
  }

  /** So do all zones in hand. */
  ghost predicate SameHeld(g: Geo, before: Store, after: Store, held: set<nat>) {
    forall z | z in held :: SameIn(g, before, after, z)
  }

  lemma WriteSpares(g: Geo, st: Store, y: nat, blk: Block, held: set<nat>)
    requires y !in held && g.spz > 0
    ensures SameHeld(g, st, st[BlockNo(g, y, 0) := blk], held)
  {
    var st' := st[BlockNo(g, y, 0) := blk];
    forall z, x: nat | z in held && x < g.spz ensures At(g, st', BlockNo(g, z, x)) == At(g, st, BlockNo(g, z, x)) {
      if BlockNo(g, z, x) == BlockNo(g, y, 0) { BlockNoUnique(g, z, x, y, 0); }
    }
  }

  lemma OwnedIsNotHeld(g: Geo, a: Fs, held: set<nat>, i: nat, s: Slot)
    requires Tidy(g, a, held) && ValidOwner(g, a, i, s)
    ensures Shape(g, a) && Own(g, a, i, s) !in held
  {
  }

  lemma SparesRefl(g: Geo, st: Store, held: set<nat>)
    ensures SameHeld(g, st, st, held)
  {
  }

  lemma SparesThen(g: Geo, a: Store, b: Store, c: Store, held: set<nat>)
    requires SameHeld(g, a, b, held) && SameHeld(g, b, c, held)
    ensures SameHeld(g, a, c, held)
  {
    forall z, x: nat | z in held && x < g.spz ensures At(g, c, BlockNo(g, z, x)) == At(g, a, BlockNo(g, z, x)) {
      assert SameIn(g, a, b, z) && SameIn(g, b, c, z);
    }
  }

  // ---------- From a position to a zone ----------

  /** Relative zone `zn` of a file leads to zone `z`, 0 for none: by the fields of the inode, by an entry
      of the single indirect block, or by an entry of a block named in the double indirect block. */
  ghost predicate Leads(g: Geo, st: Store, zone: seq<nat>, zn: nat, z: nat)
    requires GeoOk(g) && |zone| == g.ndz + 2 && zn < g.ndz + g.nind + g.nind * g.nind
  {
    if zn < g.ndz then z == zone[zn]
    else if zn < g.ndz + g.nind then LeadsBy(g, st, zone[g.ndz], zn - g.ndz, z)
    else
      var e := zn - g.ndz - g.nind;
      DivLess(e, g.nind, g.nind);
      LeadsTwice(g, st, zone[g.ndz + 1], Quot(e, g.nind), Rest(e, g.nind), z)
  }

  ghost predicate LeadsTwice(g: Geo, st: Store, top: nat, i: nat, j: nat, z: nat)
    requires GeoOk(g) && i < g.nind && j < g.nind
  {
    exists y: nat :: LeadsBy(g, st, top, i, y) && LeadsBy(g, st, y, j, z)
  }

  /** Entry `i` of the indirect block in zone `y` names `z`; without a zone there is none. */
  ghost predicate LeadsBy(g: Geo, st: Store, y: nat, i: nat, z: nat)
    requires GeoOk(g) && i < g.nind
  {
    EntryWithin(g, i);
    if y == 0 then z == 0 else Names(At(g, st, y * g.spz), i, g.width, g.native, z)
  }

  lemma EntryWithin(g: Geo, i: nat)
    requires GeoOk(g) && i < g.nind
    ensures (g.width == 2 || g.width == 4) && g.width * i + g.width <= g.bs && EntryPos(i + 1, g.width) <= g.bs
  {
  }

  lemma UnderNames(g: Geo, st: Store, y: nat, i: nat)
    requires GeoOk(g) && i < g.nind
    ensures forall z :: LeadsBy(g, st, y, i, z) <==> z == Under(g, st, y, i)
  {
    EntryWithin(g, i);
    if y != 0 { RdNames(At(g, st, y * g.spz), i, g.width, g.native); }
  }

  lemma TwiceNames(g: Geo, st: Store, top: nat, i: nat, j: nat)
    requires GeoOk(g) && i < g.nind && j < g.nind
    ensures forall z :: LeadsTwice(g, st, top, i, j, z) <==> z == Under(g, st, Under(g, st, top, i), j)
  {
    hide LeadsBy, Under;
    UnderNames(g, st, top, i);
    UnderNames(g, st, Under(g, st, top, i), j);
    assert LeadsBy(g, st, top, i, Under(g, st, top, i));
  }

  /** The zone a position has is the one it leads to. */
  lemma ZoneLeads(g: Geo, st: Store, zone: seq<nat>, zn: nat)
    requires GeoOk(g) && |zone| == g.ndz + 2 && zn < Limit(g)
    ensures forall z :: Leads(g, st, zone, zn, z) <==> z == ZoneOf(g, st, zone, zn)
  {
    hide LeadsBy, Under, LeadsTwice, Quot, Rest;
    if g.ndz <= zn < g.ndz + g.nind {
      UnderNames(g, st, zone[g.ndz], zn - g.ndz);
    } else if zn >= g.ndz + g.nind {
      var e := zn - g.ndz - g.nind;
      DivLess(e, g.nind, g.nind);
      TwiceNames(g, st, zone[g.ndz + 1], Quot(e, g.nind), Rest(e, g.nind));
    }
  }

  /** Zone `z` is the zone of the byte at `position`. */
  ghost predicate LeadsAt(g: Geo, st: Store, zone: seq<nat>, position: nat, z: nat)
    requires GeoOk(g) && |zone| == g.ndz + 2
  {
    var zn := Quot(Quot(position, g.bs), g.spz);
    zn < g.ndz + g.nind + g.nind * g.nind && Leads(g, st, zone, zn, z)
  }

  /** Block `b` is the block of the byte at `position`, 0 if it has none. */
  ghost predicate BlockAt(g: Geo, st: Store, zone: seq<nat>, position: nat, b: nat)
    requires GeoOk(g) && |zone| == g.ndz + 2
  {
    exists z: nat :: LeadsAt(g, st, zone, position, z) && b == if z == 0 then 0 else z * g.spz + Rest(Quot(position, g.bs), g.spz)
  }

  lemma MapLeads(g: Geo, st: Store, zone: seq<nat>, position: nat)
    requires GeoOk(g) && |zone| == g.ndz + 2 && ZnOf(g, position) < Limit(g)
    ensures forall z :: LeadsAt(g, st, zone, position, z) <==> z == ZoneOf(g, st, zone, ZnOf(g, position))
    ensures var z := ZoneOf(g, st, zone, ZnOf(g, position));
      BlockAt(g, st, zone, position, if z == NO_ZONE then NO_BLOCK else BlockNo(g, z, OffOf(g, position)))
  {
    hide Leads, ZoneOf, Quot, Rest;
    ZoneLeads(g, st, zone, ZnOf(g, position));
    assert LeadsAt(g, st, zone, position, ZoneOf(g, st, zone, ZnOf(g, position)));
  }

  class FileSys {
    const g: Geo
    const chunk: nat
    // The blocks of the device as the cache presents them.
    var store: Store
    // The zone map, s_zsearch and the inode table.
    var bits: seq<bool>
    var zsearch: nat
    var inos: seq<Ino>

    ghost function Model(): Fs
      reads this
    {
      Fs(store, bits, zsearch, inos)
    }

    /** Zone conservation with `held` in hand, and a good search hint. */
    ghost predicate Valid(held: set<nat>)
      reads this
    {
      chunk > 0 && Tidy(g, Model(), held) && HintOk(bits, zsearch) && zsearch < |bits|
    }

    /** get_block and put_block, as seen above the cache: a block fetched with NO_READ has
        unspecified contents. */
    method GetBlock(b: nat, access: Access) returns (data: Block)
      ensures |data| == g.bs && (access == Normal ==> data == At(g, store, b))
    {
      if access == Normal { return At(g, store, b); }
      assert |Zeros(g.bs)| == g.bs;
      data :| |data| == g.bs;
    }

    /** A holder's change of a block, marked dirty. */
    method Dirty(b: nat, data: Block)
      requires |data| == g.bs
      modifies this`store
      ensures store == old(store)[b := data]
    {
      store := store[b := data];
    }

    /** alloc_zone: allocate a new zone, near `near` unless that is the first data zone. */
    method AllocZone(near: nat, ghost held: set<nat>) returns (z: nat)
      requires Valid(held)
      modifies this`bits, this`zsearch
      ensures z == NextZone(g, old(bits), old(zsearch), chunk, near)
      ensures z != NO_ZONE ==> zsearch == if near == g.first then BitOf(g, z) else old(zsearch)
      ensures z != NO_ZONE ==> FirstFree(g, old(bits), old(zsearch), chunk, near, z)
      ensures z == NO_ZONE ==> bits == old(bits) && zsearch == old(zsearch) && forall k :: 0 <= k < |bits| ==> bits[k]
      ensures z != NO_ZONE ==> LegalZone(g, z) && z !in held && Valid(held + {z}) && !old(bits)[BitOf(g, z)]
      ensures z != NO_ZONE ==> Model() == old(Model()).(bits := old(bits)[BitOf(g, z) := true], zsearch := zsearch)
    {
      hide FirstFree;
      var bit := zsearch;
      if near != g.first {
        // In C the subtraction wraps for zone 0, which is then out of range.
        bit := if near < g.first - 1 then |bits| else near - (g.first - 1);
      }
      var b := Found(bits, bit, chunk);
      FoundComplete(bits, bit, chunk);
      if b == NO_BIT { return NO_ZONE; }
      z := g.first - 1 + b;
      var hint := if near == g.first then b else zsearch;
      assert LegalZone(g, z);
      TidyAlloc(g, Model(), held, z, hint);
      HintedSearch(bits, zsearch, chunk);
      HintKept(bits, zsearch, b);
      NextZoneIs(g, bits, zsearch, chunk, near);
      bits := bits[b := true];
      zsearch := hint;
    }

    /** Zone conservation while a file is being removed: `rest` are the inodes that still count. */
    ghost predicate Accounted(rest: seq<Ino>, held: set<nat>)
      reads this
    {
      chunk > 0 && Tidy(g, Model().(inos := rest), held) && HintOk(bits, zsearch) && zsearch < |bits|
    }

    /** free_zone: return a zone; numbers that are no data zones are ignored. */
    method FreeZone(numb: nat, ghost rest: seq<Ino>, ghost held: set<nat>)
      requires Accounted(rest, held) && (LegalZone(g, numb) ==> numb in held)
      modifies this`bits, this`zsearch
      ensures Accounted(rest, held - {numb})
      ensures LegalZone(g, numb) ==> old(bits)[BitOf(g, numb)] && bits == old(bits)[BitOf(g, numb) := false]
      ensures LegalZone(g, numb) ==> zsearch == if BitOf(g, numb) < old(zsearch) then BitOf(g, numb) else old(zsearch)
      ensures !LegalZone(g, numb) ==> bits == old(bits) && zsearch == old(zsearch)
    {
      if numb < g.first || numb >= g.zones {
        assert held - {numb} == held;
        return;
      }
      var bit := numb - (g.first - 1);
      var hint := if bit < zsearch then bit else zsearch;
      TidyFree(g, Model().(inos := rest), held, numb, hint);
      HintKept(bits, zsearch, bit);
      bits := bits[bit := false];
      zsearch := hint;
    }

    /** read_map: locate the block in which a position of a file is to be found. */
    method ReadMap(ip: nat, position: nat) returns (b: nat)
      requires Shape(g, Model()) && ip < |inos| && ZnOf(g, position) < Limit(g)
      ensures var z := ZoneOf(g, store, inos[ip].zone, ZnOf(g, position));
        b == if z == NO_ZONE then NO_BLOCK else BlockNo(g, z, OffOf(g, position))
      ensures BlockAt(g, store, inos[ip].zone, position, b)
    {
      hide Quot, Rest, Limit, BlockNo, BlockAt;
      MapLeads(g, store, inos[ip].zone, position);
      var zone := ZnOf(g, position);
      assert ValidPos(g, PosOf(g, zone));
      var boff := OffOf(g, position);
      if zone < g.ndz {
        var z := inos[ip].zone[zone];
        if z == NO_ZONE { return NO_BLOCK; }
        return BlockNo(g, z, boff);
      }
      var excess := zone - g.ndz;
      var z;
      if excess < g.nind {
        z := inos[ip].zone[g.ndz];
      } else {
        z := inos[ip].zone[g.ndz + 1];
        if z == NO_ZONE { return NO_BLOCK; }
        excess := excess - g.nind;
        var bp := GetBlock(BlockNo(g, z, 0), Normal);
        var index := Quot(excess, g.nind);
        EntryFits(g, index);
        z := RdIndir(bp, index, g.width, g.native);
        excess := Rest(excess, g.nind);
      }
      if z == NO_ZONE { return NO_BLOCK; }
      var bp := GetBlock(BlockNo(g, z, 0), Normal);
      EntryFits(g, excess);
      z := RdIndir(bp, excess, g.width, g.native);
      if z == NO_ZONE { return NO_BLOCK; }
      return BlockNo(g, z, boff);
    }

    // ---------- write_map ----------

    /** write_map: make a new indirect zone, recorded in field `k` of the inode, and zero it. */
    method NewTable(ip: nat, k: nat, ghost held: set<nat>, ghost p: Pos) returns (z: nat)
      requires Valid(held) && ip < |inos| && (k == g.ndz || k == g.ndz + 1) && inos[ip].zone[k] == 0 && ValidPos(g, p)
      modifies this`bits, this`zsearch, this`inos, this`store
      ensures Valid(held) && Elsewhere(g, old(Model()), Model(), ip, p)
      ensures Own(g, Model(), ip, Data(p)) == Own(g, old(Model()), ip, Data(p))
      ensures z == NO_ZONE ==> Model() == old(Model()) && forall b :: 0 <= b < |bits| ==> bits[b]
      ensures z != NO_ZONE ==> Own(g, Model(), ip, FieldSlot(g, k)) == z && Empty(g, store, z)
      ensures z == NextZone(g, old(bits), old(zsearch), chunk, old(inos)[ip].zone[0])
      ensures z != NO_ZONE ==> inos == old(inos)[ip := old(inos)[ip].(zone := old(inos)[ip].zone[k := z])]
      ensures SameHeld(g, old(store), store, held)
    {
      hide Tidy, Elsewhere, Linked, Hooked, Empty, DataFrame, SameSlots, Zeros, NextZone, FirstFree;
      TidyShape(g, Model(), held);
      ghost var a := Model();
      BitsElsewhere(g, a, a, ip, p);
      z := AllocZone(inos[ip].zone[0], held);
      if z == NO_ZONE { return; }
      ghost var a1 := Model();
      TidyShape(g, a1, held + {z});
      BitsElsewhere(g, a, a1, ip, p);
      inos := inos[ip := inos[ip].(zone := inos[ip].zone[k := z])];
      WriteSpares(g, store, z, Zeros(g.bs), held);
      Dirty(BlockNo(g, z, 0), Zeros(g.bs));
      ZeroHeld(g, a1, held + {z}, z, ip, p);
      ghost var a2 := Zeroed(g, a1, z);
      SameElsewhere(g, a1, a2, ip, p);
      SameOwn(g, a1, a2, ip, Data(p));
      LinkField(g, a2, held + {z}, ip, k, z, p);
      LinkedElsewhere(g, a2, Model(), ip, FieldSlot(g, k), z, p);
      LinkedOwn(g, a2, Model(), ip, FieldSlot(g, k), z, p);
      FieldEmpty(g, a2, Model(), z);
      ElsewhereThen(g, a, a1, a2, ip, p);
      ElsewhereThen(g, a, a2, Model(), ip, p);
      DropAdded(held, z);
    }

    /** write_map: make a new single indirect zone, recorded as entry `j` of the double
        indirect block in zone `z`, and zero it. */
    method NewSub(ip: nat, z: nat, j: nat, ghost held: set<nat>, ghost p: Pos) returns (z1: nat)
      requires Valid(held) && ip < |inos| && j < g.nind && ValidPos(g, p)
      requires z != 0 && Own(g, Model(), ip, Dbl) == z && Own(g, Model(), ip, Sub(j)) == 0
      modifies this`bits, this`zsearch, this`store
      ensures Valid(held) && Elsewhere(g, old(Model()), Model(), ip, p) && inos == old(inos)
      ensures Own(g, Model(), ip, Data(p)) == Own(g, old(Model()), ip, Data(p))
      ensures z1 == NO_ZONE ==> forall b :: 0 <= b < |bits| ==> bits[b]
      ensures z1 != NO_ZONE ==> Own(g, Model(), ip, Sub(j)) == z1 && Empty(g, store, z1)
      ensures z1 == NextZone(g, old(bits), old(zsearch), chunk, inos[ip].zone[0])
      ensures SameHeld(g, old(store), store, held)
    {
      hide Tidy, Elsewhere, Linked, Hooked, Empty, DataFrame, SameSlots, Zeros, RdIndir, WrIndir, BlockNo;
      TidyShape(g, Model(), held);
      ghost var a := Model();
      var b := BlockNo(g, z, 0);
      var bp := GetBlock(b, Normal);
      EntryFits(g, j);
      z1 := AllocZone(inos[ip].zone[0], held);
      bp := WrIndir(bp, j, g.width, g.native, z1);
      OwnedIsNotHeld(g, a, held, ip, Dbl);
      WriteSpares(g, store, z, bp, held);
      Dirty(b, bp);
      if z1 == NO_ZONE {
        EntryIs(g, a, ip, j);
        ZeroOverZero(At(g, a.store, b), j, g.width, g.native);
        SameBlocks(g, a, Model(), held, ip, p);
        return;
      }
      WriteSpares(g, store, z1, Zeros(g.bs), held);
      SparesThen(g, a.store, store, store[BlockNo(g, z1, 0) := Zeros(g.bs)], held);
      Dirty(BlockNo(g, z1, 0), Zeros(g.bs));
      ghost var a1 := a.(bits := bits, zsearch := zsearch);
      assert Model() == a1.(store := Model().store);
      NewSubIs(g, a, a1, Model(), held, ip, z, j, z1, p);
    }

    /** The last step of write_map: enter the new zone in an indirect block. */
    method PutEntry(ip: nat, z1: nat, ex: nat, newZone: nat, ghost t: Slot, ghost held: set<nat>, ghost p: Pos)
      requires Valid(held) && ip < |inos| && newZone in held && ex < g.nind && ValidSlot(g, t) && !t.Data?
      requires Own(g, Model(), ip, t) == z1 != 0 && Child(t, ex) == Data(p) && ValidPos(g, p) && Own(g, Model(), ip, Data(p)) == 0
      modifies this`store
      ensures Valid(held - {newZone}) && Elsewhere(g, old(Model()), Model(), ip, p)
      ensures Own(g, Model(), ip, Data(p)) == newZone
      ensures SameHeld(g, old(store), store, held)
    {
      hide Tidy, Elsewhere, Linked, Hooked, Empty, DataFrame, SameSlots, Zeros, RdIndir, WrIndir, BlockNo;
      ghost var a := Model();
      TidyShape(g, a, held);
      var b := BlockNo(g, z1, 0);
      var bp := GetBlock(b, Normal);
      EntryFits(g, ex);
      bp := WrIndir(bp, ex, g.width, g.native, newZone);
      OwnedIsNotHeld(g, a, held, ip, t);
      WriteSpares(g, store, z1, bp, held);
      Dirty(b, bp);
      assert Model() == SetEntry(g, a, z1, ex, newZone);
      LinkEntry(g, a, held, ip, t, ex, newZone, p);
      LinkedElsewhere(g, a, Model(), ip, Data(p), newZone, p);
      LinkedOwn(g, a, Model(), ip, Data(p), newZone, p);
    }

    /** write_map: write a new zone into an inode, at the place of `position`. */
    method WriteMap(ip: nat, position: nat, newZone: nat, ghost held: set<nat>) returns (r: Code)
      requires Valid(held) && ip < |inos| && newZone in held && ZnOf(g, position) < Limit(g)
      requires ZoneOf(g, store, inos[ip].zone, ZnOf(g, position)) == NO_ZONE
      modifies this
      ensures r == OK || r == ENOSPC
      ensures Valid(if r == OK then held - {newZone} else held) && |inos| == |old(inos)|
      ensures ZoneOf(g, store, inos[ip].zone, ZnOf(g, position)) == if r == OK then newZone else NO_ZONE
      ensures LeadsAt(g, store, inos[ip].zone, position, if r == OK then newZone else NO_ZONE)
      ensures Elsewhere(g, old(Model()), Model(), ip, PosOf(g, ZnOf(g, position)))
      ensures r == ENOSPC ==> ZnOf(g, position) >= g.ndz && forall b :: 0 <= b < |bits| ==> bits[b]
      ensures SameHeld(g, old(store), store, held)
      ensures ZnOf(g, position) < g.ndz ==> bits == old(bits) && zsearch == old(zsearch) && store == old(store)
      ensures r == OK && g.ndz <= ZnOf(g, position) ==>
        var k := if ZnOf(g, position) < g.ndz + g.nind then g.ndz else g.ndz + 1;
        && |old(inos)[ip].zone| == g.ndz + 2 == |inos[ip].zone|
        && inos[ip].zone[k] == if old(inos)[ip].zone[k] != NO_ZONE then old(inos)[ip].zone[k]
                               else NextZone(g, old(bits), old(zsearch), chunk, old(inos)[ip].zone[0])
    {
      hide Tidy, Elsewhere, Linked, Hooked, Empty, DataFrame, SameSlots, Zeros, RdIndir, WrIndir, BlockNo, Quot, Rest, Limit, SameHeld, LeadsAt,
           NextZone;
      SparesRefl(g, store, held);
      ghost var a := Model();
      TidyShape(g, a, held);
      ghost var p := PosOf(g, ZnOf(g, position));
      var zone := ZnOf(g, position);
      var zones := g.ndz;
      if zone < zones {
        inos := inos[ip := inos[ip].(zone := inos[ip].zone[zone := newZone])];
        LinkField(g, a, held, ip, zone, newZone, p);
        LinkedElsewhere(g, a, Model(), ip, Data(p), newZone, p);
        LinkedOwn(g, a, Model(), ip, Data(p), newZone, p);
        MapLeads(g, store, inos[ip].zone, position);
        return OK;
      }
      var excess := zone - zones;
      var z1;
      if excess < g.nind {
        z1 := inos[ip].zone[zones];
        if z1 == NO_ZONE {
          z1 := NewTable(ip, zones, held, p);
          if z1 == NO_ZONE {
            MapLeads(g, store, inos[ip].zone, position);
            return ENOSPC;
          }
        }
      } else {
        z1 := SingleUnderDouble(ip, Quot(excess - g.nind, g.nind), held, p);
        if z1 == NO_ZONE {
          ElsewhereCounts(g, a, Model(), ip, p);
          MapLeads(g, store, inos[ip].zone, position);
          return ENOSPC;
        }
        excess := Rest(excess - g.nind, g.nind);
      }
      ghost var a1 := Model();
      ghost var t := if p.Single? then Ind else Sub(p.j);
      ElsewhereRefl(g, a, ip, p);
      ElsewhereCounts(g, a, a1, ip, p);
      PutEntry(ip, z1, excess, newZone, t, held, p);
      SparesThen(g, a.store, a1.store, store, held);
      ElsewhereThen(g, a, a1, Model(), ip, p);
      ElsewhereCounts(g, a, Model(), ip, p);
      MapLeads(g, store, inos[ip].zone, position);
      return OK;
    }

    /** The part of write_map that finds or makes the single indirect zone under entry `indEx`
        of the double indirect block. */
    method SingleUnderDouble(ip: nat, indEx: nat, ghost held: set<nat>, ghost p: Pos) returns (z1: nat)
      requires Valid(held) && ip < |inos| && indEx < g.nind && ValidPos(g, p)
      modifies this
      ensures Valid(held) && |inos| == |old(inos)| && Elsewhere(g, old(Model()), Model(), ip, p)
      ensures Own(g, Model(), ip, Data(p)) == Own(g, old(Model()), ip, Data(p))
      ensures z1 == NO_ZONE ==> forall b :: 0 <= b < |bits| ==> bits[b]
      ensures z1 != NO_ZONE ==> Own(g, Model(), ip, Sub(indEx)) == z1
      ensures old(inos)[ip].zone[g.ndz + 1] != NO_ZONE ==> inos == old(inos)
      ensures z1 != NO_ZONE && old(inos)[ip].zone[g.ndz + 1] == NO_ZONE ==>
        inos[ip].zone[g.ndz + 1] == NextZone(g, old(bits), old(zsearch), chunk, old(inos)[ip].zone[0])
      ensures z1 != NO_ZONE && old(inos)[ip].zone[g.ndz + 1] != NO_ZONE && Own(g, old(Model()), ip, Sub(indEx)) == NO_ZONE ==>
        z1 == NextZone(g, old(bits), old(zsearch), chunk, old(inos)[ip].zone[0])
      ensures SameHeld(g, old(store), store, held)
    {
      hide Tidy, Elsewhere, Linked, Hooked, DataFrame, SameSlots, Zeros, RdIndir, WrIndir, BlockNo, SameHeld, NextZone;
      SparesRefl(g, store, held);
      ghost var a := Model();
      TidyShape(g, a, held);
      ElsewhereRefl(g, a, ip, p);
      var z := inos[ip].zone[g.ndz + 1];
      if z == NO_ZONE {
        z := NewTable(ip, g.ndz + 1, held, p);
        if z == NO_ZONE { return NO_ZONE; }
        TidyShape(g, Model(), held);
      }
      ghost var a1 := Model();
      ElsewhereCounts(g, a, a1, ip, p);
      var bp := GetBlock(BlockNo(g, z, 0), Normal);
      EntryFits(g, indEx);
      z1 := RdIndir(bp, indEx, g.width, g.native);
      assert z1 == Own(g, a1, ip, Sub(indEx));
      if z1 == NO_ZONE {
        z1 := NewSub(ip, z, indEx, held, p);
        ElsewhereThen(g, a, a1, Model(), ip, p);
        SparesThen(g, a.store, a1.store, store, held);
      }
    }
  }

  /** Recording zone `z1` as entry `j` of the double indirect block in zone `z` and then clearing it. */
  lemma NewSubIs(g: Geo, a: Fs, a1: Fs, m: Fs, held: set<nat>, ip: nat, z: nat, j: nat, z1: nat, p: Pos)
    requires Tidy(g, a, held) && ip < |a.inos| && j < g.nind && ValidPos(g, p) && LegalZone(g, z1) && z1 !in held
    requires z != 0 && Own(g, a, ip, Dbl) == z && Own(g, a, ip, Sub(j)) == 0
    requires a1 == a.(bits := a1.bits, zsearch := a1.zsearch) && Tidy(g, a1, held + {z1})
    requires EntryPos(j + 1, g.width) <= g.bs && |At(g, a.store, BlockNo(g, z, 0))| == g.bs && (g.width == 2 || g.width == 4)
    requires m == a1.(store := a.store[BlockNo(g, z, 0) := WrIndir(At(g, a.store, BlockNo(g, z, 0)), j, g.width, g.native, z1)][BlockNo(g, z1, 0) := Zeros(g.bs)])
    ensures Tidy(g, m, held) && Elsewhere(g, a, m, ip, p) && Own(g, m, ip, Data(p)) == Own(g, a, ip, Data(p))
    ensures Own(g, m, ip, Sub(j)) == z1 && Empty(g, m.store, z1)
  {
    hide Tidy, Elsewhere, Linked, Hooked, Empty, DataFrame, SameSlots, Zeros, RdIndir, WrIndir, BlockNo;
    TidyShape(g, a, held);
    TidyShape(g, a1, held + {z1});
    BitsElsewhere(g, a, a1, ip, p);
    ZeroHeld(g, a1, held + {z1}, z1, ip, p);
    var a2 := Zeroed(g, a1, z1);
    SameElsewhere(g, a1, a2, ip, p);
    SameOwn(g, a1, a2, ip, Data(p));
    SameOwn(g, a1, a2, ip, Dbl);
    SameOwn(g, a1, a2, ip, Sub(j));
    HeldIsNot(g, a1, held + {z1}, z1, ip, Dbl);
    WritesCommute(g, a1, z, j, z1, z1);
    assert m == SetEntry(g, a2, z, j, z1);
    LinkEntry(g, a2, held + {z1}, ip, Dbl, j, z1, p);
    LinkedElsewhere(g, a2, m, ip, Sub(j), z1, p);
    LinkedOwn(g, a2, m, ip, Sub(j), z1, p);
    EmptyFrame(g, a2, z, j, z1, z1);
    ElsewhereThen(g, a, a1, a2, ip, p);
    ElsewhereThen(g, a, a2, m, ip, p);
    DropAdded(held, z1);
  }

  /** Where only position `zn` of file `i` may have changed, read_map answers as before for every
      other position of that file and every position of the others. */
  lemma MapElsewhere(g: Geo, a: Fs, b: Fs, i: nat, zn: nat, i': nat, zn': nat)
    requires Shape(g, a) && i < |a.inos| && i' < |a.inos| && zn < Limit(g) && zn' < Limit(g) && (i' != i || zn' != zn)
    requires Elsewhere(g, a, b, i, PosOf(g, zn))
    ensures Shape(g, b) && |b.inos| == |a.inos|
    ensures ZoneOf(g, b.store, b.inos[i'].zone, zn') == ZoneOf(g, a.store, a.inos[i'].zone, zn')
  {
    hide Quot, Rest, Limit;
    if PosOf(g, zn) == PosOf(g, zn') { PosUnique(g, zn, zn'); }
    assert ValidOwner(g, a, i', Data(PosOf(g, zn')));
    assert Own(g, b, i', Data(PosOf(g, zn'))) == Own(g, a, i', Data(PosOf(g, zn')));
  }

  lemma ElsewhereRefl(g: Geo, a: Fs, i: nat, p: Pos)
    requires Shape(g, a)
    ensures Elsewhere(g, a, a, i, p)
  {
  }

  lemma ElsewhereCounts(g: Geo, a: Fs, b: Fs, i: nat, p: Pos)
    requires Shape(g, a) && Elsewhere(g, a, b, i, p)
    ensures Shape(g, b) && |b.inos| == |a.inos|
  {
  }

  lemma EntryIs(g: Geo, a: Fs, i: nat, j: nat)
    requires Shape(g, a) && i < |a.inos| && j < g.nind && Own(g, a, i, Dbl) != 0
    ensures EntryPos(j + 1, g.width) <= g.bs
    ensures Own(g, a, i, Sub(j)) == RdIndir(At(g, a.store, BlockNo(g, Own(g, a, i, Dbl), 0)), j, g.width, g.native)
  {
  }

  /** Rewriting a block with its own bytes changes nothing. */
  lemma SameBlocks(g: Geo, a: Fs, b: Fs, held: set<nat>, i: nat, p: Pos)
    requires Tidy(g, a, held) && b.inos == a.inos && b.bits == a.bits && i < |a.inos| && ValidPos(g, p)
    requires forall n :: At(g, b.store, n) == At(g, a.store, n)
    ensures Tidy(g, b, held) && Elsewhere(g, a, b, i, p) && Own(g, b, i, Data(p)) == Own(g, a, i, Data(p))
  {
    forall j, s | ValidOwner(g, a, j, s) ensures Own(g, b, j, s) == Own(g, a, j, s) {
      match s
      case Data(Double(x, y)) => assert Under(g, b.store, b.inos[j].zone[g.ndz + 1], x) == Under(g, a.store, a.inos[j].zone[g.ndz + 1], x);
      case _ =>
    }
    assert SameSlots(g, a, b);
    TidySame(g, a, b, held);
    forall i', p', off: nat | ValidOwner(g, a, i', Data(p')) && off < g.spz
      ensures DataBlock(g, b, i', p', off) == DataBlock(g, a, i', p', off)
    {
      assert Own(g, b, i', Data(p')) == Own(g, a, i', Data(p'));
    }
  }

  lemma HeldIsNot(g: Geo, a: Fs, held: set<nat>, z: nat, i: nat, s: Slot)
    requires Tidy(g, a, held) && z in held && ValidOwner(g, a, i, s)
    ensures Shape(g, a) && Own(g, a, i, s) != z
  {
  }

  lemma EmptyFrame(g: Geo, a: Fs, z: nat, j: nat, v: nat, y: nat)
    requires GeoOk(g) && j < g.nind && y != z && Empty(g, a.store, y)
    ensures Empty(g, SetEntry(g, a, z, j, v).store, y)
  {
    forall x | 0 <= x < g.nind ensures Entry(g, SetEntry(g, a, z, j, v).store, y, x) == 0 {
      assert Entry(g, a.store, y, x) == 0;
      SetEntryThere(g, a, z, j, v, y, x);
    }
  }

  lemma DropAdded(held: set<nat>, z: nat)
    requires z !in held
    ensures held + {z} - {z} == held
  {
  }

  lemma TidyShape(g: Geo, a: Fs, held: set<nat>)
    requires Tidy(g, a, held)
    ensures Shape(g, a)
  {
  }

  lemma SameOwn(g: Geo, a: Fs, b: Fs, i: nat, s: Slot)
    requires Shape(g, a) && SameSlots(g, a, b) && ValidOwner(g, a, i, s)
    ensures Shape(g, b) && Own(g, b, i, s) == Own(g, a, i, s)
  {
  }

  lemma LinkedOwn(g: Geo, a: Fs, b: Fs, i: nat, s: Slot, v: nat, p: Pos)
    requires Shape(g, a) && Linked(g, a, b, i, s, v, p)
    ensures Shape(g, b) && ValidOwner(g, a, i, s) && |b.inos| == |a.inos| && Own(g, b, i, s) == v
  {
  }

  lemma FieldEmpty(g: Geo, a: Fs, b: Fs, z: nat)
    requires GeoOk(g) && b.store == a.store && Empty(g, a.store, z)
    ensures Empty(g, b.store, z)
  {
  }

  lemma EntryFits(g: Geo, i: nat)
    requires GeoOk(g) && i < g.nind
    ensures EntryPos(i + 1, g.width) <= g.bs
  {
  }
}
