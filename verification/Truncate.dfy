/** Giving back all zones of a file: truncate and wipe_inode. */
module Truncate {
  import opened Storage
  import opened Indirect
  import opened BlockMap
  import opened BitAlloc
  import opened Zones
  import opened FileContent
  import opened Files
  import opened FileOps

  // ---------- The order in which truncate meets the slots ----------

  function ZnIndex(g: Geo, p: Pos): nat {
    match p
    case Direct(i) => i
    case Single(i) => g.ndz + i
    case Double(j, i) => g.ndz + g.nind + j * g.nind + i
  }

  /** Every place for a data zone is the place of one relative zone. */
  lemma ZnIndexPos(g: Geo, p: Pos)
    requires g.nind > 0 && ValidPos(g, p)
    ensures ZnIndex(g, p) < Limit(g) && PosOf(g, ZnIndex(g, p)) == p
  {
    if p.Double? {
      MulStep(p.j, g.nind, g.nind);
      QuotIs(p.j * g.nind + p.i, p.j, p.i, g.nind);
    }
  }

  /** Data zones by position, the single indirect zone, the zones under the double indirect
      zone, the double indirect zone. */
  function Order(g: Geo, s: Slot): nat {
    match s
    case Data(p) => ZnIndex(g, p)
    case Ind => Limit(g)
    case Sub(j) => Limit(g) + 1 + j
    case Dbl => Limit(g) + 1 + g.nind
  }

  lemma OrderInjective(g: Geo, s: Slot, t: Slot)
    requires g.nind > 0 && ValidSlot(g, s) && ValidSlot(g, t) && Order(g, s) == Order(g, t)
    ensures s == t
  {
    if s.Data? { ZnIndexPos(g, s.p); }
    if t.Data? { ZnIndexPos(g, t.p); }
  }

  lemma OrderOfData(g: Geo, zn: nat)
    requires g.nind > 0 && zn < Limit(g)
    ensures Order(g, Data(PosOf(g, zn))) == zn
  {
    ZnIndexPos(g, PosOf(g, zn));
    PosUnique(g, ZnIndex(g, PosOf(g, zn)), zn);
  }

  // ---------- The zones of one file ----------

  ghost predicate Owned(g: Geo, a: Fs, i: nat, k: nat, z: nat)
    requires Shape(g, a) && i < |a.inos|
  {
    exists s :: ValidSlot(g, s) && Order(g, s) >= k && Own(g, a, i, s) == z
  }

  /** `held` are the zones of file `i` that truncate has not freed before step `k`. */
  ghost predicate Remaining(g: Geo, a: Fs, i: nat, held: set<nat>, k: nat)
    requires Shape(g, a) && i < |a.inos|
  {
    forall z :: z in held <==> z != 0 && Owned(g, a, i, k, z)
  }

  ghost function AllZones(g: Geo, a: Fs, i: nat): set<nat>
    requires Shape(g, a) && i < |a.inos|
  {
    set z | 0 < z < g.zones && Owned(g, a, i, 0, z)
  }

  function NoZones(n: nat): (s: seq<nat>)
    ensures |s| == n && forall k :: 0 <= k < n ==> s[k] == 0
  {
    if n == 0 then [] else NoZones(n - 1) + [0]
  }

  /** wipe_inode: no size, no zones. */
  function WipedInos(g: Geo, inos: seq<Ino>, i: nat): (r: seq<Ino>)
    requires i < |inos|
    ensures |r| == |inos|
  {
    inos[i := Ino(NoZones(g.ndz + 2), 0)]
  }

  lemma WipedOwn(g: Geo, a: Fs, i: nat, j: int, s: Slot)
    requires Shape(g, a) && i < |a.inos| && ValidOwner(g, a, j, s)
    ensures Shape(g, a.(inos := WipedInos(g, a.inos, i)))
    ensures Own(g, a.(inos := WipedInos(g, a.inos, i)), j, s) == if j == i then 0 else Own(g, a, j, s)
  {
    var b := a.(inos := WipedInos(g, a.inos, i));
    if j == i {
      match s
      case Data(Double(x, y)) => assert Under(g, b.store, b.inos[i].zone[g.ndz + 1], x) == 0;
      case _ =>
    }
  }

  lemma AllRemain(g: Geo, a: Fs, i: nat)
    requires Tidy(g, a, {}) && i < |a.inos|
    ensures Remaining(g, a, i, AllZones(g, a, i), 0)
    ensures forall z :: z in AllZones(g, a, i) ==> LegalZone(g, z)
  {
    forall z | z != 0 && Owned(g, a, i, 0, z) ensures LegalZone(g, z) {
      var s :| ValidSlot(g, s) && Order(g, s) >= 0 && Own(g, a, i, s) == z;
      assert ValidOwner(g, a, i, s);
    }
  }

  /** Taking a file out of the inode table leaves its zones in hand. */
  lemma Detached(g: Geo, a: Fs, i: nat)
    requires Tidy(g, a, {}) && i < |a.inos|
    ensures Tidy(g, a.(inos := WipedInos(g, a.inos, i)), AllZones(g, a, i))
  {
    hide SlotZone, Order;
    var b := a.(inos := WipedInos(g, a.inos, i));
    AllRemain(g, a, i);
    WipedOwn(g, a, i, i, Ind);
    forall j, s | ValidOwner(g, a, j, s) ensures Own(g, b, j, s) == if j == i then 0 else Own(g, a, j, s) {
      WipedOwn(g, a, i, j, s);
    }
    forall z | LegalZone(g, z) ensures Reached(g, a, z) <==> z in AllZones(g, a, i) || Reached(g, b, z) {
      if Reached(g, a, z) {
        var j, s :| ValidOwner(g, a, j, s) && Own(g, a, j, s) == z;
        if j == i { assert Order(g, s) >= 0; } else { assert ValidOwner(g, b, j, s) && Own(g, b, j, s) == z; }
      }
      if z in AllZones(g, a, i) {
        var s :| ValidSlot(g, s) && Order(g, s) >= 0 && Own(g, a, i, s) == z;
        assert ValidOwner(g, a, i, s);
      }
      if Reached(g, b, z) {
        var j, s :| ValidOwner(g, b, j, s) && Own(g, b, j, s) == z;
        assert ValidOwner(g, a, j, s);
      }
    }
    forall z | z in AllZones(g, a, i) ensures !Reached(g, b, z) {
      var t :| ValidSlot(g, t) && Order(g, t) >= 0 && Own(g, a, i, t) == z;
      assert ValidOwner(g, a, i, t);
      forall j, s | ValidOwner(g, b, j, s) ensures Own(g, b, j, s) != z {
        assert ValidOwner(g, a, j, s);
      }
    }
  }

  /** Freeing the zone at slot `s`. */
  lemma RemainingStep(g: Geo, a: Fs, i: nat, held: set<nat>, s: Slot)
    requires Tidy(g, a, {}) && i < |a.inos| && ValidSlot(g, s) && Remaining(g, a, i, held, Order(g, s))
    ensures Own(g, a, i, s) != 0 ==> Own(g, a, i, s) in held && LegalZone(g, Own(g, a, i, s))
    ensures Remaining(g, a, i, held - {Own(g, a, i, s)}, Order(g, s) + 1)
  {
    hide SlotZone, Order;
    var k := Order(g, s);
    var z := Own(g, a, i, s);
    assert Owned(g, a, i, k, z);
    assert ValidOwner(g, a, i, s);
    forall y | y != 0 ensures y in held - {z} <==> Owned(g, a, i, k + 1, y) {
      if y in held && y != z {
        var t :| ValidSlot(g, t) && Order(g, t) >= k && Own(g, a, i, t) == y;
        if Order(g, t) == k { OrderInjective(g, s, t); }
        assert Owned(g, a, i, k + 1, y);
      }
      if Owned(g, a, i, k + 1, y) {
        var t :| ValidSlot(g, t) && Order(g, t) >= k + 1 && Own(g, a, i, t) == y;
        assert ValidOwner(g, a, i, t);
        assert Owned(g, a, i, k, y);
      }
    }
  }

  /** Positions beyond the end of file have no zones to free. */
  lemma RemainingSkip(g: Geo, a: Fs, i: nat, held: set<nat>, k: nat)
    requires Shape(g, a) && i < |a.inos| && Remaining(g, a, i, held, k) && k <= Limit(g)
    requires forall zn | k <= zn < Limit(g) :: ZoneOf(g, a.store, a.inos[i].zone, zn) == 0
    ensures Remaining(g, a, i, held, Limit(g))
  {
    hide SlotZone, Quot, Rest;
    forall s | ValidSlot(g, s) && Order(g, s) >= k && s.Data? ensures Own(g, a, i, s) == 0 {
      ZnIndexPos(g, s.p);
      assert ZoneOf(g, a.store, a.inos[i].zone, Order(g, s)) == Own(g, a, i, s);
    }
    forall z | z != 0 ensures Owned(g, a, i, k, z) <==> Owned(g, a, i, Limit(g), z) {
      if Owned(g, a, i, k, z) {
        var s :| ValidSlot(g, s) && Order(g, s) >= k && Own(g, a, i, s) == z;
      }
      if Owned(g, a, i, Limit(g), z) {
        var s :| ValidSlot(g, s) && Order(g, s) >= Limit(g) && Own(g, a, i, s) == z;
      }
    }
  }

  lemma RemainingNone(g: Geo, a: Fs, i: nat, held: set<nat>, k: nat)
    requires Shape(g, a) && i < |a.inos| && Remaining(g, a, i, held, k) && k >= Limit(g) + 2 + g.nind
    ensures held == {}
  {
    forall s | ValidSlot(g, s) ensures Order(g, s) < Limit(g) + 2 + g.nind {
      if s.Data? { ZnIndexPos(g, s.p); }
    }
    assert forall z :: z !in held;
  }

  // ---------- truncate ----------

  /** Part of truncate: free the data zones, a zone at a time, up to the end of file. */
  method FreeData(fs: FileSys, ip: nat, ghost rest: seq<Ino>, ghost held0: set<nat>) returns (ghost held: set<nat>)
    requires Tidy(fs.g, fs.Model(), {}) && ip < |fs.inos| && FileState(fs.g, fs.Model(), ip, fs.inos[ip].size)
    requires fs.Accounted(rest, held0) && Remaining(fs.g, fs.Model(), ip, held0, 0)
    modifies fs`bits, fs`zsearch
    ensures fs.Accounted(rest, held) && Shape(fs.g, old(fs.Model())) && Remaining(fs.g, old(fs.Model()), ip, held, Limit(fs.g))
  {
    hide Tidy, Quot, Rest, Limit, Remaining, BlockNo, SlotZone, ZeroTail, Order;
    var g := fs.g;
    ghost var a := fs.Model();
    TidyShape(g, a, {});
    held := held0;
    var zoneSize := g.bs * g.spz;
    PositiveProduct(g.bs, g.spz);
    var position := 0;
    ghost var k: nat := 0;
    LoopStart(zoneSize);
    while position < fs.inos[ip].size
      invariant position == k * zoneSize && k <= Limit(g)
      invariant fs.Accounted(rest, held) && Remaining(g, a, ip, held, k)
      decreases fs.inos[ip].size - position
    {
      ZoneOfStep(g, k, fs.inos[ip].size);
      InLimitBelow(g, fs.inos[ip].size, position);
      ghost var s := Data(PosOf(g, k));
      OrderOfData(g, k);
      RemainingStep(g, a, ip, held, s);
      TidyShape(g, fs.Model().(inos := rest), held);
      var b := fs.ReadMap(ip, position);
      ghost var z := Own(g, a, ip, s);
      if z != 0 { LegalNonZero(g, a, {}, ip, s, OffOf(g, position)); }
      if b != NO_BLOCK {
        QuotBlockNo(g, z, OffOf(g, position));
        fs.FreeZone(Quot(b, g.spz), rest, held);
      } else {
        NoneRemains(g, a, ip, held, k);
      }
      held := held - {z};
      k := k + 1;
      position := position + zoneSize;
    }
    EndOfData(g, a, ip, fs.inos[ip].size, k);
    RemainingSkip(g, a, ip, held, k);
  }

  lemma LoopStart(n: nat)
    ensures 0 * n == 0
  {
  }

  lemma NoneRemains(g: Geo, a: Fs, i: nat, held: set<nat>, k: nat)
    requires Shape(g, a) && i < |a.inos| && Remaining(g, a, i, held, k)
    ensures held - {0} == held
  {
  }

  /** The loop position `k` zones into the file. */
  lemma ZoneOfStep(g: Geo, k: nat, size: nat)
    requires g.bs > 0 && g.spz > 0
    ensures ZnOf(g, k * (g.bs * g.spz)) == k
    ensures (k + 1) * (g.bs * g.spz) == k * (g.bs * g.spz) + g.bs * g.spz
  {
    PositiveProduct(g.bs, g.spz);
    QuotIs(k * (g.bs * g.spz), k, 0, g.bs * g.spz);
    QuotQuot(k * (g.bs * g.spz), g.bs, g.spz);
  }

  /** When the loop stops, all zones from `k` on are beyond the end of file. */
  lemma EndOfData(g: Geo, a: Fs, i: nat, size: nat, k: nat)
    requires Shape(g, a) && i < |a.inos| && NothingBeyond(g, a, i, size) && size <= k * (g.bs * g.spz)
    ensures forall zn | k <= zn < Limit(g) :: ZoneOf(g, a.store, a.inos[i].zone, zn) == 0
  {
    hide Quot, Rest, Limit, SlotZone;
    if size > 0 {
      PositiveProduct(g.bs, g.spz);
      QuotQuot(size - 1, g.bs, g.spz);
      if k <= ZnOf(g, size - 1) {
        TimesMono(k, ZnOf(g, size - 1), g.bs * g.spz);
      }
    }
  }

  lemma TimesMono(a: nat, b: nat, n: nat)
    requires a <= b
    ensures a * n <= b * n
  {
    if a < b { MulStep(a, b, n); }
  }

  /** Part of truncate: free the zones that the double indirect block lists, then its own zone. */
  method FreeDouble(fs: FileSys, ip: nat, ghost a: Fs, ghost rest: seq<Ino>, ghost held0: set<nat>)
    requires a.store == fs.store && a.inos == fs.inos && Tidy(fs.g, a, {}) && ip < |a.inos|
    requires fs.Accounted(rest, held0) && Remaining(fs.g, a, ip, held0, Limit(fs.g) + 1)
    modifies fs`bits, fs`zsearch
    ensures fs.Accounted(rest, {})
  {
    hide Tidy, Limit, Remaining, BlockNo, RdIndir, At;
    var g := fs.g;
    TidyShape(g, a, {});
    ghost var held := held0;
    var z := fs.inos[ip].zone[g.ndz + 1];
    if z != NO_ZONE {
      var bp := fs.GetBlock(BlockNo(g, z, 0), Normal);
      var i: nat := 0;
      while i < g.nind
        invariant i <= g.nind && fs.Accounted(rest, held) && Remaining(g, a, ip, held, Limit(g) + 1 + i)
      {
        EntryFits(g, i);
        var z1 := RdIndir(bp, i, g.width, g.native);
        assert z1 == Own(g, a, ip, Sub(i));
        RemainingStep(g, a, ip, held, Sub(i));
        NeverZero(g, z1);
        fs.FreeZone(z1, rest, held);
        held := held - {z1};
        i := i + 1;
      }
      RemainingStep(g, a, ip, held, Dbl);
      fs.FreeZone(z, rest, held);
      held := held - {z};
    } else {
      NothingUnder(g, a, ip, held);
    }
    RemainingNone(g, a, ip, held, Limit(g) + 2 + g.nind);
  }

  lemma NeverZero(g: Geo, z: nat)
    requires GeoOk(g)
    ensures z == 0 ==> !LegalZone(g, z)
  {
  }

  lemma NothingUnder(g: Geo, a: Fs, i: nat, held: set<nat>)
    requires Shape(g, a) && i < |a.inos| && Remaining(g, a, i, held, Limit(g) + 1) && Own(g, a, i, Dbl) == 0
    ensures Remaining(g, a, i, held, Limit(g) + 2 + g.nind)
  {
    forall s | ValidSlot(g, s) ensures s.Data? ==> Order(g, s) < Limit(g) {
      if s.Data? { ZnIndexPos(g, s.p); }
    }
    forall s | ValidSlot(g, s) && Order(g, s) >= Limit(g) + 1 ensures Own(g, a, i, s) == 0 {}
    assert forall z :: z !in held;
  }

  /** truncate: free every zone of a file.  The zone numbers stay in the inode; the zone map is
      that of the other files. */
  method Truncate(fs: FileSys, ip: nat)
    requires fs.Valid({}) && ip < |fs.inos| && FileState(fs.g, fs.Model(), ip, fs.inos[ip].size)
    modifies fs`bits, fs`zsearch
    ensures fs.Accounted(WipedInos(fs.g, fs.inos, ip), {})
    ensures Freed(fs.g, old(fs.Model()), fs.Model(), ip)
  {
    hide Tidy, Limit, Remaining, AllZones, Freed;
    var g := fs.g;
    ghost var a := fs.Model();
    TidyShape(g, a, {});
    ghost var rest := WipedInos(g, fs.inos, ip);
    Detached(g, a, ip);
    AllRemain(g, a, ip);
    ghost var held := FreeData(fs, ip, rest, AllZones(g, a, ip));
    var single := g.ndz;
    RemainingStep(g, a, ip, held, Ind);
    NeverZero(g, fs.inos[ip].zone[single]);
    fs.FreeZone(fs.inos[ip].zone[single], rest, held);
    FreeDouble(fs, ip, a, rest, held - {fs.inos[ip].zone[single]});
    ExactlyFreed(g, a, fs.Model(), ip);
  }

  /** The zones freed are those of file `i`: data and indirect zones, no others. */
  ghost predicate Freed(g: Geo, a: Fs, b: Fs, i: nat) {
    && Shape(g, a) && Shape(g, b) && i < |a.inos|
    && forall z | LegalZone(g, z) :: b.bits[BitOf(g, z)] <==> a.bits[BitOf(g, z)] && z !in AllZones(g, a, i)
  }

  lemma ExactlyFreed(g: Geo, a: Fs, b: Fs, i: nat)
    requires Tidy(g, a, {}) && i < |a.inos| && b.store == a.store && b.inos == a.inos
    requires Tidy(g, b.(inos := WipedInos(g, a.inos, i)), {})
    ensures Freed(g, a, b, i)
  {
    hide AllZones;
    Detached(g, a, i);
    var wiped := a.(inos := WipedInos(g, a.inos, i));
    forall z ensures Reached(g, b.(inos := WipedInos(g, a.inos, i)), z) <==> Reached(g, wiped, z) {
      SameReached(g, wiped, b.(inos := WipedInos(g, a.inos, i)), z);
    }
    forall z | LegalZone(g, z) ensures b.bits[BitOf(g, z)] <==> a.bits[BitOf(g, z)] && z !in AllZones(g, a, i) {
      assert wiped.bits[BitOf(g, z)] <==> z in AllZones(g, a, i) || Reached(g, wiped, z);
      assert z in AllZones(g, a, i) ==> !Reached(g, wiped, z);
    }
  }

  /** Opening a file with O_TRUNC, or reusing the inode of one that was removed: truncate, then
      wipe_inode.  The file is empty and its zones are free again; no other file notices. */
  method TruncateAndWipe(fs: FileSys, ip: nat)
    requires fs.Valid({}) && ip < |fs.inos| && FileState(fs.g, fs.Model(), ip, fs.inos[ip].size)
    modifies fs`bits, fs`zsearch, fs`inos
    ensures fs.Valid({}) && Freed(fs.g, old(fs.Model()), fs.Model(), ip)
    ensures OthersUntouched(fs.g, old(fs.Model()), fs.Model(), ip)
    ensures FileOk(fs.g, fs.Model(), ip) && fs.inos[ip].size == 0 && fs.inos == old(fs.inos)[ip := fs.inos[ip]]
    ensures |fs.inos[ip].zone| == fs.g.ndz + 2 && forall k :: 0 <= k < |fs.inos[ip].zone| ==> fs.inos[ip].zone[k] == 0
  {
    hide Tidy, AllZones, FileState, Freed;
    Truncate(fs, ip);
    FreedAgain(fs.g, old(fs.Model()), fs.Model(), ip);
    TidyShape(fs.g, old(fs.Model()), {});
    fs.inos := WipedInos(fs.g, fs.inos, ip);
    TidyShape(fs.g, fs.Model(), {});
    AfterWipe(fs.g, old(fs.Model()), fs.Model(), ip);
  }

  lemma FreedAgain(g: Geo, a: Fs, b: Fs, i: nat)
    requires Freed(g, a, b, i) && i < |b.inos|
    ensures Freed(g, a, b.(inos := WipedInos(g, b.inos, i)), i)
  {
  }

  lemma AfterWipe(g: Geo, a: Fs, b: Fs, i: nat)
    requires Shape(g, a) && Shape(g, b) && i < |a.inos| && b.store == a.store && b.inos == WipedInos(g, a.inos, i)
    ensures OthersUntouched(g, a, b, i) && FileOk(g, b, i)
  {
    hide Limit;
    forall j, s | ValidOwner(g, a, j, s) ensures Own(g, b, j, s) == if j == i then 0 else Own(g, a, j, s) {
      WipedOwn(g, a, i, j, s);
    }
    QuotIs(0, 0, 0, g.bs);
    QuotIs(0, 0, 0, g.spz);
    forall zn | 0 <= zn < Limit(g) ensures ZoneOf(g, b.store, b.inos[i].zone, zn) == 0 {
      assert ValidOwner(g, b, i, Data(PosOf(g, zn)));
      assert Own(g, b, i, Data(PosOf(g, zn))) == 0;
    }
  }
}
