/** Who owns which zone: direct zones in the inode, then a single and a double indirect tree. */
module BlockMap {
  import opened Storage
  import opened Indirect

  /** The constants of one file system: bytes per block, blocks per zone (1 << s_log_zone_size),
      direct zones per inode, entries per indirect block, bytes per entry, byte order,
      first data zone and number of zones. */
  datatype Geo = Geo(bs: nat, spz: nat, ndz: nat, nind: nat, width: nat, native: bool, first: nat, zones: nat)

  ghost predicate GeoOk(g: Geo) {
    && g.bs > 0 && g.spz > 0 && g.ndz > 0 && g.nind > 0
    && (g.width == 2 || g.width == 4) && EntryPos(g.nind, g.width) == g.bs
    && 0 < g.first <= g.zones <= Pow256(g.width)
  }

  type Store = map<nat, Block>

  datatype Ino = Ino(zone: seq<nat>, size: nat)

  /** The contents of a block of the device, as the cache presents it. */
  function At(g: Geo, st: Store, b: nat): (r: Block)
    ensures |r| == g.bs
  {
    if b in st && |st[b]| == g.bs then st[b] else Zeros(g.bs)
  }

  /** Block `off` of zone `z`. */
  function BlockNo(g: Geo, z: nat, off: nat): nat {
    z * g.spz + off
  }

  lemma {:induction false} MulStep(a: nat, b: nat, n: nat)
    requires a < b
    ensures a * n + n <= b * n
  {
    assert (a + 1) * n == a * n + n;
    if a + 1 < b {
      MulStep(a, b - 1, n);
      assert b * n == (b - 1) * n + n;
    }
  }

  lemma BlockNoUnique(g: Geo, z: nat, off: nat, z': nat, off': nat)
    requires off < g.spz && off' < g.spz && BlockNo(g, z, off) == BlockNo(g, z', off')
    ensures z == z' && off == off'
  {
    if z < z' { MulStep(z, z', g.spz); }
    else if z' < z { MulStep(z', z, g.spz); }
  }

  // ---------- Positions ----------

  function Quot(x: nat, n: nat): nat
    requires n > 0
  {
    x / n
  }

  function Rest(x: nat, n: nat): (r: nat)
    requires n > 0
    ensures r < n
  {
    x % n
  }

  lemma QuotRest(x: nat, n: nat)
    requires n > 0
    ensures x == Quot(x, n) * n + Rest(x, n)
  {
  }

  /** Where the zone number for a relative zone of a file is kept. */
  datatype Pos = Direct(i: nat) | Single(i: nat) | Double(j: nat, i: nat)

  predicate ValidPos(g: Geo, p: Pos) {
    match p
    case Direct(i) => i < g.ndz
    case Single(i) => i < g.nind
    case Double(j, i) => j < g.nind && i < g.nind
  }

  /** How many zones a file can have. */
  function Limit(g: Geo): nat {
    g.ndz + g.nind + g.nind * g.nind
  }

  lemma DivLess(x: nat, n: nat, m: nat)
    requires n > 0
    ensures x < m * n <==> Quot(x, n) < m
  {
    assert x == (x / n) * n + x % n;
    if x / n < m {
      assert (x / n + 1) * n <= m * n;
    } else {
      assert (x / n) * n >= m * n;
    }
  }

  /** The place of relative zone `zn`; positions within the limit are the valid ones. */
  function PosOf(g: Geo, zn: nat): (p: Pos)
    requires g.nind > 0
    ensures ValidPos(g, p) <==> zn < Limit(g)
  {
    if zn < g.ndz then Direct(zn)
    else if zn - g.ndz < g.nind then Single(zn - g.ndz)
    else
      DivLess(zn - g.ndz - g.nind, g.nind, g.nind);
      Double(Quot(zn - g.ndz - g.nind, g.nind), Rest(zn - g.ndz - g.nind, g.nind))
  }

  /** Different relative zones have different places. */
  lemma PosUnique(g: Geo, zn: nat, zn': nat)
    requires g.nind > 0 && PosOf(g, zn) == PosOf(g, zn')
    ensures zn == zn'
  {
    if zn >= g.ndz + g.nind && zn' >= g.ndz + g.nind {
      QuotRest(zn - g.ndz - g.nind, g.nind);
      QuotRest(zn' - g.ndz - g.nind, g.nind);
    }
  }

  /** Relative block, relative zone and block within the zone of a byte position. */
  function BlkOf(g: Geo, position: nat): nat
    requires g.bs > 0
  {
    Quot(position, g.bs)
  }

  function ZnOf(g: Geo, position: nat): nat
    requires g.bs > 0 && g.spz > 0
  {
    Quot(BlkOf(g, position), g.spz)
  }

  function OffOf(g: Geo, position: nat): (off: nat)
    requires g.bs > 0 && g.spz > 0
    ensures off < g.spz
  {
    Rest(BlkOf(g, position), g.spz)
  }

  // ---------- Looking zones up ----------

  /** Entry `i` of the indirect block in zone `z`. */
  function Entry(g: Geo, st: Store, z: nat, i: nat): nat
    requires GeoOk(g) && i < g.nind
  {
    RdIndir(At(g, st, BlockNo(g, z, 0)), i, g.width, g.native)
  }

  /** A place where a zone number can be recorded: a data position, the single or the
      double indirect zone, or entry `j` of the double indirect block. */
  datatype Slot = Data(p: Pos) | Ind | Dbl | Sub(j: nat)

  predicate ValidSlot(g: Geo, s: Slot) {
    match s
    case Data(p) => ValidPos(g, p)
    case Sub(j) => j < g.nind
    case _ => true
  }

  /** The zone recorded at a slot, 0 (NO_ZONE) if none. */
  function SlotZone(g: Geo, st: Store, zone: seq<nat>, s: Slot): nat
    requires GeoOk(g) && |zone| == g.ndz + 2 && ValidSlot(g, s)
  {
    match s
    case Ind => zone[g.ndz]
    case Dbl => zone[g.ndz + 1]
    case Sub(j) => Under(g, st, zone[g.ndz + 1], j)
    case Data(Direct(i)) => zone[i]
    case Data(Single(i)) => Under(g, st, zone[g.ndz], i)
    case Data(Double(j, i)) => Under(g, st, Under(g, st, zone[g.ndz + 1], j), i)
  }

  /** Entry `i` under an indirect zone, if there is one. */
  function Under(g: Geo, st: Store, z: nat, i: nat): nat
    requires GeoOk(g) && i < g.nind
  {
    if z == 0 then 0 else Entry(g, st, z, i)
  }

  function ZoneOf(g: Geo, st: Store, zone: seq<nat>, zn: nat): nat
    requires GeoOk(g) && |zone| == g.ndz + 2 && zn < Limit(g)
  {
    SlotZone(g, st, zone, Data(PosOf(g, zn)))
  }

  // ---------- Ownership ----------

  /** A file system: the blocks, the zone map (bit 0 is reserved), the hint s_zsearch and
      the inodes. */
  datatype Fs = Fs(store: Store, bits: seq<bool>, zsearch: nat, inos: seq<Ino>)

  function BitOf(g: Geo, z: nat): int {
    z - (g.first - 1)
  }

  predicate LegalZone(g: Geo, z: nat) {
    g.first <= z < g.zones
  }

  ghost predicate Shape(g: Geo, fs: Fs) {
    && GeoOk(g)
    && (forall i :: 0 <= i < |fs.inos| ==> |fs.inos[i].zone| == g.ndz + 2)
    && |fs.bits| == g.zones - (g.first - 1) && fs.bits[0]
  }

  predicate ValidOwner(g: Geo, fs: Fs, i: int, s: Slot) {
    0 <= i < |fs.inos| && ValidSlot(g, s)
  }

  function Own(g: Geo, fs: Fs, i: int, s: Slot): nat
    requires GeoOk(g) && ValidOwner(g, fs, i, s) && |fs.inos[i].zone| == g.ndz + 2
  {
    SlotZone(g, fs.store, fs.inos[i].zone, s)
  }

  ghost predicate Reached(g: Geo, fs: Fs, z: nat)
    requires Shape(g, fs)
  {
    exists i, s :: ValidOwner(g, fs, i, s) && Own(g, fs, i, s) == z
  }

  ghost predicate Legal(g: Geo, fs: Fs)
    requires Shape(g, fs)
  {
    forall i, s | ValidOwner(g, fs, i, s) :: Own(g, fs, i, s) == 0 || LegalZone(g, Own(g, fs, i, s))
  }

  /** No zone is recorded in two places, of one inode or of two. */
  ghost predicate Disjoint(g: Geo, fs: Fs)
    requires Shape(g, fs)
  {
    forall i, s, i', s' | ValidOwner(g, fs, i, s) && ValidOwner(g, fs, i', s') ::
      Own(g, fs, i, s) != 0 && Own(g, fs, i, s) == Own(g, fs, i', s') ==> i == i' && s == s'
  }

  /** Zone conservation: the set bits of the zone map are, without overlap, the zones
      recorded in inodes and indirect blocks, and the zones in `held`, which have been
      taken from the map but not recorded yet. */
  ghost predicate Tidy(g: Geo, fs: Fs, held: set<nat>) {
    && Shape(g, fs) && Legal(g, fs) && Disjoint(g, fs)
    && (forall z :: z in held ==> LegalZone(g, z) && !Reached(g, fs, z))
    && (forall z | LegalZone(g, z) :: fs.bits[BitOf(g, z)] <==> z in held || Reached(g, fs, z))
  }

  /** One slot of one inode went from empty to `v`; all other slots are as before. */
  ghost predicate Hooked(g: Geo, a: Fs, b: Fs, i: int, s: Slot, v: nat)
    requires Shape(g, a)
  {
    && Shape(g, b) && b.bits == a.bits && |b.inos| == |a.inos|
    && ValidOwner(g, a, i, s) && Own(g, a, i, s) == 0
    && forall i', s' | ValidOwner(g, a, i', s') ::
         Own(g, b, i', s') == if i' == i && s' == s then v else Own(g, a, i', s')
  }

  /** Recording a zone that was in hand keeps zone conservation. */
  lemma TidyHook(g: Geo, a: Fs, b: Fs, held: set<nat>, i: int, s: Slot, v: nat)
    requires Tidy(g, a, held) && v in held && Hooked(g, a, b, i, s, v)
    ensures Tidy(g, b, held - {v})
  {
    forall z | LegalZone(g, z) ensures b.bits[BitOf(g, z)] <==> z in held - {v} || Reached(g, b, z) {
      HookReached(g, a, b, i, s, v, z);
    }
    forall z | z in held - {v} ensures !Reached(g, b, z) {
      HookReached(g, a, b, i, s, v, z);
    }
  }

  lemma HookReached(g: Geo, a: Fs, b: Fs, i: int, s: Slot, v: nat, z: nat)
    requires Shape(g, a) && Hooked(g, a, b, i, s, v) && z != 0
    ensures Reached(g, b, z) <==> z == v || Reached(g, a, z)
  {
    if Reached(g, a, z) {
      var i', s' :| ValidOwner(g, a, i', s') && Own(g, a, i', s') == z;
      assert ValidOwner(g, b, i', s') && Own(g, b, i', s') == z;
    }
    if z == v { assert ValidOwner(g, b, i, s) && Own(g, b, i, s) == z; }
    if Reached(g, b, z) {
      var i', s' :| ValidOwner(g, b, i', s') && Own(g, b, i', s') == z;
      assert ValidOwner(g, a, i', s');
    }
  }

  // ---------- What a change of a block does to the slots ----------

  lemma EntryFrame(g: Geo, st: Store, b: nat, blk: Block, z: nat, i: nat)
    requires GeoOk(g) && i < g.nind && b != BlockNo(g, z, 0)
    ensures Entry(g, st[b := blk], z, i) == Entry(g, st, z, i)
  {
  }

  /** `b` is not a block that holds zone numbers of `zone`'s tree. */
  ghost predicate NotIndirect(g: Geo, st: Store, zone: seq<nat>, b: nat)
    requires GeoOk(g) && |zone| == g.ndz + 2
  {
    forall s | ValidSlot(g, s) && !s.Data? :: SlotZone(g, st, zone, s) != 0 ==> b != BlockNo(g, SlotZone(g, st, zone, s), 0)
  }

  /** Writing any other block leaves every slot as it is. */
  lemma SlotFrame(g: Geo, st: Store, zone: seq<nat>, b: nat, blk: Block, s: Slot)
    requires GeoOk(g) && |zone| == g.ndz + 2 && ValidSlot(g, s) && NotIndirect(g, st, zone, b)
    ensures SlotZone(g, st[b := blk], zone, s) == SlotZone(g, st, zone, s)
  {
    var st' := st[b := blk];
    var z := zone[g.ndz + 1];
    assert SlotZone(g, st, zone, Ind) == zone[g.ndz] && SlotZone(g, st, zone, Dbl) == z;
    match s
    case Sub(j) =>
      if z != 0 { EntryFrame(g, st, b, blk, z, j); }
    case Data(Single(i)) =>
      if zone[g.ndz] != 0 { EntryFrame(g, st, b, blk, zone[g.ndz], i); }
    case Data(Double(j, i)) =>
      var y := SlotZone(g, st, zone, Sub(j));
      if z != 0 { EntryFrame(g, st, b, blk, z, j); }
      if y != 0 { EntryFrame(g, st, b, blk, y, i); }
    case _ =>
  }

  /** Two file systems that record the same zones in the same places. */
  ghost predicate SameSlots(g: Geo, a: Fs, b: Fs)
    requires Shape(g, a)
  {
    && Shape(g, b) && |b.inos| == |a.inos|
    && forall i, s | ValidOwner(g, a, i, s) :: Own(g, b, i, s) == Own(g, a, i, s)
  }

  lemma TidySame(g: Geo, a: Fs, b: Fs, held: set<nat>)
    requires Tidy(g, a, held) && SameSlots(g, a, b) && b.bits == a.bits
    ensures Tidy(g, b, held)
  {
    forall z ensures Reached(g, a, z) <==> Reached(g, b, z) {
      if Reached(g, a, z) {
        var i, s :| ValidOwner(g, a, i, s) && Own(g, a, i, s) == z;
        assert ValidOwner(g, b, i, s) && Own(g, b, i, s) == z;
      }
      if Reached(g, b, z) {
        var i, s :| ValidOwner(g, b, i, s) && Own(g, b, i, s) == z;
        assert ValidOwner(g, a, i, s) && Own(g, a, i, s) == z;
      }
    }
  }

  /** Zone `z` holds no zone numbers: it is nobody's indirect zone. */
  ghost predicate NoTable(g: Geo, fs: Fs, z: nat)
    requires Shape(g, fs)
  {
    forall i, s | ValidOwner(g, fs, i, s) && !s.Data? :: Own(g, fs, i, s) != z
  }

  /** Writing a block of such a zone records nothing. */
  lemma WriteElsewhere(g: Geo, a: Fs, z: nat, off: nat, blk: Block)
    requires Shape(g, a) && NoTable(g, a, z) && off < g.spz
    ensures SameSlots(g, a, a.(store := a.store[BlockNo(g, z, off) := blk]))
  {
    var b := a.(store := a.store[BlockNo(g, z, off) := blk]);
    forall i, s | ValidOwner(g, a, i, s) ensures Own(g, b, i, s) == Own(g, a, i, s) {
      forall t | ValidSlot(g, t) && !t.Data? && SlotZone(g, a.store, a.inos[i].zone, t) != 0
        ensures BlockNo(g, z, off) != BlockNo(g, SlotZone(g, a.store, a.inos[i].zone, t), 0)
      {
        assert Own(g, a, i, t) != z;
        if BlockNo(g, z, off) == BlockNo(g, Own(g, a, i, t), 0) { BlockNoUnique(g, z, off, Own(g, a, i, t), 0); }
      }
      SlotFrame(g, a.store, a.inos[i].zone, BlockNo(g, z, off), blk, s);
    }
  }

  // ---------- Recording a zone ----------

  function SetZone(fs: Fs, i: nat, k: nat, v: nat): Fs
    requires i < |fs.inos| && k < |fs.inos[i].zone|
  {
    fs.(inos := fs.inos[i := fs.inos[i].(zone := fs.inos[i].zone[k := v])])
  }

  /** A zone without entries. */
  ghost predicate Empty(g: Geo, st: Store, z: nat)
    requires GeoOk(g)
  {
    forall x | 0 <= x < g.nind :: Entry(g, st, z, x) == 0
  }

  /** The slot that zone field `k` of an inode is. */
  function FieldSlot(g: Geo, k: nat): Slot {
    if k < g.ndz then Data(Direct(k)) else if k == g.ndz then Ind else Dbl
  }

  /** Recording a zone in the inode; an indirect zone must have no entries yet. */
  lemma HookField(g: Geo, a: Fs, i: nat, k: nat, v: nat)
    requires Shape(g, a) && i < |a.inos| && k < g.ndz + 2 && a.inos[i].zone[k] == 0
    requires k >= g.ndz ==> Empty(g, a.store, v)
    ensures Hooked(g, a, SetZone(a, i, k, v), i, FieldSlot(g, k), v)
  {
    var b := SetZone(a, i, k, v);
    forall i', s' | ValidOwner(g, a, i', s')
      ensures Own(g, b, i', s') == if i' == i && s' == FieldSlot(g, k) then v else Own(g, a, i', s')
    {
      if i' == i {
        match s'
        case Sub(j) => if k == g.ndz + 1 { assert Entry(g, a.store, v, j) == 0; }
        case Data(Single(x)) => if k == g.ndz { assert Entry(g, a.store, v, x) == 0; }
        case Data(Double(j, x)) => if k == g.ndz + 1 { assert Entry(g, a.store, v, j) == 0; }
        case _ =>
      }
    }
  }

  function SetEntry(g: Geo, fs: Fs, z: nat, x: nat, v: nat): Fs
    requires GeoOk(g) && x < g.nind
  {
    var b := BlockNo(g, z, 0);
    fs.(store := fs.store[b := WrIndir(At(g, fs.store, b), x, g.width, g.native, v)])
  }

  lemma SetEntryHere(g: Geo, fs: Fs, z: nat, x: nat, v: nat, y: nat)
    requires GeoOk(g) && x < g.nind && y < g.nind && v < Pow256(g.width)
    ensures Entry(g, SetEntry(g, fs, z, x, v).store, z, y) == if x == y then v else Entry(g, fs.store, z, y)
  {
    EntryRoundTrip(At(g, fs.store, BlockNo(g, z, 0)), x, y, g.width, g.native, v);
  }

  lemma SetEntryThere(g: Geo, fs: Fs, z: nat, x: nat, v: nat, z': nat, y: nat)
    requires GeoOk(g) && x < g.nind && y < g.nind && z != z'
    ensures Entry(g, SetEntry(g, fs, z, x, v).store, z', y) == Entry(g, fs.store, z', y)
  {
    if BlockNo(g, z, 0) == BlockNo(g, z', 0) { BlockNoUnique(g, z, 0, z', 0); }
  }

  /** The slot that entry `x` of the indirect zone at slot `t` is. */
  function Child(t: Slot, x: nat): Slot
    requires !t.Data?
  {
    match t
    case Ind => Data(Single(x))
    case Dbl => Sub(x)
    case Sub(j) => Data(Double(j, x))
  }

  lemma HookEntrySub(g: Geo, a: Fs, held: set<nat>, i: nat, t: Slot, x: nat, v: nat, i': int, j: nat)
    requires Tidy(g, a, held) && v in held && ValidOwner(g, a, i, t) && !t.Data? && x < g.nind
    requires Own(g, a, i, t) != 0 && Own(g, a, i, Child(t, x)) == 0
    requires ValidOwner(g, a, i', Sub(j))
    ensures Own(g, SetEntry(g, a, Own(g, a, i, t), x, v), i', Sub(j))
      == if i' == i && Sub(j) == Child(t, x) then v else Own(g, a, i', Sub(j))
  {
    var z, y := Own(g, a, i, t), Own(g, a, i', Dbl);
    if y != 0 {
      if y == z {
        assert i' == i && t == Dbl;
        SetEntryHere(g, a, z, x, v, j);
      } else {
        SetEntryThere(g, a, z, x, v, y, j);
      }
    }
  }

  /** Recording a zone in an indirect block; an indirect zone must have no entries yet. */
  lemma HookEntry(g: Geo, a: Fs, held: set<nat>, i: nat, t: Slot, x: nat, v: nat)
    requires Tidy(g, a, held) && v in held && ValidOwner(g, a, i, t) && !t.Data? && x < g.nind
    requires Own(g, a, i, t) != 0 && Own(g, a, i, Child(t, x)) == 0
    requires t == Dbl ==> Empty(g, a.store, v)
    ensures Hooked(g, a, SetEntry(g, a, Own(g, a, i, t), x, v), i, Child(t, x), v)
  {
    var z := Own(g, a, i, t);
    var b := SetEntry(g, a, z, x, v);
    forall i', s' | ValidOwner(g, a, i', s')
      ensures Own(g, b, i', s') == if i' == i && s' == Child(t, x) then v else Own(g, a, i', s')
    {
      match s'
      case Sub(j) => HookEntrySub(g, a, held, i, t, x, v, i', j);
      case Data(Single(y)) =>
        var w := Own(g, a, i', Ind);
        if w != 0 {
          if w == z { assert i' == i && t == Ind; SetEntryHere(g, a, z, x, v, y); }
          else { SetEntryThere(g, a, z, x, v, w, y); }
        }
      case Data(Double(j, y)) =>
        HookEntrySub(g, a, held, i, t, x, v, i', j);
        HookEntryLeaf(g, a, held, i, t, x, v, i', j, y);
      case _ =>
    }
  }

  lemma HookEntryLeaf(g: Geo, a: Fs, held: set<nat>, i: nat, t: Slot, x: nat, v: nat, i': int, j: nat, y: nat)
    requires Tidy(g, a, held) && v in held && ValidOwner(g, a, i, t) && !t.Data? && x < g.nind
    requires Own(g, a, i, t) != 0 && Own(g, a, i, Child(t, x)) == 0
    requires t == Dbl ==> Empty(g, a.store, v)
    requires ValidOwner(g, a, i', Data(Double(j, y)))
    ensures Own(g, SetEntry(g, a, Own(g, a, i, t), x, v), i', Data(Double(j, y)))
      == if i' == i && Data(Double(j, y)) == Child(t, x) then v else Own(g, a, i', Data(Double(j, y)))
  {
    var z := Own(g, a, i, t);
    var w := Own(g, a, i', Sub(j));
    HookEntrySub(g, a, held, i, t, x, v, i', j);
    if i' == i && Sub(j) == Child(t, x) {
      assert z != v;
      SetEntryThere(g, a, z, x, v, v, y);
      assert Entry(g, a.store, v, y) == 0;
    } else if w != 0 {
      if w == z { assert i' == i && t == Sub(j); SetEntryHere(g, a, z, x, v, y); }
      else { SetEntryThere(g, a, z, x, v, w, y); }
    }
  }

  /** A zeroed block makes its zone an indirect zone without entries. */
  lemma ZeroedEmpty(g: Geo, st: Store, z: nat)
    requires GeoOk(g)
    ensures Empty(g, st[BlockNo(g, z, 0) := Zeros(g.bs)], z)
  {
    var st' := st[BlockNo(g, z, 0) := Zeros(g.bs)];
    forall x | 0 <= x < g.nind ensures Entry(g, st', z, x) == 0 {
      ZeroEntry(g.bs, x, g.width, g.native);
    }
  }

  // ---------- File contents ----------

  /** Block `off` of the zone at position `p` of a file; a hole reads as zeros. */
  function DataBlock(g: Geo, fs: Fs, i: int, p: Pos, off: nat): (r: Block)
    requires GeoOk(g) && ValidOwner(g, fs, i, Data(p)) && |fs.inos[i].zone| == g.ndz + 2
    ensures |r| == g.bs
  {
    var z := Own(g, fs, i, Data(p));
    if z == 0 then Zeros(g.bs) else At(g, fs.store, BlockNo(g, z, off))
  }

  /** All data of all files is as before, except at position `p` of file `i`. */
  ghost predicate DataFrame(g: Geo, a: Fs, b: Fs, i: int, p: Pos)
    requires Shape(g, a)
  {
    && Shape(g, b) && |b.inos| == |a.inos|
    && forall i', p', off: nat | ValidOwner(g, a, i', Data(p')) && off < g.spz && (i' != i || p' != p) ::
         DataBlock(g, b, i', p', off) == DataBlock(g, a, i', p', off)
  }

  /** Zone `z` holds no data of any file. */
  ghost predicate NoData(g: Geo, fs: Fs, z: nat)
    requires Shape(g, fs)
  {
    forall i, p | ValidOwner(g, fs, i, Data(p)) :: Own(g, fs, i, Data(p)) != z
  }

  /** Data slots are as before, except position `p` of file `i`. */
  ghost predicate DataSlots(g: Geo, a: Fs, b: Fs, i: int, p: Pos)
    requires Shape(g, a)
  {
    && Shape(g, b) && |b.inos| == |a.inos|
    && forall i', p' | ValidOwner(g, a, i', Data(p')) && (i' != i || p' != p) ::
         Own(g, b, i', Data(p')) == Own(g, a, i', Data(p'))
  }

  /** Writing a block of a zone without data disturbs no data. */
  lemma TableWriteFrame(g: Geo, a: Fs, b: Fs, z: nat, blk: Block, i: int, p: Pos)
    requires Shape(g, a) && NoData(g, a, z) && DataSlots(g, a, b, i, p)
    requires b.store == a.store[BlockNo(g, z, 0) := blk]
    ensures DataFrame(g, a, b, i, p)
  {
    forall i', p', off: nat | ValidOwner(g, a, i', Data(p')) && off < g.spz && (i' != i || p' != p)
      ensures DataBlock(g, b, i', p', off) == DataBlock(g, a, i', p', off)
    {
      var w := Own(g, a, i', Data(p'));
      if BlockNo(g, w, off) == BlockNo(g, z, 0) { BlockNoUnique(g, w, off, z, 0); }
    }
  }

  lemma FieldFrame(g: Geo, a: Fs, b: Fs, i: int, p: Pos)
    requires Shape(g, a) && DataSlots(g, a, b, i, p) && b.store == a.store
    ensures DataFrame(g, a, b, i, p)
  {
  }

  lemma DataFrameThen(g: Geo, a: Fs, b: Fs, c: Fs, i: int, p: Pos)
    requires Shape(g, a) && DataFrame(g, a, b, i, p) && DataFrame(g, b, c, i, p)
    ensures DataFrame(g, a, c, i, p)
  {
    forall i', p', off: nat | ValidOwner(g, a, i', Data(p')) && off < g.spz && (i' != i || p' != p)
      ensures DataBlock(g, c, i', p', off) == DataBlock(g, a, i', p', off)
    {
      assert ValidOwner(g, b, i', Data(p'));
      assert DataBlock(g, b, i', p', off) == DataBlock(g, a, i', p', off);
    }
  }

  // ---------- Recording zones step by step ----------

  function Zeroed(g: Geo, fs: Fs, z: nat): Fs {
    fs.(store := fs.store[BlockNo(g, z, 0) := Zeros(g.bs)])
  }

  /** From `a` to `b` slot `s` of file `i` got zone `v`; nothing else is recorded
      differently, and no data changed except possibly at position `p` of that file. */
  ghost predicate Linked(g: Geo, a: Fs, b: Fs, i: nat, s: Slot, v: nat, p: Pos)
    requires Shape(g, a)
  {
    && Hooked(g, a, b, i, s, v) && DataFrame(g, a, b, i, p)
    && forall x :: 0 <= x < |a.inos| ==> b.inos[x].size == a.inos[x].size
  }

  lemma HeldNoTable(g: Geo, a: Fs, held: set<nat>, z: nat)
    requires Tidy(g, a, held) && z in held
    ensures NoTable(g, a, z) && NoData(g, a, z)
  {
  }

  lemma TableNoData(g: Geo, a: Fs, held: set<nat>, i: int, t: Slot)
    requires Tidy(g, a, held) && ValidOwner(g, a, i, t) && !t.Data? && Own(g, a, i, t) != 0
    ensures NoData(g, a, Own(g, a, i, t))
  {
  }

  /** Clearing the first block of a zone in hand. */
  lemma ZeroHeld(g: Geo, a: Fs, held: set<nat>, z: nat, i: int, p: Pos)
    requires Tidy(g, a, held) && z in held
    ensures var b := Zeroed(g, a, z);
      Tidy(g, b, held) && SameSlots(g, a, b) && Empty(g, b.store, z) && DataFrame(g, a, b, i, p)
  {
    HeldNoTable(g, a, held, z);
    WriteElsewhere(g, a, z, 0, Zeros(g.bs));
    TidySame(g, a, Zeroed(g, a, z), held);
    ZeroedEmpty(g, a.store, z);
    TableWriteFrame(g, a, Zeroed(g, a, z), z, Zeros(g.bs), i, p);
  }

  lemma LinkField(g: Geo, a: Fs, held: set<nat>, i: nat, k: nat, v: nat, p: Pos)
    requires Tidy(g, a, held) && v in held && i < |a.inos| && k < g.ndz + 2 && a.inos[i].zone[k] == 0
    requires k < g.ndz ==> p == Direct(k)
    requires k >= g.ndz ==> Empty(g, a.store, v)
    ensures var b := SetZone(a, i, k, v); Tidy(g, b, held - {v}) && Linked(g, a, b, i, FieldSlot(g, k), v, p)
  {
    HookField(g, a, i, k, v);
    TidyHook(g, a, SetZone(a, i, k, v), held, i, FieldSlot(g, k), v);
    FieldFrame(g, a, SetZone(a, i, k, v), i, p);
  }

  lemma LinkEntry(g: Geo, a: Fs, held: set<nat>, i: nat, t: Slot, x: nat, v: nat, p: Pos)
    requires Tidy(g, a, held) && v in held && ValidOwner(g, a, i, t) && !t.Data? && x < g.nind
    requires Own(g, a, i, t) != 0 && Own(g, a, i, Child(t, x)) == 0
    requires t == Dbl ==> Empty(g, a.store, v)
    requires Child(t, x).Data? ==> Child(t, x) == Data(p)
    ensures var b := SetEntry(g, a, Own(g, a, i, t), x, v);
      Tidy(g, b, held - {v}) && Linked(g, a, b, i, Child(t, x), v, p)
  {
    var z := Own(g, a, i, t);
    var b := SetEntry(g, a, z, x, v);
    HookEntry(g, a, held, i, t, x, v);
    TidyHook(g, a, b, held, i, Child(t, x), v);
    TableNoData(g, a, held, i, t);
    TableWriteFrame(g, a, b, z, WrIndir(At(g, a.store, BlockNo(g, z, 0)), x, g.width, g.native, v), i, p);
  }

  /** Two blocks of different zones can be written in either order. */
  lemma WritesCommute(g: Geo, a: Fs, z: nat, x: nat, v: nat, y: nat)
    requires GeoOk(g) && x < g.nind && y != z
    ensures Zeroed(g, SetEntry(g, a, z, x, v), y).store == SetEntry(g, Zeroed(g, a, y), z, x, v).store
  {
    if BlockNo(g, y, 0) == BlockNo(g, z, 0) { BlockNoUnique(g, y, 0, z, 0); }
  }

  // ---------- The effect of write_map and of allocations inside it ----------

  /** Only positions other than `p` of file `i` count: their zones and all their data are
      as before; so are the file sizes. */
  ghost predicate Elsewhere(g: Geo, a: Fs, b: Fs, i: nat, p: Pos)
    requires Shape(g, a)
  {
    && DataSlots(g, a, b, i, p) && DataFrame(g, a, b, i, p)
    && forall x :: 0 <= x < |a.inos| ==> b.inos[x].size == a.inos[x].size
  }

  lemma ElsewhereThen(g: Geo, a: Fs, b: Fs, c: Fs, i: nat, p: Pos)
    requires Shape(g, a) && Elsewhere(g, a, b, i, p) && Elsewhere(g, b, c, i, p)
    ensures Elsewhere(g, a, c, i, p)
  {
    DataFrameThen(g, a, b, c, i, p);
    forall i', p' | ValidOwner(g, a, i', Data(p')) && (i' != i || p' != p)
      ensures Own(g, c, i', Data(p')) == Own(g, a, i', Data(p'))
    {
      assert ValidOwner(g, b, i', Data(p'));
    }
  }

  lemma LinkedElsewhere(g: Geo, a: Fs, b: Fs, i: nat, s: Slot, v: nat, p: Pos)
    requires Shape(g, a) && Linked(g, a, b, i, s, v, p) && (s.Data? ==> s == Data(p))
    ensures Elsewhere(g, a, b, i, p)
    ensures ValidPos(g, p) && s != Data(p) ==> Own(g, b, i, Data(p)) == Own(g, a, i, Data(p))
  {
  }

  /** The zone map may change freely. */
  lemma BitsElsewhere(g: Geo, a: Fs, b: Fs, i: nat, p: Pos)
    requires Shape(g, a) && Shape(g, b) && b.store == a.store && b.inos == a.inos
    ensures Elsewhere(g, a, b, i, p)
    ensures ValidOwner(g, a, i, Data(p)) ==> Own(g, b, i, Data(p)) == Own(g, a, i, Data(p))
  {
  }

  lemma SameElsewhere(g: Geo, a: Fs, b: Fs, i: nat, p: Pos)
    requires Shape(g, a) && SameSlots(g, a, b) && DataFrame(g, a, b, i, p) && b.inos == a.inos
    ensures Elsewhere(g, a, b, i, p)
  {
  }
}
