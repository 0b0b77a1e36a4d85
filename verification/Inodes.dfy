module Inodes {
  /** The inode table, a write-back cache with use counts, and the inode bit maps. */

  import opened Storage
  import opened BitAlloc

  /** I_NOT_ALLOC: the mode of an inode that belongs to no file. */
  const NOT_ALLOC: nat := 0

  datatype Id = Id(dev: nat, num: nat)

  /** The fields of an inode that are on disk. */
  datatype Body = Body(mode: nat, nlinks: nat, size: nat, zones: seq<nat>)

  datatype Slot = Slot(id: Id, count: nat, dirty: bool, body: Body)

  datatype Super = Super(bits: seq<bool>, isearch: nat, rdOnly: bool)

  datatype State = State(slots: seq<Slot>, disk: map<Id, Body>, supers: map<nat, Super>)

  function Stored(disk: map<Id, Body>, id: Id): Body {
    if id in disk then disk[id] else Body(NOT_ALLOC, 0, 0, [])
  }

  predicate Is(slot: Slot, id: Id) {
    slot.count > 0 && slot.id == id
  }

  /** The slot in use for an inode, or NIL. */
  function Holder(slots: seq<Slot>, id: Id): (i: int)
    ensures NIL <= i < |slots|
    ensures i != NIL ==> Is(slots[i], id)
    ensures i == NIL ==> forall j :: 0 <= j < |slots| ==> !Is(slots[j], id)
  {
    if slots == [] then NIL
    else
      var i := Holder(slots[..|slots| - 1], id);
      if i != NIL then i else if Is(slots[|slots| - 1], id) then |slots| - 1 else NIL
  }

  /** The last unused slot, or NIL. */
  function Unused(slots: seq<Slot>): (i: int)
    ensures NIL <= i < |slots|
    ensures i != NIL ==> slots[i].count == 0
    ensures forall j :: i < j < |slots| ==> slots[j].count > 0
  {
    if slots == [] then NIL
    else if slots[|slots| - 1].count == 0 then |slots| - 1
    else Unused(slots[..|slots| - 1])
  }

  // ---------- What the table keeps ----------

  ghost predicate Known(s: State, id: Id) {
    id.dev in s.supers && 0 < id.num < |s.supers[id.dev].bits|
  }

  ghost predicate Allocated(s: State, id: Id)
    requires Known(s, id)
  {
    s.supers[id.dev].bits[id.num]
  }

  /** No inode is in two slots; a slot not marked dirty agrees with the disk. */
  ghost predicate SlotsOk(s: State) {
    && (forall i, j :: 0 <= i < j < |s.slots| && s.slots[i].count > 0 && s.slots[j].count > 0 ==> s.slots[i].id != s.slots[j].id)
    && (forall i :: 0 <= i < |s.slots| && s.slots[i].count > 0 ==>
      (Known(s, s.slots[i].id) && (!s.slots[i].dirty ==> s.slots[i].body == Stored(s.disk, s.slots[i].id))))
  }

  ghost predicate MapsOk(s: State) {
    NO_DEV !in s.supers && forall d :: d in s.supers ==> Good(BitMap(s.supers[d].bits, s.supers[d].isearch))
  }

  ghost predicate InUse(s: State, id: Id) {
    Holder(s.slots, id) != NIL
  }

  /** The set bits of the inode maps are the inodes in use and the inodes with links, no others. */
  ghost predicate Conserved(s: State) {
    forall id :: Known(s, id) ==> (Allocated(s, id) <==> InUse(s, id) || Stored(s.disk, id).nlinks > 0)
  }

  ghost predicate Inv(s: State) {
    SlotsOk(s) && MapsOk(s) && Conserved(s)
  }

  /** The inode that the table and the disk together stand for. */
  ghost function Current(s: State, id: Id): Body {
    if InUse(s, id) then s.slots[Holder(s.slots, id)].body else Stored(s.disk, id)
  }

  // ---------- The operations on values ----------

  function SetSlot(s: State, i: nat, slot: Slot): State
    requires i < |s.slots|
  {
    s.(slots := s.slots[i := slot])
  }

  /** get_inode; NIL if the table is full. */
  function Get(s: State, id: Id): (State, int) {
    var i := Holder(s.slots, id);
    if i != NIL then (SetSlot(s, i, s.slots[i].(count := s.slots[i].count + 1)), i)
    else
      var x := Unused(s.slots);
      if x == NIL then (s, NIL) else (SetSlot(s, x, Slot(id, 1, false, Stored(s.disk, id))), x)
  }

  function SetBit(s: State, id: Id, value: bool, hint: nat): State
    requires id.dev in s.supers && id.num < |s.supers[id.dev].bits|
  {
    var sp := s.supers[id.dev];
    s.(supers := s.supers[id.dev := sp.(bits := sp.bits[id.num := value], isearch := hint)])
  }

  /** rw_inode(rip, WRITING). */
  function WriteBack(s: State, i: nat): State
    requires i < |s.slots|
  {
    var x := s.slots[i];
    State(s.slots[i := x.(dirty := false)], s.disk[x.id := x.body], s.supers)
  }

  /** Is this put_inode the one that removes the file? */
  predicate Removes(s: State, i: nat)
    requires i < |s.slots|
  {
    s.slots[i].count == 1 && s.slots[i].body.nlinks == 0
  }

  /** put_inode. */
  function Put(s: State, i: nat): State
    requires i < |s.slots| && s.slots[i].count > 0 && s.slots[i].id.dev in s.supers
    requires s.slots[i].id.num < |s.supers[s.slots[i].id.dev].bits|
  {
    var x := s.slots[i];
    var t := SetSlot(s, i, x.(count := x.count - 1));
    if x.count > 1 then t
    else if Removes(s, i) then
      var hint := s.supers[x.id.dev].isearch;
      var u := SetBit(t, x.id, false, if x.id.num < hint then x.id.num else hint);
      WriteBack(SetSlot(u, i, t.slots[i].(body := x.body.(mode := NOT_ALLOC), dirty := true)), i)
    else if x.dirty then WriteBack(t, i)
    else t
  }

  /** A holder changes the inode and marks it dirty. */
  function Change(s: State, i: nat, body: Body): State
    requires i < |s.slots|
  {
    SetSlot(s, i, s.slots[i].(body := body, dirty := true))
  }

  /** The inode of a new file, as alloc_inode and wipe_inode leave it. */
  function NewBody(mode: nat, nzones: nat): Body {
    Body(mode, 0, 0, seq(nzones, i => 0))
  }

  /** alloc_inode; 0 and NIL if there is no number or no slot left. */
  function Alloc(s: State, dev: nat, mode: nat, nzones: nat, chunk: nat): (State, int)
    requires dev in s.supers && chunk > 0
  {
    var sp := s.supers[dev];
    var b := Found(sp.bits, sp.isearch, chunk);
    var x := Unused(s.slots);
    if sp.rdOnly || b == NO_BIT then (s, NIL)
    else if x == NIL then (s.(supers := s.supers[dev := sp.(isearch := b)]), NIL)
    else (SetSlot(SetBit(s, Id(dev, b), true, b), x, Slot(Id(dev, b), 1, true, NewBody(mode, nzones))), x)
  }

  // ---------- What they keep and what they show ----------

  lemma HolderIs(s: State, i: nat)
    requires SlotsOk(s) && i < |s.slots| && s.slots[i].count > 0
    ensures Holder(s.slots, s.slots[i].id) == i
  {
    var j := Holder(s.slots, s.slots[i].id);
    assert Is(s.slots[i], s.slots[i].id);
  }

  /** Changing a slot, without giving it an inode that another slot holds: the other inodes are held as before. */
  lemma SlotChange(s: State, t: State, i: nat, id: Id)
    requires SlotsOk(s) && i < |s.slots| && |t.slots| == |s.slots| && t.slots == s.slots[i := t.slots[i]]
    requires s.slots[i].count > 0 ==> s.slots[i].id != id
    requires t.slots[i].count > 0 ==> t.slots[i].id != id
    ensures Holder(t.slots, id) == NIL <==> Holder(s.slots, id) == NIL
    ensures var h := Holder(s.slots, id); h != NIL ==> s.slots[h] == t.slots[Holder(t.slots, id)]
  {
    var h, k := Holder(s.slots, id), Holder(t.slots, id);
    if h != NIL { assert Is(t.slots[h], id); }
    if k != NIL { assert Is(s.slots[k], id); }
  }

  /** The supers of two states tell the same about every inode but `id`. */
  ghost predicate SameMapsBut(s: State, t: State, id: Id) {
    && (forall o :: Known(s, o) <==> Known(t, o))
    && (forall o :: o != id && Known(s, o) ==> Allocated(s, o) == Allocated(t, o))
  }

  /** From `s` to `t` only the inode `id` and its slot `i` have changed. */
  ghost predicate OnlyOne(s: State, t: State, i: nat, id: Id) {
    && i < |s.slots| == |t.slots| && t.slots == s.slots[i := t.slots[i]]
    && (s.slots[i].count > 0 ==> s.slots[i].id == id) && (t.slots[i].count > 0 ==> t.slots[i].id == id)
    && (forall o :: o != id ==> Stored(s.disk, o) == Stored(t.disk, o))
    && SameMapsBut(s, t, id)
  }

  /** Then everything about other inodes is as before, and what must be checked is about this one. */
  lemma OnlyOneKeeps(s: State, t: State, i: nat, id: Id)
    requires Inv(s) && OnlyOne(s, t, i, id) && MapsOk(t) && Known(t, id)
    requires t.slots[i].count > 0 ==> (!t.slots[i].dirty ==> t.slots[i].body == Stored(t.disk, id))
    requires s.slots[i].count == 0 ==> !InUse(s, id)
    requires Allocated(t, id) <==> t.slots[i].count > 0 || Stored(t.disk, id).nlinks > 0
    ensures Inv(t)
    ensures forall o :: o != id ==> Current(t, o) == Current(s, o)
    ensures t.slots[i].count > 0 ==> Current(t, id) == t.slots[i].body && InUse(t, id)
    ensures t.slots[i].count == 0 && s.slots[i].count > 0 ==> Current(t, id) == Stored(t.disk, id) && !InUse(t, id)
  {
    hide MapsOk;
    SlotsKept(s, t, i, id);
    forall o | o != id ensures Current(t, o) == Current(s, o) && (InUse(t, o) <==> InUse(s, o)) {
      SlotChange(s, t, i, o);
    }
    HolderHere(s, t, i, id);
  }

  lemma SlotsKept(s: State, t: State, i: nat, id: Id)
    requires SlotsOk(s) && OnlyOne(s, t, i, id) && Known(t, id)
    requires t.slots[i].count > 0 ==> (!t.slots[i].dirty ==> t.slots[i].body == Stored(t.disk, id))
    requires s.slots[i].count == 0 ==> !InUse(s, id)
    ensures SlotsOk(t)
  {
    hide Known, Stored;
    if t.slots[i].count > 0 {
      forall j | 0 <= j < |s.slots| && j != i && s.slots[j].count > 0 ensures s.slots[j].id != id {
        if s.slots[i].count == 0 { assert !Is(s.slots[j], id); }
      }
    }
    forall j | 0 <= j < |s.slots| && j != i && s.slots[j].count > 0 && !s.slots[j].dirty
      ensures t.slots[j].body == Stored(t.disk, t.slots[j].id)
    {
      assert t.slots[j] == s.slots[j];
      HolderIs(s, j);
      if s.slots[i].count > 0 { HolderIs(s, i); }
    }
  }

  lemma HolderHere(s: State, t: State, i: nat, id: Id)
    requires SlotsOk(s) && SlotsOk(t) && OnlyOne(s, t, i, id)
    ensures t.slots[i].count > 0 ==> Holder(t.slots, id) == i
    ensures t.slots[i].count == 0 && s.slots[i].count > 0 ==> Holder(t.slots, id) == NIL
    ensures t.slots[i].count == 0 && s.slots[i].count == 0 ==> Holder(t.slots, id) == Holder(s.slots, id)
  {
    if t.slots[i].count > 0 { HolderIs(t, i); }
    var k := Holder(t.slots, id);
    if t.slots[i].count == 0 && k != NIL {
      assert Is(s.slots[k], id);
      HolderIs(s, k);
    }
    if t.slots[i].count == 0 && s.slots[i].count == 0 && Holder(s.slots, id) != NIL {
      assert Is(t.slots[Holder(s.slots, id)], id);
      HolderIs(t, Holder(s.slots, id));
    }
  }

  /** Everybody sees the same inodes. */
  ghost predicate SameInodes(s: State, t: State) {
    forall o :: Current(t, o) == Current(s, o)
  }

  /** Slot `i` has `n` users, and no other slot has changed. */
  predicate Users(s: State, t: State, i: int, n: int) {
    && 0 <= i < |s.slots| == |t.slots| && t.slots[i].count == n
    && forall j :: 0 <= j < |s.slots| && j != i ==> t.slots[j] == s.slots[j]
  }

  /** A file that is new: nothing links to it, it has no bytes and no zones. */
  predicate Empty(body: Body, mode: nat, nzones: nat) {
    && body.mode == mode && body.nlinks == 0 && body.size == 0 && |body.zones| == nzones
    && forall k :: 0 <= k < nzones ==> body.zones[k] == 0
  }

  lemma EmptyOne(a: Body, b: Body, mode: nat, nzones: nat)
    requires Empty(a, mode, nzones) && Empty(b, mode, nzones)
    ensures a == b
  {
    assert a.zones == b.zones;
  }

  /** get_inode shows the inode that was asked for and disturbs none; it fails only for want of a slot. */
  lemma GetKeeps(s: State, id: Id)
    requires Inv(s) && Known(s, id) && Allocated(s, id)
    ensures var (t, i) := Get(s, id);
      && Inv(t) && SameInodes(s, t) && |t.slots| == |s.slots| && t.supers == s.supers && t.disk == s.disk
      && (i == NIL <==> !InUse(s, id) && forall j :: 0 <= j < |s.slots| ==> s.slots[j].count > 0)
      && (i != NIL ==> 0 <= i < |s.slots| && Is(t.slots[i], id) && t.slots[i].body == Current(s, id))
      && (i != NIL ==> Users(s, t, i, if Is(s.slots[i], id) then s.slots[i].count + 1 else 1))
      && (i != NIL ==> !Is(s.slots[i], id) ==> s.slots[i].count == 0)
  {
    hide Stored, MapsOk;
    var (t, i) := Get(s, id);
    if i != NIL {
      MapsSame(s, t);
      OnlyOneKeeps(s, t, i, id);
    }
  }

  lemma SetBitGood(bits: seq<bool>, hint: nat, b: nat)
    requires Good(BitMap(bits, hint)) && 0 < b < |bits|
    ensures Good(BitMap(bits[b := false], if b < hint then b else hint))
  {}

  lemma SetBitMaps(s: State, id: Id, value: bool, hint: nat)
    requires MapsOk(s) && Known(s, id) && Good(BitMap(s.supers[id.dev].bits[id.num := value], hint))
    ensures var t := SetBit(s, id, value, hint);
      MapsOk(t) && SameMapsBut(s, t, id) && Known(t, id) && Allocated(t, id) == value
  {
    hide Good;
  }

  /** put_inode: free_bit never finds the bit off already; the last user of a file without links
      removes it, and anybody else leaves all inodes as they are. */
  lemma PutKeeps(s: State, i: nat)
    requires Inv(s) && i < |s.slots| && s.slots[i].count > 0
    ensures Known(s, s.slots[i].id) && Allocated(s, s.slots[i].id)
    ensures PutResult(s, Put(s, i), i, s.slots[i].id) && Inv(Put(s, i))
  {
    hide MapsOk, Stored;
    var x := s.slots[i];
    HolderIs(s, i);
    if Removes(s, i) {
      RemoveKeeps(s, i);
    } else {
      var t := Put(s, i);
      MapsSame(s, t);
      WrittenBack(s, x.id, x.body);
      OnlyOneKeeps(s, t, i, x.id);
    }
  }

  /** put_inode takes one user off that slot alone. */
  lemma PutChanges(s: State, i: nat)
    requires Inv(s) && i < |s.slots| && s.slots[i].count > 0 && Known(s, s.slots[i].id)
    ensures Users(s, Put(s, i), i, s.slots[i].count - 1) && NumberGiven(s, Put(s, i), i, s.slots[i].id)
  {
    hide Inv;
  }

  /** The number of a removed file is free again, and the next search starts no later than there; no
      other inode is written to the disk. */
  ghost predicate NumberGiven(s: State, t: State, i: nat, id: Id)
    requires i < |s.slots|
  {
    && id.dev in s.supers && id.num < |s.supers[id.dev].bits| && (forall o :: o != id ==> Stored(t.disk, o) == Stored(s.disk, o))
    && var sp := s.supers[id.dev];
       t.supers == if Removes(s, i) then s.supers[id.dev := sp.(bits := sp.bits[id.num := false], isearch := if id.num < sp.isearch then id.num else sp.isearch)]
                   else s.supers
  }

  ghost predicate PutResult(s: State, t: State, i: nat, id: Id)
    requires i < |s.slots|
  {
    && Inv(t) && |t.slots| == |s.slots| && (forall o :: o != id ==> Current(t, o) == Current(s, o))
    && (forall o :: Known(t, o) <==> Known(s, o)) && (forall o :: o != id && Known(s, o) ==> Allocated(t, o) == Allocated(s, o))
    && Known(t, id) && Allocated(t, id) == !Removes(s, i)
    && Current(t, id) == (if Removes(s, i) then s.slots[i].body.(mode := NOT_ALLOC) else s.slots[i].body)
    && (s.slots[i].count == 1 ==> Stored(t.disk, id) == Current(t, id))
  }

  lemma WrittenBack(s: State, id: Id, body: Body)
    ensures Stored(s.disk[id := body], id) == body && forall o :: o != id ==> Stored(s.disk[id := body], o) == Stored(s.disk, o)
  {}

  lemma SameSupers(s: State, t: State, id: Id)
    requires t.supers == s.supers
    ensures SameMapsBut(s, t, id) && (Known(s, id) ==> Known(t, id) && Allocated(t, id) == Allocated(s, id))
  {}

  lemma RemoveKeeps(s: State, i: nat)
    requires Inv(s) && i < |s.slots| && s.slots[i].count > 0 && Removes(s, i)
    ensures PutResult(s, Put(s, i), i, s.slots[i].id)
  {
    hide MapsOk, Good, Stored, Holder;
    var x, t := s.slots[i], Put(s, i);
    HolderIs(s, i);
    var hint := s.supers[x.id.dev].isearch;
    var low := if x.id.num < hint then x.id.num else hint;
    GoodAt(s, x.id.dev);
    SetBitGood(s.supers[x.id.dev].bits, hint, x.id.num);
    SetBitMaps(s, x.id, false, low);
    MapsSame(SetBit(s, x.id, false, low), t);
    SameSupers(SetBit(s, x.id, false, low), t, x.id);
    WrittenBack(s, x.id, x.body.(mode := NOT_ALLOC));
    OnlyOneKeeps(s, t, i, x.id);
  }

  lemma MapsSame(s: State, t: State)
    requires MapsOk(s) && t.supers == s.supers
    ensures MapsOk(t)
  {}

  lemma GoodAt(s: State, d: nat)
    requires MapsOk(s) && d in s.supers
    ensures Good(BitMap(s.supers[d].bits, s.supers[d].isearch))
  {}

  /** A holder's change is what everybody sees of that inode, and of no other. */
  lemma ChangeKeeps(s: State, i: nat, body: Body)
    requires Inv(s) && i < |s.slots| && s.slots[i].count > 0
    ensures var t, id := Change(s, i, body), s.slots[i].id;
      && Inv(t) && |t.slots| == |s.slots| && Current(t, id) == body && (forall o :: o != id ==> Current(t, o) == Current(s, o))
      && t.supers == s.supers
    ensures Users(s, Change(s, i, body), i, s.slots[i].count) && Change(s, i, body).slots[i].dirty
  {
    hide Stored, MapsOk;
    var t, id := Change(s, i, body), s.slots[i].id;
    HolderIs(s, i);
    MapsSame(s, t);
    OnlyOneKeeps(s, t, i, id);
  }

  /** dup_inode: somebody else is using the slot. */
  function Dup(s: State, i: nat): State
    requires i < |s.slots|
  {
    SetSlot(s, i, s.slots[i].(count := s.slots[i].count + 1))
  }

  lemma DupKeeps(s: State, i: nat)
    requires Inv(s) && i < |s.slots| && s.slots[i].count > 0
    ensures Inv(Dup(s, i)) && SameInodes(s, Dup(s, i)) && Users(s, Dup(s, i), i, s.slots[i].count + 1)
  {
    hide Stored, MapsOk;
    var t, id := Dup(s, i), s.slots[i].id;
    HolderIs(s, i);
    MapsSame(s, t);
    OnlyOneKeeps(s, t, i, id);
  }

  /** The number alloc_inode gets belongs to no file: its bit was off, nobody uses it and it has no links. */
  lemma FreeNumber(s: State, dev: nat, chunk: nat)
    requires Inv(s) && dev in s.supers && chunk > 0
    ensures
      var b := Found(s.supers[dev].bits, s.supers[dev].isearch, chunk);
      && (b == NO_BIT <==> forall k :: 0 <= k < |s.supers[dev].bits| ==> s.supers[dev].bits[k])
      && (b != NO_BIT ==>
        (Known(s, Id(dev, b)) && !Allocated(s, Id(dev, b)) && !InUse(s, Id(dev, b)) && Stored(s.disk, Id(dev, b)).nlinks == 0
        && Good(BitMap(s.supers[dev].bits[b := true], b)) && Good(BitMap(s.supers[dev].bits, b))
        && forall k :: 0 <= k < b ==> s.supers[dev].bits[k]))
  {
    hide SlotsOk;
    GoodAt(s, dev);
    FoundComplete(s.supers[dev].bits, s.supers[dev].isearch, chunk);
    HintedSearch(s.supers[dev].bits, s.supers[dev].isearch, chunk);
  }

  /** alloc_inode: the new inode is empty, its number was nobody's, and no other inode changes.  It fails
      on a read-only device, when all numbers are taken, or when the table is full; then no bit changes. */
  lemma AllocKeeps(s: State, dev: nat, mode: nat, nzones: nat, chunk: nat)
    requires Inv(s) && dev in s.supers && chunk > 0
    ensures var (t, i) := Alloc(s, dev, mode, nzones, chunk);
      && Inv(t) && |t.slots| == |s.slots|
      && (i == NIL <==>
        (s.supers[dev].rdOnly || (forall k :: 0 <= k < |s.supers[dev].bits| ==> s.supers[dev].bits[k])
        || (forall j :: 0 <= j < |s.slots| ==> s.slots[j].count > 0)))
      && (i == NIL ==> SameInodes(s, t) && forall o :: Known(s, o) ==> Known(t, o) && Allocated(t, o) == Allocated(s, o))
      && (i != NIL ==>
        (&& Users(s, t, i, 1) && s.slots[i].count == 0 && t.slots[i].id.dev == dev
         && Made(s, t, t.slots[i].id) && Empty(Current(t, t.slots[i].id), mode, nzones)
         && NumberTaken(s, t, t.slots[i].id)))
  {
    hide MapsOk, HintOk, Found;
    var (t, i) := Alloc(s, dev, mode, nzones, chunk);
    var sp := s.supers[dev];
    var b := Found(sp.bits, sp.isearch, chunk);
    FreeNumber(s, dev, chunk);
    if i != NIL {
      var id := Id(dev, b);
      SetBitMaps(s, id, true, b);
      MapsSame(SetBit(s, id, true, b), t);
      OnlyOneKeeps(s, t, i, id);
    } else if t != s {
      HintMoved(s, dev, b);
    }
  }

  /** A new inode: its number was free before, and no other inode changes. */
  ghost predicate Made(s: State, t: State, id: Id) {
    && Known(s, id) && !Allocated(s, id) && !InUse(s, id) && Stored(s.disk, id).nlinks == 0
    && Known(t, id) && Allocated(t, id) && forall o :: o != id ==> Current(t, o) == Current(s, o)
  }

  /** It is the lowest free number; its bit alone goes on, and the next search starts there. */
  ghost predicate NumberTaken(s: State, t: State, id: Id) {
    && id.dev in s.supers && id.num < |s.supers[id.dev].bits|
    && (forall k :: 0 <= k < id.num ==> s.supers[id.dev].bits[k])
    && t.supers == s.supers[id.dev := s.supers[id.dev].(bits := s.supers[id.dev].bits[id.num := true], isearch := id.num)]
  }

  lemma HintMoved(s: State, dev: nat, b: nat)
    requires Inv(s) && dev in s.supers && Good(BitMap(s.supers[dev].bits, b))
    ensures var t := s.(supers := s.supers[dev := s.supers[dev].(isearch := b)]);
      Inv(t) && SameInodes(s, t) && forall o :: Known(s, o) ==> Known(t, o) && Allocated(t, o) == Allocated(s, o)
  {
    hide Good;
    var t := s.(supers := s.supers[dev := s.supers[dev].(isearch := b)]);
    assert forall o :: Known(s, o) <==> Known(t, o);
  }

  /** The first loop of do_sync, over the first `n` slots. */
  function Sync(s: State, n: nat): (t: State)
    requires n <= |s.slots|
    ensures |t.slots| == |s.slots| && t.supers == s.supers
  {
    if n == 0 then s
    else
      var t := Sync(s, n - 1);
      if t.slots[n - 1].count > 0 && t.slots[n - 1].dirty then WriteBack(t, n - 1) else t
  }

  lemma WriteBackKeeps(s: State, i: nat)
    requires Inv(s) && i < |s.slots| && s.slots[i].count > 0
    ensures var t := WriteBack(s, i);
      Inv(t) && SameInodes(s, t) && Stored(t.disk, s.slots[i].id) == t.slots[i].body == s.slots[i].body && !t.slots[i].dirty
  {
    hide MapsOk;
    var t, id := WriteBack(s, i), s.slots[i].id;
    HolderIs(s, i);
    MapsSame(s, t);
    OnlyOneKeeps(s, t, i, id);
  }

  /** do_sync changes no inode, and then the disk has every one of them. */
  lemma {:induction false} SyncKeeps(s: State, n: nat)
    requires Inv(s) && n <= |s.slots|
    ensures var t := Sync(s, n);
      && Inv(t) && SameInodes(s, t) && (forall i :: 0 <= i < n && t.slots[i].count > 0 ==> !t.slots[i].dirty)
      && (n == |s.slots| ==> forall id :: Stored(t.disk, id) == Current(s, id))
  {
    hide MapsOk, Conserved;
    if n > 0 {
      SyncKeeps(s, n - 1);
      var t := Sync(s, n - 1);
      if t.slots[n - 1].count > 0 && t.slots[n - 1].dirty { WriteBackKeeps(t, n - 1); }
    }
    var u := Sync(s, n);
    if n == |s.slots| {
      forall id ensures Stored(u.disk, id) == Current(s, id) { assert Current(u, id) == Stored(u.disk, id); }
    }
  }

  // ---------- Whole runs ----------

  datatype Op =
    | GetInode(id: Id)
    | PutInode(slot: nat)
    | DupInode(slot: nat)
    | ChangeInode(slot: nat, body: Body)
    | AllocInode(dev: nat, mode: nat, nzones: nat)
    | SyncInodes

  /** What the callers keep to: a number to get comes from a directory, so it is allocated, and only
      slots in use are changed and given up. */
  ghost predicate Legal(s: State, op: Op) {
    match op
    case GetInode(id) => Known(s, id) && Allocated(s, id)
    case AllocInode(dev, _, _) => dev in s.supers
    case SyncInodes => true
    case _ => op.slot < |s.slots| && s.slots[op.slot].count > 0
  }

  ghost function StepOf(s: State, op: Op, chunk: nat): State
    requires Inv(s) && Legal(s, op) && chunk > 0
  {
    match op
    case GetInode(id) => Get(s, id).0
    case PutInode(i) => Put(s, i)
    case DupInode(i) => Dup(s, i)
    case ChangeInode(i, body) => Change(s, i, body)
    case AllocInode(dev, mode, nzones) => Alloc(s, dev, mode, nzones, chunk).0
    case SyncInodes => Sync(s, |s.slots|)
  }

  /** The inode `id` after a step, given what it was before: a change by its holder, its creation and
      its removal count, and nothing else. */
  ghost function After(s: State, op: Op, chunk: nat, id: Id, was: Body): Body
    requires Inv(s) && Legal(s, op) && chunk > 0
  {
    match op
    case ChangeInode(i, body) => if s.slots[i].id == id then body else was
    case PutInode(i) => if s.slots[i].id == id && Removes(s, i) then was.(mode := NOT_ALLOC) else was
    case AllocInode(dev, mode, nzones) =>
      var (t, i) := Alloc(s, dev, mode, nzones, chunk);
      if i != NIL && t.slots[i].id == id then Body(mode, 0, 0, seq(nzones, k => 0)) else was
    case _ => was
  }

  lemma StepMeaning(s: State, op: Op, chunk: nat, id: Id)
    requires Inv(s) && Legal(s, op) && chunk > 0
    ensures Inv(StepOf(s, op, chunk)) && Current(StepOf(s, op, chunk), id) == After(s, op, chunk, id, Current(s, id))
  {
    hide Inv, Get, Put, Alloc, Sync, Dup, Change, Stored;
    match op
    case GetInode(o) => GetKeeps(s, o);
    case PutInode(i) => PutKeeps(s, i); HolderOf(s, i);
    case DupInode(i) => DupKeeps(s, i);
    case ChangeInode(i, body) => ChangeKeeps(s, i, body);
    case AllocInode(dev, mode, nzones) =>
      AllocKeeps(s, dev, mode, nzones, chunk);
      var (t, i) := Alloc(s, dev, mode, nzones, chunk);
      if i != NIL { EmptyOne(Current(t, t.slots[i].id), Body(mode, 0, 0, seq(nzones, k => 0)), mode, nzones); }
    case SyncInodes => SyncKeeps(s, |s.slots|);
  }

  lemma HolderOf(s: State, i: nat)
    requires Inv(s) && i < |s.slots| && s.slots[i].count > 0
    ensures Current(s, s.slots[i].id) == s.slots[i].body
  {
    HolderIs(s, i);
  }

  ghost function Step(s: State, op: Op, chunk: nat): (t: State)
    requires Inv(s) && Legal(s, op) && chunk > 0
    ensures Inv(t) && t == StepOf(s, op, chunk)
  {
    StepMeaning(s, op, chunk, Id(0, 0));
    StepOf(s, op, chunk)
  }

  ghost predicate LegalRun(s: State, ops: seq<Op>, chunk: nat)
    requires Inv(s) && chunk > 0
    decreases |ops|
  {
    ops == []
    || (Legal(s, ops[0]) && LegalRun(Step(s, ops[0], chunk), ops[1..], chunk))
  }

  /** The state after a run, and the inode `id` as its holders left it. */
  ghost function Run(s: State, ops: seq<Op>, chunk: nat, id: Id, was: Body): (State, Body)
    requires Inv(s) && chunk > 0 && LegalRun(s, ops, chunk)
    decreases |ops|
  {
    if ops == [] then (s, was) else Run(Step(s, ops[0], chunk), ops[1..], chunk, id, After(s, ops[0], chunk, id, was))
  }

  /** After any run of the operations get_inode answers with what the holders of the inode made of it,
      through however many slots and disk blocks it went. */
  lemma {:induction false} TableTransparent(s: State, ops: seq<Op>, chunk: nat, id: Id)
    requires Inv(s) && chunk > 0 && LegalRun(s, ops, chunk)
    ensures
      var (t, body) := Run(s, ops, chunk, id, Current(s, id));
      && Inv(t) && Current(t, id) == body
      && (Known(t, id) && Allocated(t, id) && Get(t, id).1 != NIL ==>
        (0 <= Get(t, id).1 < |t.slots| && Get(t, id).0.slots[Get(t, id).1].body == body))
    decreases |ops|
  {
    hide Inv, Get, StepOf, After, Current;
    if ops == [] {
      if Known(s, id) && Allocated(s, id) { GetKeeps(s, id); }
    } else {
      StepMeaning(s, ops[0], chunk, id);
      TableTransparent(Step(s, ops[0], chunk), ops[1..], chunk, id);
    }
  }
}
