/** The inode table itself: an array of slots, searched and changed in place. */
module InodeTable {
  import opened Storage
  import opened BitAlloc
  import opened Inodes

  class Table {
    const inode: array<Slot>
    var disk: map<Id, Body>
    var supers: map<nat, Super>

    ghost function Model(): State
      reads this, inode
    {
      State(inode[..], disk, supers)
    }

    ghost predicate Valid()
      reads this, inode
    {
      Inv(Model())
    }

    /** An empty table over any disk whose bit maps say which inodes have links. */
    constructor (n: nat, contents: map<Id, Body>, mounted: map<nat, Super>)
      requires
        var s := State([], contents, mounted);
        MapsOk(s) && forall id :: Known(s, id) ==> (Allocated(s, id) <==> Stored(contents, id).nlinks > 0)
      ensures Valid() && fresh(inode) && inode.Length == n && disk == contents && supers == mounted
      ensures forall id :: Current(Model(), id) == Stored(contents, id)
    {
      inode := new Slot[n](_ => Slot(Id(NO_DEV, 0), 0, false, Body(NOT_ALLOC, 0, 0, [])));
      disk, supers := contents, mounted;
      new;
      NothingUsed(Model(), State([], contents, mounted));
    }

    /** The loop of get_inode: the slot of the inode, and the last free slot before it. */
    method Search(id: Id) returns (rip: int, xp: int)
      ensures rip == Holder(inode[..], id)
      ensures rip == NIL ==> xp == Unused(inode[..])
    {
      rip, xp := NIL, NIL;
      var i := 0;
      while i < inode.Length
        invariant 0 <= i <= inode.Length
        invariant Holder(inode[..i], id) == NIL && xp == Unused(inode[..i])
      {
        assert inode[..i + 1][..i] == inode[..i];
        if inode[i].count > 0 {
          if inode[i].id == id {
            HolderFirst(inode[..], id, i);
            return i, xp;
          }
        } else {
          xp := i;
        }
        i := i + 1;
      }
      assert inode[..i] == inode[..];
    }

    /** get_inode: find the slot of an inode, or load the inode into a free slot. */
    method GetInode(id: Id) returns (rip: int)
      requires Valid() && Known(Model(), id) && Allocated(Model(), id)
      modifies inode
      ensures Valid() && (Model(), rip) == Get(old(Model()), id)
      ensures SameInodes(old(Model()), Model())
      ensures rip != NIL ==> 0 <= rip < inode.Length && Is(inode[rip], id) && inode[rip].body == Current(old(Model()), id)
    {
      hide Inv, SameInodes, Known, Current;
      GetKeeps(Model(), id);
      var xp;
      rip, xp := Search(id);
      if rip != NIL {
        inode[rip] := inode[rip].(count := inode[rip].count + 1);
        return;
      }
      if xp == NIL { return; }
      inode[xp] := Slot(id, 1, false, Stored(disk, id));
      rip := xp;
    }

    /** rw_inode(rip, WRITING). */
    method WriteInode(rip: nat)
      requires rip < inode.Length
      modifies inode, this`disk
      ensures Model() == WriteBack(old(Model()), rip)
    {
      disk := disk[inode[rip].id := inode[rip].body];
      inode[rip] := inode[rip].(dirty := false);
    }

    /** free_inode; false stands for the panic of free_bit. */
    method FreeInode(id: Id) returns (ok: bool)
      requires id.dev in supers
      modifies this`supers
      ensures
        var sp := old(supers)[id.dev];
        if id.num == 0 || id.num >= |sp.bits| then ok && supers == old(supers)
        else
          (&& ok == sp.bits[id.num]
          && (ok ==> supers == SetBit(old(Model()), id, false, if id.num < sp.isearch then id.num else sp.isearch).supers))
    {
      var sp := supers[id.dev];
      if id.num == 0 || id.num >= |sp.bits| { return true; }
      if !sp.bits[id.num] { return false; }
      var hint := if id.num < sp.isearch then id.num else sp.isearch;
      supers := supers[id.dev := sp.(bits := sp.bits[id.num := false], isearch := hint)];
      ok := true;
    }

    /** put_inode: a user less.  `gone` says that the file has been removed, with its zones; `ok` that
        free_bit found nothing wrong. */
    method PutInode(rip: nat) returns (gone: bool, ok: bool)
      requires Valid() && rip < inode.Length && inode[rip].count > 0
      modifies this`disk, this`supers, inode
      ensures Valid() && ok && gone == old(Removes(Model(), rip))
      ensures PutResult(old(Model()), Model(), rip, old(inode[rip].id))
      ensures Users(old(Model()), Model(), rip, old(inode[rip].count) - 1) && NumberGiven(old(Model()), Model(), rip, old(inode[rip].id))
      ensures Model() == Put(old(Model()), rip)
    {
      hide Inv, SameInodes, PutResult, Current, Users, NumberGiven;
      ghost var s := Model();
      PutKeeps(s, rip);
      PutChanges(s, rip);
      gone, ok := false, true;
      var id := inode[rip].id;
      inode[rip] := inode[rip].(count := inode[rip].count - 1);
      if inode[rip].count == 0 {
        if inode[rip].body.nlinks == 0 {
          gone := true;
          inode[rip] := inode[rip].(body := inode[rip].body.(mode := NOT_ALLOC), dirty := true);
          ok := FreeInode(id);
        }
        if inode[rip].dirty { WriteInode(rip); }
      }
      assert inode[..] == Put(s, rip).slots;
    }

    /** alloc_inode: a number, a slot and an empty inode for a new file. */
    method AllocInode(dev: nat, mode: nat, nzones: nat, chunk: nat) returns (rip: int)
      requires Valid() && dev in supers && chunk > 0
      modifies inode, this`supers
      ensures Valid() && (Model(), rip) == Alloc(old(Model()), dev, mode, nzones, chunk)
      ensures rip == NIL ==> SameInodes(old(Model()), Model())
      ensures rip != NIL ==> 0 <= rip < inode.Length && inode[rip].id.dev == dev
      ensures rip != NIL ==> inode[rip].count == 1 && Made(old(Model()), Model(), inode[rip].id)
      ensures rip != NIL ==> Empty(inode[rip].body, mode, nzones) && NumberTaken(old(Model()), Model(), inode[rip].id)
      ensures rip != NIL ==> Empty(Current(Model(), inode[rip].id), mode, nzones)
    {
      hide Inv, SameInodes, Made, HintOk, Found, Current;
      ghost var s := Model();
      AllocKeeps(s, dev, mode, nzones, chunk);
      var sp := supers[dev];
      if sp.rdOnly { return NIL; }
      var b := Found(sp.bits, sp.isearch, chunk);
      if b == NO_BIT { return NIL; }
      supers := supers[dev := sp.(bits := sp.bits[b := true], isearch := b)];
      NoSuchDevice(s, Id(NO_DEV, b));
      var xp;
      rip, xp := Search(Id(NO_DEV, b));
      if xp == NIL {
        supers := supers[dev := supers[dev].(bits := supers[dev].bits[b := false])];
        assert sp.bits[b := true][b := false] == sp.bits;
        assert supers == s.supers[dev := sp.(isearch := b)];
        return NIL;
      }
      inode[xp] := Slot(Id(dev, b), 1, true, NewBody(mode, nzones));
      rip := xp;
    }

    /** A user of a slot changes the inode. */
    method ChangeBody(rip: nat, body: Body)
      requires Valid() && rip < inode.Length && inode[rip].count > 0
      modifies inode
      ensures Valid() && Model() == Change(old(Model()), rip, body)
      ensures Current(Model(), inode[rip].id) == body
      ensures forall o :: o != inode[rip].id ==> Current(Model(), o) == Current(old(Model()), o)
    {
      hide Inv, Current;
      ChangeKeeps(Model(), rip, body);
      inode[rip] := inode[rip].(body := body, dirty := true);
    }

    /** dup_inode. */
    method DupInode(rip: nat)
      requires Valid() && rip < inode.Length && inode[rip].count > 0
      modifies inode
      ensures Valid() && Model() == Dup(old(Model()), rip) && SameInodes(old(Model()), Model())
    {
      hide Inv, SameInodes;
      DupKeeps(Model(), rip);
      inode[rip] := inode[rip].(count := inode[rip].count + 1);
    }

    /** do_sync, for the inodes. */
    method SyncInodes()
      requires Valid()
      modifies inode, this`disk
      ensures Valid() && Model() == Sync(old(Model()), inode.Length) && SameInodes(old(Model()), Model())
      ensures forall id :: Stored(disk, id) == Current(old(Model()), id)
    {
      hide Inv, SameInodes, Current, Stored;
      ghost var s := Model();
      SyncKeeps(s, inode.Length);
      var i: nat := 0;
      while i < inode.Length
        invariant i <= inode.Length && Model() == Sync(s, i)
      {
        if inode[i].count > 0 && inode[i].dirty { WriteInode(i); }
        i := i + 1;
      }
    }
  }

  lemma NothingUsed(s: State, none: State)
    requires forall i :: 0 <= i < |s.slots| ==> s.slots[i].count == 0
    requires none == s.(slots := []) && MapsOk(none)
    requires forall id :: Known(none, id) ==> (Allocated(none, id) <==> Stored(none.disk, id).nlinks > 0)
    ensures Inv(s) && forall id :: Current(s, id) == Stored(s.disk, id)
  {
    hide Stored;
    forall id ensures !InUse(s, id) {}
    forall id | Known(s, id) ensures Allocated(s, id) <==> InUse(s, id) || Stored(s.disk, id).nlinks > 0 {
      assert Known(none, id);
    }
  }

  /** The first slot that has the inode is the one that Holder finds. */
  lemma {:induction false} HolderFirst(slots: seq<Slot>, id: Id, i: nat)
    requires i < |slots| && Is(slots[i], id) && Holder(slots[..i], id) == NIL
    ensures Holder(slots, id) == i
  {
    var n := |slots| - 1;
    if i < n {
      assert slots[..n][..i] == slots[..i];
      HolderFirst(slots[..n], id, i);
    }
  }

  /** No slot in use is for NO_DEV. */
  lemma NoSuchDevice(s: State, id: Id)
    requires Inv(s) && id.dev == NO_DEV
    ensures Holder(s.slots, id) == NIL
  {}
}
