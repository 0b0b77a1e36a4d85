module Directory {
  /** A directory as a finite map from names to inode numbers, and search_dir on its entries. */

  import opened Storage

  const NAME_MAX: nat := 14

  datatype Flag = LookUp | Enter | Delete | IsEmpty
  datatype Code = OK | ENOTDIR | ENOENT | ENOTEMPTY | EACCES | ENOSPC

  /** A directory entry as stored: the inode number in the byte order of the file system, 0 for
      a free slot, and the name, padded with zeros. */
  datatype Entry = Entry(raw: nat, name: seq<byte>)

  type Name = seq<byte>

  /** A C string in a field: up to the first zero byte, at most `n` bytes. */
  function CString(s: seq<byte>, n: nat): (r: Name)
    ensures |r| <= n && |r| <= |s|
    decreases n
  {
    if n == 0 || s == [] || s[0] == 0 then [] else [s[0]] + CString(s[1..], n - 1)
  }

  function NameOf(s: seq<byte>): Name {
    CString(s, NAME_MAX)
  }

  /** conv2. */
  function Conv2(native: bool, w: nat): (r: nat)
    requires w < 0x1_0000
    ensures r < 0x1_0000 && (r == 0 <==> w == 0)
  {
    if native then w else (w % 256) * 256 + w / 256
  }

  lemma Conv2Twice(native: bool, w: nat)
    requires w < 0x1_0000
    ensures Conv2(native, Conv2(native, w)) == w
  {
  }

  /** The name field that ENTER stores: zeros, and the string laid over them. */
  function Pad(s: seq<byte>, n: nat): (r: seq<byte>)
    ensures |r| == n
    decreases n
  {
    if n == 0 then [] else if s == [] || s[0] == 0 then [0] + Pad([], n - 1) else [s[0]] + Pad(s[1..], n - 1)
  }

  lemma {:induction false} PadName(s: seq<byte>, n: nat)
    ensures CString(Pad(s, n), n) == CString(s, n)
    decreases n
  {
    if n > 0 && s != [] && s[0] != 0 { PadName(s[1..], n - 1); }
  }

  // ---------- The map ----------

  predicate Used(e: Entry) {
    e.raw != 0
  }

  ghost predicate Unique(entries: seq<Entry>, slots: nat) {
    slots <= |entries| && forall i, j :: 0 <= i < j < slots && Used(entries[i]) && Used(entries[j]) ==> NameOf(entries[i].name) != NameOf(entries[j].name)
  }

  ghost predicate Stored(entries: seq<Entry>) {
    forall i :: 0 <= i < |entries| ==> entries[i].raw < 0x1_0000 && |entries[i].name| == NAME_MAX
  }

  /** Slot `i` binds this name to this inode number. */
  ghost predicate Binds(entries: seq<Entry>, native: bool, i: int, n: Name, ino: nat) {
    0 <= i < |entries| && Used(entries[i]) && entries[i].raw < 0x1_0000 && NameOf(entries[i].name) == n && Conv2(native, entries[i].raw) == ino
  }

  ghost predicate Bound(entries: seq<Entry>, slots: nat, native: bool, n: Name, ino: nat) {
    exists i :: 0 <= i < slots && Binds(entries, native, i, n, ino)
  }

  /** `names` is what the first `slots` entries say. */
  ghost predicate Shows(entries: seq<Entry>, slots: nat, native: bool, names: map<Name, nat>) {
    forall n, ino :: Bound(entries, slots, native, n, ino) <==> n in names && names[n] == ino
  }

  /** A used slot, replaced by a free one. */
  lemma Removed(entries: seq<Entry>, slots: nat, native: bool, names: map<Name, nat>, i: nat, e: Entry)
    requires slots <= |entries| && Unique(entries, slots) && Stored(entries) && Shows(entries, slots, native, names)
    requires i < slots && Used(entries[i]) && e.raw == 0
    ensures Unique(entries[i := e], slots) && Shows(entries[i := e], slots, native, names - {NameOf(entries[i].name)})
  {
    var after, k := entries[i := e], NameOf(entries[i].name);
    forall n, ino ensures Bound(after, slots, native, n, ino) <==> Bound(entries, slots, native, n, ino) && n != k {
      if Bound(after, slots, native, n, ino) {
        var j :| 0 <= j < slots && Binds(after, native, j, n, ino);
        assert Binds(entries, native, j, n, ino);
        if j < i { assert NameOf(entries[j].name) != NameOf(entries[i].name); } else { assert j > i; }
      }
      if Bound(entries, slots, native, n, ino) && n != k {
        var j :| 0 <= j < slots && Binds(entries, native, j, n, ino);
        assert Binds(after, native, j, n, ino);
      }
    }
  }

  /** A new name in a free slot, or in the first one behind the end. */
  lemma Entered(entries: seq<Entry>, slots: nat, slots': nat, native: bool, names: map<Name, nat>, i: nat, e: Entry)
    requires slots <= |entries| && Unique(entries, slots) && Stored(entries) && Shows(entries, slots, native, names)
    requires i < |entries| && (if i < slots then slots' == slots && !Used(entries[i]) else i == slots && slots' == slots + 1)
    requires Used(e) && e.raw < 0x1_0000 && NameOf(e.name) !in names
    ensures Unique(entries[i := e], slots') && Shows(entries[i := e], slots', native, names[NameOf(e.name) := Conv2(native, e.raw)])
  {
    var after, k, v := entries[i := e], NameOf(e.name), Conv2(native, e.raw);
    forall j | 0 <= j < slots && Used(entries[j]) ensures NameOf(entries[j].name) != k {
      assert Binds(entries, native, j, NameOf(entries[j].name), Conv2(native, entries[j].raw));
      assert Bound(entries, slots, native, NameOf(entries[j].name), Conv2(native, entries[j].raw));
    }
    forall n, ino ensures Bound(after, slots', native, n, ino) <==> Bound(entries, slots, native, n, ino) || (n == k && ino == v) {
      if Bound(after, slots', native, n, ino) {
        var j :| 0 <= j < slots' && Binds(after, native, j, n, ino);
        if j != i { assert Binds(entries, native, j, n, ino); }
      }
      if Bound(entries, slots, native, n, ino) {
        var j :| 0 <= j < slots && Binds(entries, native, j, n, ino);
        assert Binds(after, native, j, n, ino);
      }
      if n == k && ino == v { assert Binds(after, native, i, n, ino); }
    }
  }

  /** Blocks added behind the end show nothing. */
  lemma Lengthened(entries: seq<Entry>, slots: nat, native: bool, names: map<Name, nat>, more: seq<Entry>)
    requires Unique(entries, slots) && Shows(entries, slots, native, names)
    ensures Unique(entries + more, slots) && Shows(entries + more, slots, native, names)
  {
    forall n, ino ensures Bound(entries + more, slots, native, n, ino) <==> Bound(entries, slots, native, n, ino) {
      if Bound(entries, slots, native, n, ino) {
        var j :| 0 <= j < slots && Binds(entries, native, j, n, ino);
        assert Binds(entries + more, native, j, n, ino);
      }
      if Bound(entries + more, slots, native, n, ino) {
        var j :| 0 <= j < slots && Binds(entries + more, native, j, n, ino);
        assert Binds(entries, native, j, n, ino);
      }
    }
  }

  // ---------- What the entries say, in bytes ----------

  /** A field holds a name: its bytes up to the first zero byte, or up to the end of the field. */
  ghost predicate Spells(field: seq<byte>, n: Name) {
    && |n| <= |field| && |n| <= 14 && n == field[..|n|]
    && (forall i :: 0 <= i < |n| ==> n[i] != 0)
    && (|n| < 14 && |n| < |field| ==> field[|n|] == 0)
  }

  /** The stored number stands for ino: on a native file system it is ino, else the low byte of the
      one is the high byte of the other. */
  ghost predicate Numbers(native: bool, raw: nat, ino: nat) {
    && raw < 0x1_0000 && ino < 0x1_0000
    && if native then ino == raw else ino % 0x100 == raw / 0x100 && ino / 0x100 == raw % 0x100
  }

  /** One of the first `slots` entries is in use with this name and inode number. */
  ghost predicate Lists(entries: seq<Entry>, slots: nat, native: bool, n: Name, ino: nat) {
    exists i :: 0 <= i < slots && i < |entries| && entries[i].raw != 0 && Spells(entries[i].name, n) && Numbers(native, entries[i].raw, ino)
  }

  lemma {:induction false} StringSpelled(s: seq<byte>, k: nat, n: Name)
    ensures n == CString(s, k) <==>
      && |n| <= |s| && |n| <= k && n == s[..|n|] && (forall i :: 0 <= i < |n| ==> n[i] != 0)
      && (|n| < k && |n| < |s| ==> s[|n|] == 0)
    decreases k
  {
    if k == 0 || s == [] || s[0] == 0 {
      if n != [] && |n| <= |s| && n == s[..|n|] { assert n[0] == s[0]; }
    } else if n != [] {
      StringSpelled(s[1..], k - 1, n[1..]);
      assert n == [n[0]] + n[1..];
      if |n| <= |s| {
        assert s[..|n|] == [s[0]] + s[1..][..|n| - 1];
        if n == s[..|n|] { assert n[0] == s[0] && n[1..] == s[1..][..|n| - 1]; }
        assert (forall i :: 0 <= i < |n[1..]| ==> n[1..][i] != 0) <==> (forall i :: 1 <= i < |n| ==> n[i] != 0) by {
          assert forall i :: 1 <= i < |n| ==> n[i] == n[1..][i - 1];
        }
      }
    }
  }

  lemma NameSpelled(field: seq<byte>, n: Name)
    ensures n == NameOf(field) <==> Spells(field, n)
  {
    StringSpelled(field, NAME_MAX, n);
  }

  lemma NumberRead(native: bool, raw: nat, ino: nat)
    requires raw < 0x1_0000
    ensures ino == Conv2(native, raw) <==> Numbers(native, raw, ino)
  {
  }

  /** The entries of a directory list just the names and inode numbers of the map. */
  lemma ShowsLists(entries: seq<Entry>, slots: nat, native: bool, names: map<Name, nat>)
    requires Stored(entries)
    ensures Shows(entries, slots, native, names) <==>
      forall n, ino: nat :: Lists(entries, slots, native, n, ino) <==> n in names && names[n] == ino
  {
    hide NameOf, Conv2, Spells, Numbers;
    forall n, ino: nat ensures Lists(entries, slots, native, n, ino) <==> Bound(entries, slots, native, n, ino) {
      forall i | 0 <= i < slots && i < |entries|
        ensures Binds(entries, native, i, n, ino) <==>
          entries[i].raw != 0 && Spells(entries[i].name, n) && Numbers(native, entries[i].raw, ino)
      {
        NameSpelled(entries[i].name, n);
        NumberRead(native, entries[i].raw, ino);
      }
    }
  }

  /** What ENTER stores of a name: the name, and zeros behind it. */
  lemma {:induction false} PadIs(s: seq<byte>, n: nat)
    ensures Pad(s, n)[..|CString(s, n)|] == CString(s, n)
    ensures forall i :: |CString(s, n)| <= i < n ==> Pad(s, n)[i] == 0
    decreases n
  {
    if n > 0 {
      if s == [] || s[0] == 0 { PadIs([], n - 1); } else { PadIs(s[1..], n - 1); }
    }
  }

  const DOT: Name := [46]
  const DOTDOT: Name := [46, 46]

  /** A directory file of whole blocks of `per` entries, the last one in use. */
  predicate Sized(blocks: nat, per: nat, slots: nat, total: nat) {
    per > 0 && total == blocks * per && slots <= total && (blocks > 0 ==> slots > (blocks - 1) * per)
  }

  // ---------- search_dir ----------

  class Dir {
    const perBlock: nat
    const native: bool
    // All entries of all blocks of the directory file, and i_size counted in entries.
    var entries: seq<Entry>
    var blocks: nat
    var slots: nat

    ghost predicate Valid(names: map<Name, nat>)
      reads this
    {
      && Sized(blocks, perBlock, slots, |entries|)
      && Stored(entries) && Unique(entries, slots) && Shows(entries, slots, native, names)
    }

    /** A directory without entries. */
    constructor (perBlock: nat, native: bool)
      requires perBlock > 0
      ensures Valid(map[]) && this.perBlock == perBlock && this.native == native && entries == [] && blocks == slots == 0
    {
      this.perBlock, this.native := perBlock, native;
      entries, blocks, slots := [], 0, 0;
    }

    /** new_block, at the end of the directory: a block of free entries. */
    method NewBlock(free: bool, ghost names: map<Name, nat>) returns (ok: bool)
      requires perBlock > 0 && |entries| == blocks * perBlock && slots == |entries|
      requires Stored(entries) && Unique(entries, slots) && Shows(entries, slots, native, names)
      modifies this`entries, this`blocks
      ensures ok == free && (!ok ==> entries == old(entries) && blocks == old(blocks))
      ensures ok ==> |entries| == blocks * perBlock && blocks == old(blocks) + 1 && slots < |entries| && (blocks - 1) * perBlock == slots
      ensures ok ==> Stored(entries) && Unique(entries, slots) && Shows(entries, slots, native, names) && entries[..slots] == old(entries)
    {
      if !free { return false; }
      var zero := Entry(0, Pad([], NAME_MAX));
      var fresh_ := seq(perBlock, _ => zero);
      Lengthened(entries, slots, native, names, fresh_);
      assert (blocks + 1) * perBlock == blocks * perBlock + perBlock;
      entries := entries + fresh_;
      blocks := blocks + 1;
      ok := true;
    }

    /** The scan of search_dir.  `dp` is the entry it stopped at, `match` says that it is a hit
        and `eHit` that ENTER can use it; `newSlots` counts the entries seen. */
    method Scan(string_: seq<byte>, flag: Flag, ghost names: map<Name, nat>) returns (dp: nat, match_: bool, eHit: bool, newSlots: nat)
      requires Valid(names)
      ensures !(match_ && eHit) && (eHit ==> flag == Enter)
      ensures match_ ==> dp < slots && flag != Enter && Used(entries[dp]) && Hit(entries[dp], string_, flag)
      ensures !match_ && flag != Enter ==> forall i :: 0 <= i < slots ==> Passed(entries[i], string_, flag)
      ensures eHit ==> dp < |entries| && newSlots == dp + 1 && dp <= slots && forall i :: 0 <= i < dp ==> Passed(entries[i], string_, flag)
      ensures eHit && dp < slots ==> !Used(entries[dp])
      ensures flag == Enter && !eHit ==> slots == |entries| && newSlots == slots && forall i :: 0 <= i < slots ==> Passed(entries[i], string_, flag)
    {
      hide Unique, Shows, Stored, AtBlock;
      dp, match_, eHit, newSlots := 0, false, false, 0;
      var pos := 0;
      ghost var block := 0;
      AtStart(blocks, perBlock, slots, |entries|);
      while pos < slots
        invariant AtBlock(pos, block, blocks, perBlock, slots, |entries|) && newSlots == pos <= slots && !match_ && !eHit
        invariant forall i :: 0 <= i < pos ==> Passed(entries[i], string_, flag)
        decreases slots - pos
      {
        AtNext(pos, block, blocks, perBlock, slots, |entries|);
        dp, match_, eHit, newSlots := ScanBlock(pos, string_, flag);
        if match_ || eHit || newSlots > slots { return; }
        block := block + 1;
        pos := pos + perBlock;
      }
      AtEnd(pos, block, blocks, perBlock, slots, |entries|);
    }

    /** One block of the scan. */
    method ScanBlock(pos: nat, string_: seq<byte>, flag: Flag) returns (dp: nat, match_: bool, eHit: bool, newSlots: nat)
      requires perBlock > 0 && pos + perBlock <= |entries| && pos < slots
      ensures !(match_ && eHit) && (eHit ==> flag == Enter)
      ensures match_ ==> dp < slots && dp < |entries| && flag != Enter && Used(entries[dp]) && Hit(entries[dp], string_, flag)
      ensures eHit ==> pos <= dp < |entries| && newSlots == dp + 1 && dp <= slots && (dp < slots ==> !Used(entries[dp]))
      ensures eHit ==> forall i :: pos <= i < dp ==> Passed(entries[i], string_, flag)
      ensures !match_ && !eHit && newSlots <= slots ==> newSlots == pos + perBlock <= slots
      ensures !match_ && !eHit && newSlots <= slots ==> forall i :: pos <= i < pos + perBlock ==> Passed(entries[i], string_, flag)
      ensures !match_ && !eHit && newSlots > slots ==> flag != Enter && slots < |entries| && forall i :: pos <= i < slots ==> Passed(entries[i], string_, flag)
    {
      dp, match_, eHit, newSlots := pos, false, false, pos;
      while dp < pos + perBlock
        invariant pos <= dp <= pos + perBlock && newSlots == dp && dp <= slots && !match_ && !eHit
        invariant forall j :: pos <= j < dp ==> Passed(entries[j], string_, flag)
      {
        newSlots := newSlots + 1;
        if newSlots > slots {
          if flag == Enter { eHit := true; }
          return;
        }
        if flag != Enter && entries[dp].raw != 0 && Hit(entries[dp], string_, flag) {
          match_ := true;
          return;
        }
        if flag == Enter && entries[dp].raw == 0 {
          eHit := true;
          return;
        }
        dp := dp + 1;
      }
    }

    /** search_dir: look a name up, enter it, delete it, or test for emptiness.  `isDir`, `access`
        and `free` stand for the inode's type, its permissions and the allocator's answer. */
    method Search(string_: seq<byte>, numb0: nat, flag: Flag, isDir: bool, access: bool, free: bool, ghost names: map<Name, nat>)
      returns (r: Code, numb: nat, ghost names': map<Name, nat>)
      requires Valid(names) && (flag == Enter ==> 0 < numb0 < 0x1_0000 && NameOf(string_) !in names)
      modifies this
      ensures Valid(names') && slots >= old(slots)
      ensures forall n, ino: nat :: Lists(entries, slots, native, n, ino) <==> n in names' && names'[n] == ino
      ensures Spells(string_, NameOf(string_))
      ensures !isDir ==> r == ENOTDIR
      ensures isDir && !access && flag != IsEmpty ==> r == EACCES
      ensures r != OK ==> names' == names && slots == old(slots)
      ensures isDir && (access || flag == IsEmpty) ==>
        match flag
        case LookUp => names' == names && (if NameOf(string_) in names then r == OK && numb == names[NameOf(string_)] else r == ENOENT)
        case Delete => if NameOf(string_) in names then r == OK && names' == names - {NameOf(string_)} else r == ENOENT
        case IsEmpty => names' == names && (r == OK <==> forall n :: n in names ==> n == DOT || n == DOTDOT) && (r == OK || r == ENOTEMPTY)
        case Enter => if r == OK then names' == names[NameOf(string_) := numb0] else r == ENOSPC && !free
      ensures flag == Enter && r == OK ==> slots == old(slots) + (if exists i :: 0 <= i < old(slots) && !Used(old(entries)[i]) then 0 else 1)
    {
      hide Unique, Shows, Stored, Valid, Conv2, NameOf, Spells, Lists;
      NameSpelled(string_, NameOf(string_));
      names', numb, r := names, numb0, OK;
      ValidLists(this, names);
      if !isDir { return ENOTDIR, numb, names'; }
      if flag != IsEmpty && !access { return EACCES, numb, names'; }
      var oldSlots := slots;
      var dp, match_, eHit, newSlots := Scan(string_, flag, names);
      ValidSays(this, names);
      if match_ {
        HitBinds(entries, slots, native, names, dp);
        if flag == IsEmpty { return ENOTEMPTY, numb, names'; }
        if flag == Delete {
          EraseEntry(dp, names);
          names' := names - {NameOf(old(entries)[dp].name)};
          ValidLists(this, names');
        } else {
          numb := Conv2(native, entries[dp].raw);
        }
        return OK, numb, names';
      }
      if flag != Enter {
        NoHit(entries, slots, native, names, string_, flag);
        return if flag == IsEmpty then OK else ENOENT, numb, names';
      }
      if !eHit {
        newSlots := newSlots + 1;
        var ok := NewBlock(free, names);
        if !ok { return ENOSPC, numb, names'; }
        dp := slots;
      }
      FillEntry(dp, string_, numb0, newSlots, names);
      names' := names[NameOf(string_) := numb0];
      ValidLists(this, names');
    }

    /** DELETE: free the entry; the inode number is saved in the last bytes of the name, for recovery. */
    method EraseEntry(dp: nat, ghost names: map<Name, nat>)
      requires Valid(names) && dp < slots && dp < |entries| && Used(entries[dp])
      modifies this`entries
      ensures Valid(names - {NameOf(old(entries)[dp].name)})
      ensures |old(entries)[dp].name| == 14 && |entries[dp].name| == 14 && entries == old(entries)[dp := entries[dp]]
      ensures entries[dp].raw == 0 && entries[dp].name[..12] == old(entries)[dp].name[..12]
      ensures entries[dp].name[12] as nat + 0x100 * entries[dp].name[13] as nat == old(entries)[dp].raw
    {
      hide Unique, Shows, Stored, Valid;
      ValidSays(this, names);
      HitBinds(entries, slots, native, names, dp);
      var t := NAME_MAX - 2;
      var saved := entries[dp].name[..t] + [(entries[dp].raw % 256) as byte, (entries[dp].raw / 256) as byte];
      Removed(entries, slots, native, names, dp, Entry(0, saved));
      StoredUpdate(entries, dp, Entry(0, saved));
      ghost var names' := names - {NameOf(entries[dp].name)};
      entries := entries[dp := Entry(0, saved)];
      IsValid(this, names');
    }

    /** ENTER: fill the entry; the directory grows if it is behind the end. */
    method FillEntry(dp: nat, string_: seq<byte>, numb: nat, newSlots: nat, ghost names: map<Name, nat>)
      requires slots <= |entries| && Sized(blocks, perBlock, if dp < slots then slots else slots + 1, |entries|)
      requires Stored(entries) && Unique(entries, slots) && Shows(entries, slots, native, names)
      requires 0 < numb < 0x1_0000 && NameOf(string_) !in names && dp < |entries| && newSlots == dp + 1 && dp <= slots
      requires dp < slots ==> !Used(entries[dp])
      modifies this`entries, this`slots
      ensures Valid(names[NameOf(string_) := numb]) && slots == if dp < old(slots) then old(slots) else old(slots) + 1
      ensures entries == old(entries)[dp := entries[dp]] && Numbers(native, entries[dp].raw, numb)
      ensures Spells(entries[dp].name, NameOf(string_)) && |entries[dp].name| == 14
      ensures forall i :: |NameOf(string_)| <= i < 14 ==> entries[dp].name[i] == 0
    {
      hide Unique, Shows, Stored, Valid, Conv2, Sized, NameOf, Pad, Spells, Numbers;
      Conv2Twice(native, numb);
      var e := Entry(Conv2(native, numb), Pad(string_, NAME_MAX));
      EnterName(string_, numb, native);
      EnterBytes(string_, numb, native);
      ghost var names' := names[NameOf(string_) := numb];
      Entered(entries, slots, if dp < slots then slots else slots + 1, native, names, dp, e);
      StoredUpdate(entries, dp, e);
      entries := entries[dp := e];
      if newSlots > slots { slots := newSlots; }
      IsValid(this, names');
    }
  }

  /** The scan goes past this entry. */
  predicate Passed(e: Entry, string_: seq<byte>, flag: Flag) {
    if flag == Enter then Used(e) else Used(e) ==> !Hit(e, string_, flag)
  }

  ghost predicate AtBlock(pos: nat, block: nat, blocks: nat, per: nat, slots: nat, total: nat) {
    Sized(blocks, per, slots, total) && block <= blocks && pos == block * per
  }

  lemma AtStart(blocks: nat, per: nat, slots: nat, total: nat)
    requires Sized(blocks, per, slots, total)
    ensures per > 0 && AtBlock(0, 0, blocks, per, slots, total)
  {
  }

  lemma AtNext(pos: nat, block: nat, blocks: nat, per: nat, slots: nat, total: nat)
    requires AtBlock(pos, block, blocks, per, slots, total) && pos < slots
    ensures pos + per <= total && AtBlock(pos + per, block + 1, blocks, per, slots, total)
  {
    assert (block + 1) * per == block * per + per;
    if block >= blocks { Times(blocks, block, per); }
    Times(block + 1, blocks, per);
  }

  lemma AtEnd(pos: nat, block: nat, blocks: nat, per: nat, slots: nat, total: nat)
    requires AtBlock(pos, block, blocks, per, slots, total) && slots <= pos
    ensures pos == total
  {
    if block < blocks { Times(block, blocks - 1, per); }
  }

  /** The test that search_dir makes of a used entry. */
  predicate Hit(e: Entry, string_: seq<byte>, flag: Flag) {
    if flag == IsEmpty then NameOf(e.name) != DOT && NameOf(e.name) != DOTDOT else NameOf(e.name) == NameOf(string_)
  }

  lemma {:induction false} Times(a: nat, b: nat, n: nat)
    requires a <= b
    ensures a * n <= b * n
  {
    if a < b {
      Times(a, b - 1, n);
      assert b * n == (b - 1) * n + n;
    }
  }

  lemma HitBinds(entries: seq<Entry>, slots: nat, native: bool, names: map<Name, nat>, i: nat)
    requires Stored(entries) && Shows(entries, slots, native, names) && i < slots <= |entries| && Used(entries[i])
    ensures entries[i].raw < 0x1_0000 && |entries[i].name| == NAME_MAX
    ensures NameOf(entries[i].name) in names && names[NameOf(entries[i].name)] == Conv2(native, entries[i].raw)
  {
    assert Binds(entries, native, i, NameOf(entries[i].name), Conv2(native, entries[i].raw));
    assert Bound(entries, slots, native, NameOf(entries[i].name), Conv2(native, entries[i].raw));
  }

  /** A scan without a hit. */
  lemma NoHit(entries: seq<Entry>, slots: nat, native: bool, names: map<Name, nat>, string_: seq<byte>, flag: Flag)
    requires Shows(entries, slots, native, names) && slots <= |entries|
    requires flag != Enter && forall i :: 0 <= i < slots ==> Passed(entries[i], string_, flag)
    ensures flag != IsEmpty ==> NameOf(string_) !in names
    ensures flag == IsEmpty ==> forall n :: n in names ==> n == DOT || n == DOTDOT
  {
    forall n | n in names ensures if flag == IsEmpty then n == DOT || n == DOTDOT else n != NameOf(string_) {
      assert Bound(entries, slots, native, n, names[n]);
      var i :| 0 <= i < slots && Binds(entries, native, i, n, names[n]);
      assert Passed(entries[i], string_, flag);
    }
  }

  lemma StoredUpdate(entries: seq<Entry>, i: nat, e: Entry)
    requires Stored(entries) && i < |entries| && e.raw < 0x1_0000 && |e.name| == NAME_MAX
    ensures Stored(entries[i := e])
  {
  }

  lemma EnterName(s: seq<byte>, numb: nat, native: bool)
    requires 0 < numb < 0x1_0000
    ensures NameOf(Pad(s, NAME_MAX)) == NameOf(s) && 0 < Conv2(native, numb) < 0x1_0000
  {
    PadName(s, NAME_MAX);
  }

  lemma EnterBytes(s: seq<byte>, numb: nat, native: bool)
    requires 0 < numb < 0x1_0000
    ensures Spells(Pad(s, NAME_MAX), NameOf(s)) && Numbers(native, Conv2(native, numb), numb)
    ensures |Pad(s, NAME_MAX)| == 14 && forall i :: |NameOf(s)| <= i < 14 ==> Pad(s, NAME_MAX)[i] == 0
  {
    PadName(s, NAME_MAX);
    PadIs(s, NAME_MAX);
    NameSpelled(Pad(s, NAME_MAX), NameOf(s));
    Conv2Twice(native, numb);
    NumberRead(native, Conv2(native, numb), numb);
  }

  lemma ValidLists(d: Dir, names: map<Name, nat>)
    requires d.Valid(names)
    ensures forall n, ino: nat :: Lists(d.entries, d.slots, d.native, n, ino) <==> n in names && names[n] == ino
  {
    hide Shows, Lists, Stored;
    ShowsLists(d.entries, d.slots, d.native, names);
  }

  lemma ValidSays(d: Dir, names: map<Name, nat>)
    requires d.Valid(names)
    ensures Sized(d.blocks, d.perBlock, d.slots, |d.entries|) && d.slots <= |d.entries|
    ensures Stored(d.entries) && Unique(d.entries, d.slots) && Shows(d.entries, d.slots, d.native, names)
  {
  }

  lemma IsValid(d: Dir, names: map<Name, nat>)
    requires Sized(d.blocks, d.perBlock, d.slots, |d.entries|)
    requires Stored(d.entries) && Unique(d.entries, d.slots) && Shows(d.entries, d.slots, d.native, names)
    ensures d.Valid(names)
  {
  }
}
