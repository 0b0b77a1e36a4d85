module FileExamples {
  /** A file that a failing write leaves out of order, and what a later write then does to it; and a
      file that grows past the largest size. */

  import opened Storage
  import opened Indirect
  import opened BlockMap
  import opened BitAlloc
  import opened Zones
  import opened FileContent
  import opened Files
  import opened FileEnds
  import opened FileOps
  import opened FileRuns
  import opened Truncate

  /** Two bytes in a block, two blocks in a zone, and a single data zone. */
  const SMALL := Geo(2, 2, 1, 1, 2, true, 1, 2)

  /** Zone 1 holds two blocks of sevens. */
  const SEVENS: Store := map[2 := [7, 7], 3 := [7, 7]]

  /** File 0 is empty and file 1 has the zone. */
  function Taken1(zsearch: nat): Fs {
    Fs(SEVENS, [true, true], zsearch, [Ino([0, 0, 0], 0), Ino([1, 0, 0], 4)])
  }

  lemma SmallOk()
    ensures GeoOk(SMALL) && Limit(SMALL) == 3
  {
    assert EntryPos(1, 2) == 2;
  }

  /** No file has more than zone 1, and that as its first zone. */
  predicate Plain(fs: Fs) {
    |fs.bits| == 2 && fs.bits[0] && |fs.inos| == 2
    && fs.inos[0].zone in {[0, 0, 0], [1, 0, 0]} && fs.inos[1].zone in {[0, 0, 0], [1, 0, 0]}
    && (fs.bits[1] <==> fs.inos[0].zone[0] == 1 || fs.inos[1].zone[0] == 1)
    && !(fs.inos[0].zone[0] == 1 && fs.inos[1].zone[0] == 1)
  }

  lemma PlainOwn(fs: Fs, i: int, s: BlockMap.Slot)
    requires Plain(fs) && ValidOwner(SMALL, fs, i, s)
    ensures GeoOk(SMALL) && |fs.inos[i].zone| == 3
    ensures Own(SMALL, fs, i, s) == if s == Data(Direct(0)) then fs.inos[i].zone[0] else 0
  {
    SmallOk();
  }

  lemma PlainTidy(fs: Fs)
    requires Plain(fs)
    ensures Tidy(SMALL, fs, {})
  {
    SmallOk();
    forall i, s | ValidOwner(SMALL, fs, i, s)
      ensures Own(SMALL, fs, i, s) == if s == Data(Direct(0)) then fs.inos[i].zone[0] else 0
    {
      PlainOwn(fs, i, s);
    }
    if fs.inos[0].zone[0] == 1 { assert ValidOwner(SMALL, fs, 0, Data(Direct(0))); }
    if fs.inos[1].zone[0] == 1 { assert ValidOwner(SMALL, fs, 1, Data(Direct(0))); }
  }

  /** Every zone but the first of a file is missing. */
  lemma PlainZones(fs: Fs, i: nat)
    requires Plain(fs) && i < 2
    ensures Shape(SMALL, fs) && forall zn | 0 <= zn < Limit(SMALL) :: ZoneOf(SMALL, fs.store, fs.inos[i].zone, zn) == if zn == 0 then fs.inos[i].zone[0] else 0
  {
    PlainTidy(fs);
    forall zn | 0 <= zn < Limit(SMALL)
      ensures ZoneOf(SMALL, fs.store, fs.inos[i].zone, zn) == if zn == 0 then fs.inos[i].zone[0] else 0
    {
      PlainOwn(fs, i, Data(PosOf(SMALL, zn)));
    }
  }

  /** A file that ends at byte 0, 2 or 4 is as it should be behind its end. */
  lemma PlainState(fs: Fs, i: nat, e: nat)
    requires Plain(fs) && i < 2 && e in {0, 2, 4} && (e == 0 ==> fs.inos[i].zone[0] == 0)
    ensures FileState(SMALL, fs, i, e) && (EndMapped(SMALL, fs, i, e) <==> e != 2 || fs.inos[i].zone[0] == 1)
  {
    PlainZones(fs, i);
    SmallOk();
    PlacesAre();
    assert InLimit(SMALL, e) && ZeroTail(SMALL, fs, i, e);
    assert NothingBeyond(SMALL, fs, i, e);
  }

  lemma PlacesAre()
    ensures Quot(0, 2) == 0 && Quot(1, 2) == 0 && Quot(2, 2) == 1 && Quot(3, 2) == 1 && Quot(4, 2) == 2
    ensures Rest(0, 2) == 0 && Rest(1, 2) == 1 && Rest(2, 2) == 0 && Rest(3, 2) == 1 && Rest(4, 2) == 0
    ensures forall q: nat | q < 4 :: BlkOf(SMALL, q) == q / 2 && ZnOf(SMALL, q) == 0 && OffOf(SMALL, q) == q / 2
    ensures ZnOf(SMALL, 4) == 1 && OffOf(SMALL, 4) == 0
  {
  }

  /** Both files are in order, and no zone is free. */
  lemma TakenOrder(zsearch: nat)
    ensures var fs := Taken1(zsearch);
      Tidy(SMALL, fs, {}) && InOrder(SMALL, fs) && Full(fs.bits) && Unmapped(SMALL, fs, 0, 2)
    ensures InLimit(SMALL, 4) && OffOf(SMALL, 2) == 1
  {
    var fs := Taken1(zsearch);
    PlainTidy(fs);
    PlainZones(fs, 0);
    PlainState(fs, 0, 0);
    PlainState(fs, 1, 4);
    PlacesAre();
    SmallOk();
  }

  /** Writing one byte at position 2 of the empty file finds no space, but the file has two bytes
      afterwards and is not in order any more. */
  method NoSpace(fs: FileSys) returns (r: Code, n: nat)
    requires fs.Valid({}) && fs.g == SMALL && fs.Model() == Taken1(fs.zsearch)
    modifies fs
    ensures InOrder(SMALL, old(fs.Model())) && r == ENOSPC && n == 0
    ensures fs.Valid({}) && |fs.inos| == 2 && fs.inos[0].size == 2
    ensures FileState(SMALL, fs.Model(), 0, 2) && Content(SMALL, fs.Model(), 0, 2) == [0, 0]
    ensures !FileOk(SMALL, fs.Model(), 0) && Shape(SMALL, old(fs.Model())) && OthersUntouched(SMALL, old(fs.Model()), fs.Model(), 0)
  {
    hide Tidy, Quot, Rest, Limit, FileState, EndMapped, OthersUntouched;
    TakenOrder(fs.zsearch);
    ghost var a := fs.Model();
    assert FileOk(SMALL, a, 0);
    var position;
    r, n, position := WriteFile(fs, 0, 2, [1], false, 4);
    ContentSays(SMALL, a, 0, 0);
    ghost var b := fs.Model();
    TwoZeros(Content(SMALL, a, 0, 0));
    StateSays(SMALL, b, 0, b.inos[0].size);
    ContentSays(SMALL, b, 0, b.inos[0].size);
  }

  lemma TwoZeros(none: seq<byte>)
    requires none == []
    ensures Written(none, 2, [1][..0]) == [0, 0]
  {
  }

  /** What is left when file 1 has been removed: its zone is free, still holds the sevens, and is the one
      that file 0 gets next. */
  lemma FreeAgain(a: Fs, b: Fs, c: Fs, chunk: nat)
    requires a == Taken1(a.zsearch) && Shape(SMALL, a) && OthersUntouched(SMALL, a, b, 0) && Tidy(SMALL, b, {})
    requires b.inos[0].size == 2 && FileState(SMALL, b, 0, 2) && !FileOk(SMALL, b, 0) && Content(SMALL, b, 0, 2) == [0, 0]
    requires c.store == b.store && Freed(SMALL, b, c, 1) && OthersUntouched(SMALL, b, c, 1) && Tidy(SMALL, c, {}) && chunk > 0
    ensures |c.inos| == 2 && c.inos[0].size == 2 && FileState(SMALL, c, 0, 2) && Content(SMALL, c, 0, 2) == [0, 0]
    ensures !EndMapped(SMALL, c, 0, 2) && !Full(c.bits) && Picked(SMALL, c, chunk, 0) == 1 && At(SMALL, c.store, 2) == [7, 7]
  {
    hide Tidy, Content, FileState, EndMapped, Quot, Rest, Limit, AllZones, Found;
    PlainOwn(a, 1, Data(Direct(0)));
    assert ValidOwner(SMALL, a, 1, Data(Direct(0)));
    assert Own(SMALL, b, 1, Data(Direct(0))) == 1;
    assert DataBlock(SMALL, b, 1, Direct(0), 0) == DataBlock(SMALL, a, 1, Direct(0), 0);
    InAllZones(b);
    assert LegalZone(SMALL, 1) && !c.bits[BitOf(SMALL, 1)];
    UntouchedState(SMALL, b, c, 0, 2);
    UntouchedEnd(SMALL, b, c, 0, 2);
    TidyShape(SMALL, c, {});
    FoundComplete(c.bits, c.zsearch, chunk);
    OnlyZone(c, chunk);
  }

  lemma InAllZones(b: Fs)
    requires Tidy(SMALL, b, {}) && |b.inos| == 2 && |b.inos[1].zone| == 3 && ValidOwner(SMALL, b, 1, Data(Direct(0)))
    requires GeoOk(SMALL) && Own(SMALL, b, 1, Data(Direct(0))) == 1
    ensures 1 in AllZones(SMALL, b, 1)
  {
    hide Tidy;
    TidyShape(SMALL, b, {});
    assert Owned(SMALL, b, 1, 0, 1);
  }

  lemma OnlyZone(c: Fs, chunk: nat)
    requires Shape(SMALL, c) && |c.bits| == 2 && c.bits[0] && !c.bits[1] && |c.inos| == 2 && chunk > 0
    ensures Picked(SMALL, c, chunk, 0) == 1
  {
    hide Found;
    var near := if c.inos[0].zone[0] == NO_ZONE then 1 else c.inos[0].zone[0];
    FoundComplete(c.bits, if near == 1 then c.zsearch else near, chunk);
  }

  /** When file 1 has been removed, a byte is written right at the end of file 0: the sevens show that
      the zone held before.  The file has bytes 7, 7, 1 where it should have 0, 0, 1. */
  method LateWrite(fs: FileSys) returns (r: Code, n: nat)
    requires fs.Valid({}) && fs.g == SMALL && fs.Model() == Taken1(fs.zsearch)
    modifies fs
    ensures fs.Valid({}) && r == OK && n == 1 && |fs.inos| == 2 && fs.inos[0].size == 3
    ensures FileState(SMALL, fs.Model(), 0, 3) && Content(SMALL, fs.Model(), 0, 3) == [7, 7, 1]
  {
    hide Tidy, Quot, Rest, Limit, FileState, EndMapped, OthersUntouched, Content, Freed, FileOk, Picked, Full, Exposed, EndsClean;
    ghost var a := fs.Model();
    r, n := NoSpace(fs);
    ghost var b := fs.Model();
    FileOneThere(a, b);
    TruncateAndWipe(fs, 1);
    ghost var c := fs.Model();
    FreeAgain(a, b, c, fs.chunk);
    PlacesAre();
    SmallLimit();
    var position;
    r, n, position := WriteFile(fs, 0, 2, [1], false, 4);
    SevensExposed(c);
    assert [1][..n] == [1];
    StateSays(SMALL, fs.Model(), 0, fs.inos[0].size);
    ContentSays(SMALL, fs.Model(), 0, fs.inos[0].size);
  }

  lemma SmallLimit()
    ensures InLimit(SMALL, 4)
  {
    SmallOk();
    PlacesAre();
  }

  lemma FileOneThere(a: Fs, b: Fs)
    requires a == Taken1(a.zsearch) && Shape(SMALL, a) && OthersUntouched(SMALL, a, b, 0)
    ensures |b.inos| == 2 && FileState(SMALL, b, 1, b.inos[1].size)
  {
    hide FileState;
    PlainState(a, 1, 4);
    UntouchedState(SMALL, a, b, 1, 4);
  }

  lemma SevensExposed(c: Fs)
    requires Shape(SMALL, c) && |c.inos| == 2 && c.inos[0].size == 2 && InLimit(SMALL, 2) && At(SMALL, c.store, 2) == [7, 7]
    ensures Exposed(SMALL, c, 0, 1, 2) == [7, 7] && Written([7, 7], 2, [1]) == [7, 7, 1]
  {
    hide Quot, Rest, Limit;
    PlacesAre();
    ExposedSays(SMALL, c, 0, 1, 2);
    assert BlockNo(SMALL, 1, 0) == 2;
  }

  // ---------- Past the largest size ----------

  /** File 1 has three bytes, and its zone has room for one more. */
  function Grown1(zsearch: nat): Fs {
    Fs(map[2 := [7, 7], 3 := [7, 0]], [true, true], zsearch, [Ino([0, 0, 0], 0), Ino([1, 0, 0], 3)])
  }

  lemma GrownState(zsearch: nat)
    ensures var fs := Grown1(zsearch);
      FileState(SMALL, fs, 1, 3) && InLimit(SMALL, 3) && InLimit(SMALL, 4) && ZnOf(SMALL, 3) < Limit(SMALL) && !Unmapped(SMALL, fs, 1, 3)
  {
    var fs := Grown1(zsearch);
    PlainZones(fs, 1);
    SmallOk();
    PlacesAre();
    PlainOwn(fs, 1, Data(Direct(0)));
    assert FileBlock(SMALL, fs, 1, 1) == [7, 0];
    assert ZeroTail(SMALL, fs, 1, 3);
    assert NothingBeyond(SMALL, fs, 1, 3);
  }

  /** Where the largest file has three bytes, appending a byte to a file of three bytes is not refused:
      the size check looks at the file position, which is 0. */
  method PastLargest(fs: FileSys) returns (r: Code, n: nat)
    requires fs.Valid({}) && fs.g == SMALL && fs.Model() == Grown1(fs.zsearch)
    modifies fs
    ensures fs.Valid({}) && r == OK && n == 1 && |fs.inos| == 2 && fs.inos[1].size == 4
  {
    hide Tidy, Quot, Rest, Limit, FileState, EndMapped, OthersUntouched, Content, TakenFor, EndsClean;
    GrownState(fs.zsearch);
    ghost var a := fs.Model();
    var position;
    r, n, position := WriteFile(fs, 1, 0, [1], true, 3);
    ResultLimit(SMALL, a, fs.Model(), fs.chunk, 1, 3, [1][..n]);
    ContentSays(SMALL, fs.Model(), 1, fs.inos[1].size);
  }
}
