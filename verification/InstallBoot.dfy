/** Making a boot image and extracting it, over open files, byte by byte and sector by sector. */
module InstallBoot {
  import opened Storage
  import opened BootImage

  /** An open file: its bytes and the position in it. */
  class Stream {
    var data: seq<byte>
    var pos: nat

    constructor (contents: seq<byte>)
      ensures data == contents && pos == 0
    {
      data, pos := contents, 0;
    }

    /** getc; at the end of the file there is no byte. */
    method GetC() returns (c: Result<byte>)
      modifies `pos
      ensures c == if old(pos) < |data| then Ok(data[old(pos)]) else Fail
      ensures pos == old(pos) + if c.Ok? then 1 else 0
    {
      if pos < |data| {
        c := Ok(data[pos]);
        pos := pos + 1;
      } else {
        c := Fail;
      }
    }

    /** bread: n bytes, or failure if there are fewer. */
    method BRead(n: nat) returns (r: Result<seq<byte>>)
      modifies `pos
      ensures r == if old(pos) + n <= |data| then Ok(data[old(pos)..old(pos) + n]) else Fail
      ensures r.Ok? ==> pos == old(pos) + n
    {
      if pos + n <= |data| {
        r := Ok(data[pos..pos + n]);
        pos := pos + n;
      } else {
        r := Fail;
      }
    }

    /** putc, on a file that is being written from its end. */
    method PutC(c: byte)
      modifies `data
      ensures data == old(data) + [c]
    {
      data := data + [c];
    }

    /** bwrite. */
    method BWrite(s: seq<byte>)
      modifies `data
      ensures data == old(data) + s
    {
      data := data + s;
    }
  }

  /** padimage. */
  method PadImage(imagef: Stream, n: nat)
    modifies imagef`data
    ensures imagef.data == old(imagef.data) + Blank(n)
  {
    var left: nat := n;
    while left > 0
      invariant left <= n && imagef.data == old(imagef.data) + Blank(n - left)
    {
      imagef.PutC(0);
      left := left - 1;
      assert Blank(n - left - 1) + [0] == Blank(n - left);
    }
  }

  /** copyexec: byte by byte, then the padding.  It fails exactly when the file ends early. */
  method CopyExec(procf: Stream, imagef: Stream, n: nat) returns (ok: bool)
    requires procf != imagef && procf.pos <= |procf.data|
    modifies procf`pos, imagef`data
    ensures ok <==> old(procf.pos) + n <= |procf.data|
    ensures ok ==> procf.pos == old(procf.pos) + n
    ensures ok ==> imagef.data == old(imagef.data) + Padded(procf.data[old(procf.pos)..old(procf.pos) + n])
  {
    hide Align, Blank;
    var pad := Align(n) - n;
    var left: nat := n;
    var from := procf.pos;
    while left > 0
      invariant left <= n && procf.pos == from + (n - left) <= |procf.data|
      invariant imagef.data == old(imagef.data) + procf.data[from..procf.pos]
    {
      var c := procf.GetC();
      if c.Fail? { return false; }
      imagef.PutC(c.value);
      left := left - 1;
    }
    PadImage(imagef, pad);
    ok := true;
    assert procf.data[from..procf.pos] == procf.data[from..from + n];
    Associates(old(imagef.data), procf.data[from..from + n], Blank(pad));
  }

  lemma Associates(a: seq<byte>, b: seq<byte>, c: seq<byte>)
    ensures a + b + c == a + (b + c)
  {}

  /** read_header on a program file: struct exec, or failure. */
  method ReadHeader(procf: Stream) returns (r: Result<seq<byte>>)
    requires procf.pos == 0
    modifies procf`pos
    ensures r.Ok? <==> |procf.data| >= MINHDR && GoodHeader(procf.data) && HdrLen(procf.data) <= |procf.data|
    ensures r.Ok? ==> r.value == Process(procf.data) && procf.pos == HdrLen(procf.data)
  {
    hide Long, Flag;
    var min := procf.BRead(MINHDR);
    if min.Fail? { return Fail; }
    var h := min.value;
    assert TextLen(h) == TextLen(procf.data) && DataLen(h) == DataLen(procf.data) by { FirstBytes(procf.data); }
    if !GoodHeader(h) { return Fail; }
    var more := procf.BRead(HdrLen(h) - MINHDR);
    if more.Fail? { return Fail; }
    assert h + more.value == procf.data[..HdrLen(h)];
    r := Ok(h + more.value + Blank(EXEC - HdrLen(h)));
  }

  lemma FirstBytes(file: seq<byte>)
    requires |file| >= MINHDR
    ensures var h := file[..MINHDR];
      && TextLen(h) == TextLen(file) && DataLen(h) == DataLen(file)
      && PageAligned(h) == PageAligned(file) && Separate(h) == Separate(file)
  {}

  lemma Parts(file: seq<byte>, s: nat, t: nat, d: nat)
    requires s + t + d <= |file|
    ensures file[s..s + t + d][..t] == file[s..s + t] && file[s..s + t + d][t..] == file[s + t..s + t + d]
  {}

  /** The copying part of make_image for one program, once its header is read. */
  method CopySegments(procf: Stream, imagef: Stream) returns (ok: bool)
    requires procf != imagef && |procf.data| >= MINHDR && GoodHeader(procf.data) && procf.pos == HdrLen(procf.data) <= |procf.data|
    modifies procf`pos, imagef`data
    ensures ok <==> GoodFile(procf.data)
    ensures ok ==> imagef.data == old(imagef.data) + Segments(procf.data)
  {
    hide Padded, Align, Long, Flag, Lay;
    if PageAligned(procf.data) { procf.pos := 0; }
    assert procf.pos == Start(procf.data);
    ok := CopyBody(procf, imagef, Separate(procf.data), TextLen(procf.data), DataLen(procf.data));
  }

  /** The text and data of one program. */
  method CopyBody(procf: Stream, imagef: Stream, separate: bool, t: nat, d: nat) returns (ok: bool)
    requires procf != imagef && procf.pos <= |procf.data|
    modifies procf`pos, imagef`data
    ensures ok <==> old(procf.pos) + t + d <= |procf.data|
    ensures ok ==> imagef.data == old(imagef.data) + Lay(separate, procf.data[old(procf.pos)..old(procf.pos) + t + d], t)
  {
    hide Padded, Align;
    ghost var s, file := procf.pos, procf.data;
    if s + t + d <= |file| { Parts(file, s, t, d); }
    if separate {
      ok := CopyExec(procf, imagef, t);
      if !ok { return; }
      ok := CopyExec(procf, imagef, d);
      if !ok { return; }
      Associates(old(imagef.data), Padded(file[s..s + t]), Padded(file[s + t..s + t + d]));
    } else {
      ok := CopyExec(procf, imagef, t + d);
    }
  }

  /** make_image.  It makes the image exactly when every file is a whole executable. */
  method MakeImage(ps: seq<Program>) returns (r: Result<seq<byte>>)
    requires forall i :: 0 <= i < |ps| ==> |ps[i].name| == IM_NAME
    ensures r == if GoodPrograms(ps) then Ok(Image(ps)) else Fail
    ensures r.Ok? <==> forall i :: 0 <= i < |ps| ==> Executable(ps[i].file)
    ensures r.Ok? ==> PackedAll(ps, r.value)
  {
    hide Padded, Align, Long, Flag, Stripped, Process, Segments, GoodHeader, HeaderSector, Executable, PackedAll;
    forall i | 0 <= i < |ps| ensures GoodFile(ps[i].file) <==> Executable(ps[i].file) { GoodExecutable(ps[i].file); }
    var imagef := new Stream([]);
    var i := 0;
    while i < |ps|
      invariant 0 <= i <= |ps| && fresh(imagef) && GoodPrograms(ps[..i]) && imagef.data == Image(ps[..i])
    {
      var procf := new Stream(ps[i].file);
      var phdr := ReadHeader(procf);
      if phdr.Fail? { return Fail; }
      ghost var before := imagef.data;
      imagef.BWrite(ps[i].name + Stripped(phdr.value));
      PadImage(imagef, SECTOR - IM_NAME - EXEC);
      var ok := CopySegments(procf, imagef);
      if !ok { return Fail; }
      assert imagef.data == before + ImageOf(ps[i]) by { Laid(before, ps[i]); }
      ImageSnoc(ps[..i], ps[i]);
      assert ps[..i] + [ps[i]] == ps[..i + 1];
      i := i + 1;
    }
    assert ps[..i] == ps;
    AllPacked(ps);
    r := Ok(imagef.data);
  }

  lemma Laid(before: seq<byte>, p: Program)
    requires GoodFile(p.file) && |p.name| == IM_NAME
    ensures before + (p.name + Stripped(Process(p.file))) + Blank(SECTOR - IM_NAME - EXEC) + Segments(p.file) == before + ImageOf(p)
  {
    hide Blank, Stripped, Process, Segments;
  }

  lemma {:induction false} ImageSnoc(ps: seq<Program>, p: Program)
    requires GoodPrograms(ps) && GoodFile(p.file) && |p.name| == IM_NAME
    ensures Image(ps + [p]) == Image(ps) + ImageOf(p)
  {
    hide ImageOf, GoodFile;
    if ps == [] {
      assert ps + [p] == [p];
    } else {
      ImageSnoc(ps[1..], p);
      assert (ps + [p])[1..] == ps[1..] + [p];
    }
  }

  function Min(a: nat, b: nat): nat {
    if a < b then a else b
  }

  lemma AlignAt(n: nat, k: nat)
    requires k % SECTOR == 0
    ensures k < n ==> k + SECTOR <= Align(n)
    ensures n <= k < n + SECTOR ==> k == Align(n)
  {}

  /** One sector is read and, as far as it is wanted, written. */
  method ExtractSector(imagef: Stream, procf: Stream, left: nat) returns (ok: bool)
    requires procf != imagef && imagef.pos <= |imagef.data|
    modifies imagef`pos, procf`data
    ensures ok <==> old(imagef.pos) + SECTOR <= |imagef.data|
    ensures ok ==> imagef.pos == old(imagef.pos) + SECTOR
    ensures ok ==> procf.data == old(procf.data) + imagef.data[old(imagef.pos)..old(imagef.pos) + Min(left, SECTOR)]
  {
    var buf := imagef.BRead(SECTOR);
    if buf.Fail? { return false; }
    PrefixOfSlice(imagef.data, old(imagef.pos), SECTOR, Min(left, SECTOR));
    procf.BWrite(if left < SECTOR then buf.value[..left] else buf.value);
    ok := true;
  }

  lemma PrefixOfSlice(s: seq<byte>, at: nat, n: nat, k: nat)
    requires at + n <= |s| && k <= n
    ensures s[at..at + n][..k] == s[at..at + k] && s[at..at + n][..n] == s[at..at + n]
  {}

  /** extractexec: whole sectors are read, the last one is written in part. */
  method ExtractExec(imagef: Stream, procf: Stream, count: nat) returns (ok: bool)
    requires procf != imagef && imagef.pos <= |imagef.data|
    modifies imagef`pos, procf`data
    ensures ok <==> old(imagef.pos) + Align(count) <= |imagef.data|
    ensures ok ==> imagef.pos == old(imagef.pos) + Align(count)
    ensures ok ==> procf.data == old(procf.data) + imagef.data[old(imagef.pos)..old(imagef.pos) + count]
  {
    hide Align;
    var from := imagef.pos;
    var left: int := count;
    ghost var done: nat := 0;
    AlignAt(count, 0);
    while left > 0
      invariant left == count - done && done % SECTOR == 0 && done < count + SECTOR
      invariant imagef.pos == from + done <= |imagef.data|
      invariant procf.data == old(procf.data) + imagef.data[from..from + Min(done, count)]
    {
      AlignAt(count, done);
      ok := ExtractSector(imagef, procf, left);
      if !ok { return; }
      Pieces(imagef.data, from, done, Min(left, SECTOR));
      Associates(old(procf.data), imagef.data[from..from + done], imagef.data[from + done..from + done + Min(left, SECTOR)]);
      left := left - SECTOR;
      done := done + SECTOR;
    }
    AlignAt(count, done);
    ok := true;
  }

  /** One program of extract_image. */
  method ExtractOne(imagef: Stream) returns (r: Result<Program>)
    requires imagef.pos < |imagef.data|
    modifies imagef`pos
    ensures r.Ok? ==> imagef.pos > old(imagef.pos)
    ensures
      var rest := imagef.data[old(imagef.pos)..];
      if r.Fail? then Extract(rest) == Fail
      else imagef.pos <= |imagef.data| && Extract(rest) == Joined([r.value], Extract(imagef.data[imagef.pos..]))
  {
    hide Extract, Align, Long, Flag, Joined, Unpacked;
    ghost var at := imagef.pos;
    ghost var rest := imagef.data[at..];
    ExtractStep(rest);
    var buf := imagef.BRead(SECTOR);
    if buf.Fail? { return Fail; }
    assert buf.value == rest[..SECTOR];
    var name, h := buf.value[..IM_NAME], buf.value[IM_NAME..IM_NAME + EXEC];
    assert name == rest[..IM_NAME] && h == rest[IM_NAME..IM_NAME + EXEC];
    if !GoodHeader(h) { return Fail; }
    var procf := ExtractFile(imagef, h);
    if procf.Fail? { return Fail; }
    r := Ok(Program(name, procf.value));
    assert imagef.data[at + SECTOR..] == rest[SECTOR..];
    assert imagef.data[imagef.pos..] == rest[SECTOR + SegmentsLen(h)..];
  }

  /** The file that one program is extracted to. */
  method ExtractFile(imagef: Stream, h: seq<byte>) returns (r: Result<seq<byte>>)
    requires imagef.pos <= |imagef.data| && |h| == EXEC && GoodHeader(h)
    modifies imagef`pos
    ensures
      var segments := imagef.data[old(imagef.pos)..];
      r == if |segments| >= SegmentsLen(h) then Ok(Unpacked(h, segments)) else Fail
    ensures r.Ok? ==> imagef.pos == old(imagef.pos) + SegmentsLen(h)
  {
    hide Align, Long, Flag, Body, LayLen;
    var procf := new Stream([]);
    ghost var first := if PageAligned(h) then [] else h[..HdrLen(h)];
    if !PageAligned(h) { procf.BWrite(h[..HdrLen(h)]); }
    assert procf.data == first;
    var ok := ExtractBody(imagef, procf, Separate(h), TextLen(h), DataLen(h));
    r := if ok then Ok(procf.data) else Fail;
  }

  /** The text and data of one program. */
  method ExtractBody(imagef: Stream, procf: Stream, separate: bool, t: nat, d: nat) returns (ok: bool)
    requires procf != imagef && imagef.pos <= |imagef.data|
    modifies imagef`pos, procf`data
    ensures ok <==> old(imagef.pos) + LayLen(separate, t, d) <= |imagef.data|
    ensures ok ==> imagef.pos == old(imagef.pos) + LayLen(separate, t, d)
    ensures ok ==> procf.data == old(procf.data) + Body(separate, t, d, imagef.data[old(imagef.pos)..])
  {
    hide Align;
    ghost var at, first := imagef.pos, procf.data;
    ghost var segments := imagef.data[at..];
    if separate {
      ok := ExtractExec(imagef, procf, t);
      if !ok { return; }
      ok := ExtractExec(imagef, procf, d);
      if !ok { return; }
      SliceOfRest(imagef.data, at, 0, t);
      SliceOfRest(imagef.data, at, Align(t), d);
      Associates(first, segments[..t], segments[Align(t)..Align(t) + d]);
    } else {
      ok := ExtractExec(imagef, procf, t + d);
      if !ok { return; }
      SliceOfRest(imagef.data, at, 0, t + d);
    }
  }

  lemma SliceOfRest(s: seq<byte>, at: nat, i: nat, n: nat)
    requires at + i + n <= |s|
    ensures s[at..][i..i + n] == s[at + i..at + i + n]
  {}

  /** extract_image, on a regular file. */
  method ExtractImage(image: seq<byte>) returns (r: Result<seq<Program>>)
    ensures r == Extract(image)
    ensures r.Ok? ==> TakenAll(r.value, image)
    ensures r.Fail? ==> forall ps :: !TakenAll(ps, image)
  {
    hide Extract, TakenAll;
    var imagef := new Stream(image);
    var programs: seq<Program> := [];
    assert image[0..] == image;
    JoinedNone(Extract(image));
    while imagef.pos < |image|
      invariant fresh(imagef) && imagef.data == image && imagef.pos <= |image|
      invariant Extract(image) == Joined(programs, Extract(image[imagef.pos..]))
      decreases |image| - imagef.pos
    {
      var p := ExtractOne(imagef);
      if p.Fail? {
        forall ps ensures !TakenAll(ps, image) { ExtractTaken(ps, image); }
        return Fail;
      }
      JoinedMore(programs, p.value, Extract(image[imagef.pos..]));
      programs := programs + [p.value];
    }
    ExtractNone(image[imagef.pos..]);
    r := Ok(programs);
    ExtractTaken(programs, image);
  }

  lemma JoinedNone(rest: Result<seq<Program>>)
    ensures Joined([], rest) == rest
  {
    if rest.Ok? { assert [] + rest.value == rest.value; }
  }

  lemma JoinedMore(done: seq<Program>, p: Program, rest: Result<seq<Program>>)
    ensures Joined(done, Joined([p], rest)) == Joined(done + [p], rest)
  {
    if rest.Ok? { assert done + ([p] + rest.value) == done + [p] + rest.value; }
  }

  lemma ExtractNone(image: seq<byte>)
    requires image == []
    ensures Extract(image) == Ok([]) && forall done :: Joined(done, Extract(image)) == Ok(done)
  {
    forall done ensures Joined(done, Extract(image)) == Ok(done) { assert done + [] == done; }
  }
}
