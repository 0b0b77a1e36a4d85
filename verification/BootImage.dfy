/** Boot images: programs packed sector by sector, the size the monitor computes, unpacking. */
module BootImage {
  import opened Storage

  const SECTOR: nat := 512
  const IM_NAME: nat := 64
  const MINHDR: nat := 32
  const EXEC: nat := 48

  /** A program file and the name it has in the image. */
  datatype Program = Program(name: seq<byte>, file: seq<byte>)
  datatype Result<T> = Ok(value: T) | Fail

  function Blank(n: nat): (s: seq<byte>)
    ensures |s| == n && forall i :: 0 <= i < n ==> s[i] == 0
  {
    if n == 0 then [] else Blank(n - 1) + [0]
  }

  // ---------- The a.out header ----------

  function Long(b: seq<byte>, at: nat): nat
    requires at + 4 <= |b|
  {
    b[at] as nat + 0x100 * b[at + 1] as nat + 0x1_0000 * b[at + 2] as nat + 0x100_0000 * b[at + 3] as nat
  }

  function Flag(flags: byte, bit: nat): bool
    requires bit > 0
  {
    (flags as nat / bit) % 2 == 1
  }

  const A_PAL: nat := 0x02
  const A_NSYM: nat := 0x04
  const A_SEP: nat := 0x20

  function HdrLen(h: seq<byte>): nat
    requires |h| >= MINHDR
  {
    h[4] as nat
  }

  function PageAligned(h: seq<byte>): bool
    requires |h| >= MINHDR
  {
    Flag(h[2], A_PAL)
  }

  function Separate(h: seq<byte>): bool
    requires |h| >= MINHDR
  {
    Flag(h[2], A_SEP)
  }

  /** The bytes of the text segment as it is laid in the image: a page aligned program has its
      header there. */
  function TextLen(h: seq<byte>): nat
    requires |h| >= MINHDR
  {
    Long(h, 8) + (if PageAligned(h) then HdrLen(h) else 0)
  }

  function DataLen(h: seq<byte>): nat
    requires |h| >= MINHDR
  {
    Long(h, 12)
  }

  /** read_header's check of the magic number, and the sizes for which the copying stays inside struct
      exec and inside a signed 32-bit long. */
  predicate GoodHeader(h: seq<byte>)
    requires |h| >= MINHDR
  {
    h[0] == 1 && h[1] == 3 && MINHDR <= HdrLen(h) <= EXEC && TextLen(h) + DataLen(h) < 0x8000_0000
  }

  /** struct exec as filled from the start of a program file. */
  function Process(file: seq<byte>): (p: seq<byte>)
    requires |file| >= MINHDR && HdrLen(file) <= |file| && HdrLen(file) <= EXEC
    ensures |p| == EXEC
  {
    file[..HdrLen(file)] + Blank(EXEC - HdrLen(file))
  }

  /** The symbol table is stripped off: a_syms is 0 and A_NSYM is not set. */
  function Stripped(p: seq<byte>): (r: seq<byte>)
    requires |p| == EXEC
    ensures |r| == EXEC
  {
    p[2 := if Flag(p[2], A_NSYM) then (p[2] as nat - 4) as byte else p[2]][28 := 0][29 := 0][30 := 0][31 := 0]
  }

  lemma ClearNsym(f: byte)
    requires Flag(f, A_NSYM)
    ensures f >= 4 && Flag((f as nat - 4) as byte, A_PAL) == Flag(f, A_PAL) && Flag((f as nat - 4) as byte, A_SEP) == Flag(f, A_SEP)
  {
    var q := f as nat / 4;
    assert q % 2 == 1;
    assert (f as nat - 4) / 2 == f as nat / 2 - 2;
    assert (f as nat - 4) / 32 == f as nat / 32;
  }

  /** Stripping changes nothing that the layout depends on. */
  lemma StrippedSame(file: seq<byte>)
    requires GoodFile(file)
    ensures var h := Stripped(Process(file));
      && GoodHeader(h) && HdrLen(h) == HdrLen(file) && PageAligned(h) == PageAligned(file) && Separate(h) == Separate(file)
      && TextLen(h) == TextLen(file) && DataLen(h) == DataLen(file)
  {
    var p := Process(file);
    assert forall i :: 0 <= i < MINHDR ==> p[i] == file[i];
    if Flag(p[2], A_NSYM) { ClearNsym(p[2]); }
  }

  // ---------- The image ----------

  /** A program that make_image accepts: its header is right and all its text and data are there. */
  predicate GoodFile(file: seq<byte>) {
    && |file| >= MINHDR && GoodHeader(file) && |file| >= HdrLen(file) + Long(file, 8) + DataLen(file)
  }

  /** align. */
  function Align(n: nat): (r: nat)
    ensures r >= n && r % SECTOR == 0 && r < n + SECTOR
  {
    (n + SECTOR - 1) / SECTOR * SECTOR
  }

  /** Bytes of an executable, padded to fill a sector. */
  function Padded(s: seq<byte>): (r: seq<byte>)
    ensures |r| == Align(|s|)
  {
    s + Blank(Align(|s|) - |s|)
  }

  function HeaderSector(name: seq<byte>, process: seq<byte>): (r: seq<byte>)
    requires |name| == IM_NAME && |process| == EXEC
    ensures |r| == SECTOR
  {
    name + process + Blank(SECTOR - IM_NAME - EXEC)
  }

  /** Where in the file the segments begin. */
  function Start(file: seq<byte>): nat
    requires |file| >= MINHDR
  {
    if PageAligned(file) then 0 else HdrLen(file)
  }

  /** Text and data, the first `t` bytes being the text: padded apart if the program has separate
      instruction and data spaces, else together. */
  function Lay(separate: bool, bytes: seq<byte>, t: nat): (r: seq<byte>)
    requires t <= |bytes|
    ensures |r| == LayLen(separate, t, |bytes| - t)
  {
    if separate then Padded(bytes[..t]) + Padded(bytes[t..]) else Padded(bytes)
  }

  function LayLen(separate: bool, t: nat, d: nat): nat {
    if separate then Align(t) + Align(d) else Align(t + d)
  }

  function Segments(file: seq<byte>): seq<byte>
    requires GoodFile(file)
  {
    var s, t, d := Start(file), TextLen(file), DataLen(file);
    Lay(Separate(file), file[s..s + t + d], t)
  }

  function ImageOf(p: Program): seq<byte>
    requires GoodFile(p.file) && |p.name| == IM_NAME
  {
    HeaderSector(p.name, Stripped(Process(p.file))) + Segments(p.file)
  }

  predicate GoodPrograms(ps: seq<Program>) {
    forall i :: 0 <= i < |ps| ==> GoodFile(ps[i].file) && |ps[i].name| == IM_NAME
  }

  function Image(ps: seq<Program>): seq<byte>
    requires GoodPrograms(ps)
  {
    if ps == [] then [] else ImageOf(ps[0]) + Image(ps[1..])
  }

  // ---------- Image and programs byte by byte ----------

  /** The four bytes from `at` on hold n, the low byte first. */
  ghost predicate Holds(b: seq<byte>, at: nat, n: nat)
    requires at + 4 <= |b|
  {
    && b[at] as nat == n % 0x100
    && b[at + 1] as nat == n / 0x100 % 0x100
    && b[at + 2] as nat == n / 0x1_0000 % 0x100
    && b[at + 3] as nat == n / 0x100_0000
  }

  /** An executable's header, that is all there, gives `text` bytes of text and `data` bytes of data;
      a page aligned program counts its header as text. */
  ghost predicate Says(h: seq<byte>, text: nat, data: nat) {
    && |h| >= 32 && h[0] == 1 && h[1] == 3 && 32 <= h[4] <= 48 && h[4] as nat <= |h|
    && Holds(h, 8, text) && Holds(h, 12, data)
    && text + data + (if h[2] / 2 % 2 == 1 then h[4] as nat else 0) < 0x8000_0000
  }

  /** A whole executable: its header and behind it its text and data. */
  ghost predicate Executable(file: seq<byte>) {
    exists text: nat, data: nat :: Says(file, text, data) && |file| >= file[4] as nat + text + data
  }

  /** The flags g are the flags f without A_NSYM. */
  ghost predicate NsymOff(f: byte, g: byte) {
    g % 4 == f % 4 && g / 4 % 2 == 0 && g / 8 == f / 8
  }

  /** The first n bytes of a header, with no symbol table and without a mark of one. */
  ghost predicate NoSymbols(file: seq<byte>, h: seq<byte>, n: nat)
    requires n <= |file| && n <= |h|
  {
    forall i :: 0 <= i < n ==> if i == 2 then NsymOff(file[i], h[i]) else h[i] == if 28 <= i < 32 then 0 else file[i]
  }

  /** The segments begin with the t bytes of text that body begins with; the data behind them begin
      at the next sector if the two are separate.  All of it takes whole sectors. */
  ghost predicate Carries(separate: bool, t: nat, body: seq<byte>, segments: seq<byte>)
    requires t <= |body|
  {
    var at := if separate then (t + 511) / 512 * 512 else t;
    && |segments| == (at + (|body| - t) + 511) / 512 * 512
    && (forall k :: 0 <= k < t ==> segments[k] == body[k])
    && (forall k :: t <= k < |body| ==> segments[at + (k - t)] == body[k])
  }

  /** All that is not text or data is zero. */
  ghost predicate ZeroElsewhere(separate: bool, t: nat, d: nat, segments: seq<byte>) {
    var at := if separate then (t + 511) / 512 * 512 else t;
    forall k :: (t <= k < at || at + d <= k) && k < |segments| ==> segments[k] == 0
  }

  /** The bytes of one program in an image: a sector with its name and its header, the symbol table
      stripped off, and the segments, in which a page aligned program has its header again. */
  ghost predicate Packed(p: Program, s: seq<byte>) {
    && |p.name| == 64 && |s| >= 512 && s[..64] == p.name
    && (exists text: nat, data: nat :: Says(p.file, text, data) && PackedWith(p.file, text, data, s))
  }

  ghost predicate PackedWith(file: seq<byte>, text: nat, data: nat, s: seq<byte>)
    requires |file| >= 32 && |s| >= 512
  {
    var n := file[4] as nat;
    var first := if file[2] / 2 % 2 == 1 then 0 else n;
    var separate := file[2] / 32 % 2 == 1;
    && |file| >= n + text + data && n <= 448
    && NoSymbols(file, s[64..], n) && (forall i :: 64 + n <= i < 512 ==> s[i] == 0)
    && Carries(separate, n + text - first, file[first..n + text + data], s[512..])
    && ZeroElsewhere(separate, n + text - first, data, s[512..])
  }

  /** The image is the programs one behind the other. */
  ghost predicate PackedAll(ps: seq<Program>, image: seq<byte>)
    decreases |ps|
  {
    if ps == [] then image == []
    else exists n: nat | 0 < n <= |image| :: Packed(ps[0], image[..n]) && PackedAll(ps[1..], image[n..])
  }

  /** The file got for a program that was packed: up to the end of its data it is the same, only the
      symbol table is gone from the header of a program that is not page aligned. */
  ghost predicate GivenBack(file: seq<byte>, got: seq<byte>) {
    exists text: nat, data: nat ::
      && Says(file, text, data) && |file| >= file[4] as nat + text + data == |got|
      && got[file[4]..] == file[file[4]..file[4] as nat + text + data]
      && (if file[2] / 2 % 2 == 1 then got[..file[4]] == file[..file[4]] else NoSymbols(file, got, file[4] as nat))
  }

  /** The program that one header sector and the segments behind it make. */
  ghost predicate Taken(p: Program, s: seq<byte>) {
    && |s| >= 512 && p.name == s[..64]
    && exists text: nat, data: nat :: Says(s[64..112], text, data) && TakenWith(p.file, s[64..112], text, data, s[512..])
  }

  ghost predicate TakenWith(file: seq<byte>, h: seq<byte>, text: nat, data: nat, segments: seq<byte>)
    requires |h| >= 32 && h[4] as nat <= |h|
  {
    var n := h[4] as nat;
    var first := if h[2] / 2 % 2 == 1 then 0 else n;
    && |file| == n + text + data && file[..first] == h[..first]
    && Carries(h[2] / 32 % 2 == 1, n + text - first, file[first..], segments)
  }

  /** The programs that an image is made up of. */
  ghost predicate TakenAll(ps: seq<Program>, image: seq<byte>)
    decreases |ps|
  {
    if ps == [] then image == []
    else exists n: nat | 0 < n <= |image| :: Taken(ps[0], image[..n]) && TakenAll(ps[1..], image[n..])
  }

  // ---------- Taking an image apart ----------

  /** Bytes that the segments of a program take in an image. */
  function SegmentsLen(h: seq<byte>): nat
    requires |h| >= MINHDR
  {
    LayLen(Separate(h), TextLen(h), DataLen(h))
  }

  /** Text and data without the padding. */
  function Body(separate: bool, t: nat, d: nat, segments: seq<byte>): seq<byte>
    requires |segments| >= LayLen(separate, t, d)
  {
    if separate then segments[..t] + segments[Align(t)..Align(t) + d] else segments[..t + d]
  }

  /** The program file that the header and segments in an image make. */
  function Unpacked(h: seq<byte>, segments: seq<byte>): seq<byte>
    requires |h| == EXEC && GoodHeader(h) && |segments| >= SegmentsLen(h)
  {
    (if PageAligned(h) then [] else h[..HdrLen(h)]) + Body(Separate(h), TextLen(h), DataLen(h), segments)
  }

  function Extract(image: seq<byte>): Result<seq<Program>> {
    if image == [] then Ok([])
    else if |image| < SECTOR then Fail
    else
      var name, h := image[..IM_NAME], image[IM_NAME..IM_NAME + EXEC];
      if !GoodHeader(h) || |image| < SECTOR + SegmentsLen(h) then Fail
      else
        match Extract(image[SECTOR + SegmentsLen(h)..])
        case Fail => Fail
        case Ok(rest) => Ok([Program(name, Unpacked(h, image[SECTOR..]))] + rest)
  }

  /** What comes out for a program that went in: all of it up to the end of its data, with the
      symbol table marked as gone in the header, unless the header is part of the text. */
  function Restored(p: Program): Program
    requires GoodFile(p.file) && |p.name| == IM_NAME
  {
    var n := HdrLen(p.file);
    var all := n + Long(p.file, 8) + DataLen(p.file);
    Program(p.name, if PageAligned(p.file) then p.file[..all] else Stripped(Process(p.file))[..n] + p.file[n..all])
  }

  function RestoredAll(ps: seq<Program>): (r: seq<Program>)
    requires GoodPrograms(ps)
    ensures |r| == |ps|
  {
    if ps == [] then [] else [Restored(ps[0])] + RestoredAll(ps[1..])
  }

  lemma SegmentsSize(file: seq<byte>)
    requires GoodFile(file)
    ensures |Segments(file)| == SegmentsLen(file) == SegmentsLen(Stripped(Process(file)))
  {
    hide Padded, Align, Long, Flag, Stripped, Process;
    StrippedSame(file);
  }

  lemma PrefixOfPadded(s: seq<byte>, more: seq<byte>)
    ensures (Padded(s) + more)[..|s|] == s && (Padded(s) + more)[Align(|s|)..] == more
  {}

  lemma Pieces(file: seq<byte>, s: nat, t: nat, d: nat)
    requires s + t + d <= |file|
    ensures file[s..s + t] + file[s + t..s + t + d] == file[s..s + t + d]
  {}

  /** Taking the padding out undoes putting it in. */
  lemma BodyOfLay(separate: bool, bytes: seq<byte>, t: nat, more: seq<byte>)
    requires t <= |bytes|
    ensures Body(separate, t, |bytes| - t, Lay(separate, bytes, t) + more) == bytes
  {
    hide Padded, Align;
    if separate {
      var a, b := bytes[..t], bytes[t..];
      var segs := Padded(a) + Padded(b) + more;
      assert segs == Padded(a) + (Padded(b) + more);
      PrefixOfPadded(a, Padded(b) + more);
      PrefixOfPadded(b, more);
      var rest := Padded(b) + more;
      assert segs[Align(t)..] == rest;
      assert segs[Align(t)..Align(t) + |b|] == rest[..|b|];
      assert a + b == bytes;
    } else {
      PrefixOfPadded(bytes, more);
    }
  }

  /** Taking the padding out of the segments leaves the file's bytes. */
  lemma UnpackSegments(file: seq<byte>, h: seq<byte>, more: seq<byte>)
    requires GoodFile(file) && |h| == EXEC && GoodHeader(h) && HdrLen(h) == HdrLen(file)
    requires PageAligned(h) == PageAligned(file) && Separate(h) == Separate(file)
    requires TextLen(h) == TextLen(file) && DataLen(h) == DataLen(file)
    ensures
      var s, n := Start(file), TextLen(file) + DataLen(file);
      && |Segments(file) + more| >= SegmentsLen(h) && s + n <= |file|
      && Unpacked(h, Segments(file) + more) == (if PageAligned(h) then [] else h[..HdrLen(h)]) + file[s..s + n]
  {
    hide Padded, Align, Long, Flag, Lay, Body;
    var s, t, d := Start(file), TextLen(file), DataLen(file);
    BodyOfLay(Separate(file), file[s..s + t + d], t, more);
  }

  lemma UnpackOne(p: Program, more: seq<byte>)
    requires GoodFile(p.file) && |p.name| == IM_NAME
    ensures |ImageOf(p)| == SECTOR + SegmentsLen(p.file)
    ensures
      var image, h := ImageOf(p) + more, Stripped(Process(p.file));
      && image[..IM_NAME] == p.name && image[IM_NAME..IM_NAME + EXEC] == h && GoodHeader(h) && SegmentsLen(h) == SegmentsLen(p.file)
      && image[SECTOR + SegmentsLen(h)..] == more && Program(p.name, Unpacked(h, image[SECTOR..])) == Restored(p)
  {
    hide Padded, Align, Long, Flag, Stripped, Process, SegmentsLen, Segments, Unpacked;
    var h := Stripped(Process(p.file));
    var image := ImageOf(p) + more;
    StrippedSame(p.file);
    SegmentsSize(p.file);
    assert image[SECTOR..] == Segments(p.file) + more;
    UnpackSegments(p.file, h, more);
    Pieces(p.file, 0, HdrLen(p.file), Long(p.file, 8) + DataLen(p.file));
  }

  /** Extracting what make_image made gives every program back. */
  lemma {:induction false} RoundTrip(ps: seq<Program>)
    requires GoodPrograms(ps)
    ensures Extract(Image(ps)) == Ok(RestoredAll(ps))
  {
    if ps != [] {
      RoundTrip(ps[1..]);
      UnpackOne(ps[0], Image(ps[1..]));
    }
  }

  // ---------- What the functions come to, in bytes ----------

  lemma HoldsLong(b: seq<byte>, at: nat, n: nat)
    requires at + 4 <= |b|
    ensures Holds(b, at, n) <==> n == Long(b, at)
  {
    var b0, b1, b2, b3 := b[at] as nat, b[at + 1] as nat, b[at + 2] as nat, b[at + 3] as nat;
    var l := Long(b, at);
    assert l / 0x100 == b1 + 0x100 * b2 + 0x1_0000 * b3 && l / 0x1_0000 == b2 + 0x100 * b3 && l / 0x100_0000 == b3;
    var n1 := n / 0x100;
    var n2 := n1 / 0x100;
    assert n / 0x1_0000 == n2 && n / 0x100_0000 == n2 / 0x100;
  }

  /** The header's own text and data sizes are the only ones it says. */
  lemma SaysSizes(h: seq<byte>, text: nat, data: nat)
    requires |h| >= MINHDR
    ensures Says(h, text, data) <==> GoodHeader(h) && HdrLen(h) <= |h| && text == Long(h, 8) && data == DataLen(h)
  {
    HoldsLong(h, 8, text);
    HoldsLong(h, 12, data);
  }

  /** A program is accepted exactly if it is a whole executable. */
  lemma GoodExecutable(file: seq<byte>)
    ensures GoodFile(file) <==> Executable(file)
  {
    hide Says, GoodHeader, Long;
    if |file| >= MINHDR {
      SaysSizes(file, Long(file, 8), DataLen(file));
      forall text: nat, data: nat ensures Says(file, text, data) ==> text == Long(file, 8) && data == DataLen(file) && GoodHeader(file) {
        SaysSizes(file, text, data);
      }
    } else {
      ShortSays(file);
    }
  }

  lemma ShortSays(file: seq<byte>)
    requires |file| < MINHDR
    ensures forall text: nat, data: nat :: !Says(file, text, data)
  {}

  lemma NsymGone(f: byte)
    ensures NsymOff(f, if Flag(f, A_NSYM) then (f as nat - 4) as byte else f)
  {
    var q := f / 4;
    assert Flag(f, A_NSYM) <==> q % 2 == 1;
    if Flag(f, A_NSYM) {
      assert q >= 1 && (f - 4) / 4 == q - 1;
    }
  }

  /** The header in the image: no symbol table, no mark of one, and else the file's header. */
  lemma StrippedHeader(file: seq<byte>)
    requires GoodFile(file)
    ensures var h := Stripped(Process(file)); NoSymbols(file, h, HdrLen(file)) && forall i :: HdrLen(file) <= i < EXEC ==> h[i] == 0
  {
    hide NsymOff, Flag;
    NsymGone(file[2]);
    assert forall i :: 0 <= i < HdrLen(file) ==> Process(file)[i] == file[i];
  }

  /** Text and data are laid in whole sectors, with zeros behind them. */
  lemma LayCarries(separate: bool, bytes: seq<byte>, t: nat)
    requires t <= |bytes|
    ensures Carries(separate, t, bytes, Lay(separate, bytes, t)) && ZeroElsewhere(separate, t, |bytes| - t, Lay(separate, bytes, t))
  {
    hide Blank;
    AlignSum(t, |bytes| - t);
  }

  /** Every program in an image, byte by byte. */
  lemma ImagePacked(p: Program)
    requires GoodFile(p.file) && |p.name| == IM_NAME
    ensures Packed(p, ImageOf(p))
  {
    hide Long, Flag, Stripped, Process, Lay, Carries, ZeroElsewhere, Says, NoSymbols;
    var file, n := p.file, HdrLen(p.file);
    var text, data, first := Long(file, 8), DataLen(file), Start(file);
    var h, s := Stripped(Process(file)), ImageOf(p);
    SaysSizes(file, text, data);
    StrippedHeader(file);
    SectorBytes(p.name, h, Segments(file));
    SameHeader(file, h, s[64..], n);
    FlagsAre(file);
    LayCarries(Separate(file), file[first..first + TextLen(file) + data], TextLen(file));
  }

  lemma FlagsAre(file: seq<byte>)
    requires |file| >= MINHDR
    ensures PageAligned(file) == (file[2] / 2 % 2 == 1) && Separate(file) == (file[2] / 32 % 2 == 1)
  {}

  lemma SectorBytes(name: seq<byte>, h: seq<byte>, segments: seq<byte>)
    requires |name| == IM_NAME && |h| == EXEC
    ensures var s := HeaderSector(name, h) + segments;
      && s[..64] == name && s[512..] == segments && (forall i :: 0 <= i < EXEC ==> s[64..][i] == h[i])
      && forall i :: 64 + EXEC <= i < 512 ==> s[i] == 0
  {}

  lemma SameHeader(file: seq<byte>, h: seq<byte>, g: seq<byte>, n: nat)
    requires n <= |file| && n <= |h| <= |g| && (forall i :: 0 <= i < n ==> g[i] == h[i])
    ensures NoSymbols(file, h, n) ==> NoSymbols(file, g, n)
  {}

  /** The whole image, byte by byte. */
  lemma {:induction false} AllPacked(ps: seq<Program>)
    requires GoodPrograms(ps)
    ensures PackedAll(ps, Image(ps))
  {
    hide Packed, ImageOf, GoodFile;
    if ps != [] {
      AllPacked(ps[1..]);
      ImagePacked(ps[0]);
      ImageNotEmpty(ps[0]);
      var n := |ImageOf(ps[0])|;
      assert Image(ps)[..n] == ImageOf(ps[0]) && Image(ps)[n..] == Image(ps[1..]);
    }
  }

  lemma ImageNotEmpty(p: Program)
    requires GoodFile(p.file) && |p.name| == IM_NAME
    ensures |ImageOf(p)| > 0
  {}

  /** What comes back for a program is its file, with no symbol table in the header. */
  lemma RestoredFile(p: Program)
    requires GoodFile(p.file) && |p.name| == IM_NAME
    ensures Restored(p).name == p.name && GivenBack(p.file, Restored(p).file)
  {
    hide Long, Flag, Stripped, Process, Says, NoSymbols;
    var file, n := p.file, HdrLen(p.file);
    var h, got := Stripped(Process(file)), Restored(p).file;
    SaysSizes(file, Long(file, 8), DataLen(file));
    FlagsAre(file);
    StrippedHeader(file);
    if !PageAligned(file) {
      assert got[n..] == file[n..n + Long(file, 8) + DataLen(file)];
      NoSymbolsPrefix(file, h, got, n);
    }
  }

  lemma NoSymbolsPrefix(file: seq<byte>, h: seq<byte>, g: seq<byte>, n: nat)
    requires n <= |file| && n <= |h| && n <= |g| && h[..n] == g[..n] && NoSymbols(file, h, n)
    ensures NoSymbols(file, g, n)
  {
    assert forall i :: 0 <= i < n ==> h[i] == h[..n][i] && g[i] == g[..n][i];
  }

  /** Making an image and extracting it gives every file back. */
  lemma {:induction false} FilesBack(ps: seq<Program>)
    requires GoodPrograms(ps)
    ensures Extract(Image(ps)).Ok? && |Extract(Image(ps)).value| == |ps|
    ensures forall i :: 0 <= i < |ps| ==>
      var back := Extract(Image(ps)).value[i]; back.name == ps[i].name && GivenBack(ps[i].file, back.file)
  {
    hide Restored, GivenBack, Image, Extract;
    RoundTrip(ps);
    EachRestored(ps);
    forall i | 0 <= i < |ps| ensures RestoredAll(ps)[i].name == ps[i].name && GivenBack(ps[i].file, RestoredAll(ps)[i].file) {
      RestoredFile(ps[i]);
    }
  }

  lemma {:induction false} EachRestored(ps: seq<Program>)
    requires GoodPrograms(ps)
    ensures forall i :: 0 <= i < |ps| ==> RestoredAll(ps)[i] == Restored(ps[i])
  {
    hide Restored;
    if ps != [] { EachRestored(ps[1..]); }
  }

  lemma CarriesBody(separate: bool, t: nat, body: seq<byte>, segments: seq<byte>)
    requires t <= |body|
    ensures Carries(separate, t, body, segments) <==>
      |segments| == LayLen(separate, t, |body| - t) && body == Body(separate, t, |body| - t, segments)
  {
    var d := |body| - t;
    AlignSum(t, d);
    if |segments| == LayLen(separate, t, d) {
      var b := Body(separate, t, d, segments);
      var at := if separate then Align(t) else t;
      assert |b| == |body|;
      assert forall k :: 0 <= k < t ==> b[k] == segments[k];
      assert forall k :: t <= k < t + d ==> b[k] == segments[at + (k - t)];
    }
  }

  /** The bytes of a program determine it. */
  lemma TakenIs(p: Program, s: seq<byte>)
    requires |s| >= SECTOR
    ensures
      var h := s[IM_NAME..IM_NAME + EXEC];
      Taken(p, s) <==> GoodHeader(h) && |s| == SECTOR + SegmentsLen(h) && p == Program(s[..IM_NAME], Unpacked(h, s[SECTOR..]))
  {
    hide Long, Flag, Says, Align, LayLen, Body, Carries, TakenWith, Unpacked;
    var h, segments := s[IM_NAME..IM_NAME + EXEC], s[SECTOR..];
    var text, data := Long(h, 8), DataLen(h);
    forall x: nat, y: nat ensures Says(h, x, y) <==> GoodHeader(h) && x == text && y == data { SaysSizes(h, x, y); }
    if Taken(p, s) {
      var x: nat, y: nat :| Says(s[64..112], x, y) && TakenWith(p.file, s[64..112], x, y, s[512..]);
      assert Says(h, x, y) && x == text && y == data;
    }
    if GoodHeader(h) {
      assert Says(h, text, data);
      TakenWithIs(p.file, h, segments);
    }
  }

  lemma TakenWithIs(file: seq<byte>, h: seq<byte>, segments: seq<byte>)
    requires |h| == EXEC && GoodHeader(h)
    ensures TakenWith(file, h, Long(h, 8), DataLen(h), segments) <==> |segments| == SegmentsLen(h) && file == Unpacked(h, segments)
  {
    hide Long, Flag, Align, LayLen, Body, Carries;
    var t, d, first := TextLen(h), DataLen(h), if PageAligned(h) then 0 else HdrLen(h);
    FlagsAre(h);
    if |segments| == SegmentsLen(h) { BodySize(Separate(h), t, d, segments); }
    if |file| == first + t + d {
      CarriesBody(Separate(h), t, file[first..], segments);
      if |segments| == SegmentsLen(h) { Rejoins(file, h, first, Body(Separate(h), t, d, segments)); }
    }
  }

  lemma Rejoins(file: seq<byte>, h: seq<byte>, first: nat, body: seq<byte>)
    requires first <= |file| && first <= |h|
    ensures file == h[..first] + body <==> file[..first] == h[..first] && file[first..] == body
  {
    assert file == file[..first] + file[first..];
    assert (h[..first] + body)[..first] == h[..first] && (h[..first] + body)[first..] == body;
  }

  lemma BodySize(separate: bool, t: nat, d: nat, segments: seq<byte>)
    requires |segments| >= LayLen(separate, t, d)
    ensures |Body(separate, t, d, segments)| == t + d
    ensures Body(separate, t, d, segments[..LayLen(separate, t, d)]) == Body(separate, t, d, segments)
  {
    var some := segments[..LayLen(separate, t, d)];
    if separate {
      assert some[..t] == segments[..t] && some[Align(t)..Align(t) + d] == segments[Align(t)..Align(t) + d];
    } else {
      assert some[..t + d] == segments[..t + d];
    }
  }

  /** What extracting the rest of an image adds to the programs there are. */
  function Joined(done: seq<Program>, rest: Result<seq<Program>>): Result<seq<Program>> {
    if rest.Ok? then Ok(done + rest.value) else Fail
  }

  /** Extract, one program at a time. */
  lemma ExtractStep(image: seq<byte>)
    requires image != []
    ensures |image| < SECTOR ==> Extract(image) == Fail
    ensures
      |image| >= SECTOR ==>
        (var h := image[IM_NAME..IM_NAME + EXEC];
        && (!GoodHeader(h) || |image| < SECTOR + SegmentsLen(h) ==> Extract(image) == Fail)
        && (GoodHeader(h) && |image| >= SECTOR + SegmentsLen(h) ==>
          Extract(image) == Joined([Program(image[..IM_NAME], Unpacked(h, image[SECTOR..]))], Extract(image[SECTOR + SegmentsLen(h)..]))))
  {}

  /** The first of the programs of an image. */
  lemma TakenStep(ps: seq<Program>, image: seq<byte>)
    requires ps != [] && image != []
    ensures TakenAll(ps, image) ==> |image| >= SECTOR
    ensures
      |image| >= SECTOR ==>
        (var h := image[IM_NAME..IM_NAME + EXEC];
        TakenAll(ps, image) <==>
          && GoodHeader(h) && |image| >= SECTOR + SegmentsLen(h)
          && ps[0] == Program(image[..IM_NAME], Unpacked(h, image[SECTOR..]))
          && TakenAll(ps[1..], image[SECTOR + SegmentsLen(h)..]))
  {
    hide Taken, Unpacked, GoodHeader, SegmentsLen;
    forall n: nat | 0 < n <= |image| ensures Taken(ps[0], image[..n]) <==> TakenFirst(ps[0], image, n) {
      if n >= SECTOR { TakenIs(ps[0], image[..n]); SamePrefix(image, n); } else { TakenShort(ps[0], image[..n]); }
    }
  }

  /** The first n bytes of an image are those of this program. */
  ghost predicate TakenFirst(p: Program, image: seq<byte>, n: nat)
    requires n <= |image|
  {
    && n >= SECTOR
    && var h := image[IM_NAME..IM_NAME + EXEC];
      GoodHeader(h) && n == SECTOR + SegmentsLen(h) && p == Program(image[..IM_NAME], Unpacked(h, image[SECTOR..]))
  }

  lemma TakenShort(p: Program, s: seq<byte>)
    requires |s| < SECTOR
    ensures !Taken(p, s)
  {}

  lemma SamePrefix(image: seq<byte>, n: nat)
    requires SECTOR <= n <= |image|
    ensures image[..n][..IM_NAME] == image[..IM_NAME]
    ensures
      var h := image[IM_NAME..IM_NAME + EXEC];
      && image[..n][IM_NAME..IM_NAME + EXEC] == h
      && (GoodHeader(h) && n == SECTOR + SegmentsLen(h) ==> Unpacked(h, image[..n][SECTOR..]) == Unpacked(h, image[SECTOR..]))
  {
    hide GoodHeader, LayLen, Body, TextLen, DataLen, Flag;
    var h, segments := image[IM_NAME..IM_NAME + EXEC], image[SECTOR..];
    assert image[..n][SECTOR..] == segments[..n - SECTOR];
    if n == SECTOR + SegmentsLen(h) { BodySize(Separate(h), TextLen(h), DataLen(h), segments); }
  }

  /** Extraction finds just the programs that the image is made up of, and fails if it is not made
      up of any. */
  lemma {:induction false} ExtractTaken(ps: seq<Program>, image: seq<byte>)
    ensures Extract(image) == Ok(ps) <==> TakenAll(ps, image)
    decreases |ps|
  {
    hide Taken, Unpacked, GoodHeader, SegmentsLen;
    if image != [] {
      ExtractStep(image);
      if ps != [] {
        TakenStep(ps, image);
        assert ps == [ps[0]] + ps[1..];
        if |image| >= SECTOR {
          var h := image[IM_NAME..IM_NAME + EXEC];
          if GoodHeader(h) && |image| >= SECTOR + SegmentsLen(h) { ExtractTaken(ps[1..], image[SECTOR + SegmentsLen(h)..]); }
        }
      }
    }
  }

  // ---------- proc_size ----------

  /** proc_size: sectors of a process in an image, computed from its header. */
  function ProcSize(h: seq<byte>): nat
    requires |h| >= MINHDR
  {
    var len := Long(h, 8);
    var len1 := if Flag(h[2], A_PAL) then len + h[4] as nat else len;
    var len2 := if Flag(h[2], A_SEP) then Align(len1) else len1;
    Align(len2 + DataLen(h)) / SECTOR
  }

  lemma AlignSum(a: nat, b: nat)
    ensures Align(Align(a) + b) == Align(a) + Align(b)
  {
    var k := (a + SECTOR - 1) / SECTOR;
    assert (k * SECTOR + b + SECTOR - 1) / SECTOR == k + (b + SECTOR - 1) / SECTOR;
  }

  lemma ProcSizeIs(h: seq<byte>)
    requires |h| >= MINHDR
    ensures ProcSize(h) * SECTOR == SegmentsLen(h)
  {
    if Separate(h) { AlignSum(TextLen(h), DataLen(h)); }
  }

  /** Skipping proc_size sectors after a header lands on the next header. */
  lemma SkipLands(ps: seq<Program>)
    requires GoodPrograms(ps) && ps != []
    ensures var image := Image(ps);
      && |image| >= SECTOR && image[IM_NAME..IM_NAME + EXEC] == Stripped(Process(ps[0].file))
      && SECTOR * (1 + ProcSize(image[IM_NAME..IM_NAME + EXEC])) <= |image|
      && image[SECTOR * (1 + ProcSize(image[IM_NAME..IM_NAME + EXEC]))..] == Image(ps[1..])
  {
    UnpackOne(ps[0], Image(ps[1..]));
    ProcSizeIs(Stripped(Process(ps[0].file)));
  }
}
