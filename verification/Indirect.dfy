/** Indirect blocks: zone numbers in a block, two or four bytes each, in either byte order. */
module Indirect {
  import opened Storage

  /** Offset of entry `i`; `width` is the size of a zone number on disk. */
  function EntryPos(i: nat, width: nat): nat {
    if width == 2 then 2 * i else 4 * i
  }

  function Pow256(n: nat): (r: nat)
    ensures r > 0
  {
    if n == 0 then 1 else 256 * Pow256(n - 1)
  }

  /** Little-endian value of some bytes. */
  function FromBytes(s: seq<byte>): (v: nat)
    ensures v < Pow256(|s|)
  {
    if s == [] then 0 else s[0] as nat + 256 * FromBytes(s[1..])
  }

  function ToBytes(v: nat, n: nat): (s: seq<byte>)
    ensures |s| == n
  {
    if n == 0 then [] else [(v % 256) as byte] + ToBytes(v / 256, n - 1)
  }

  /** conv2 and conv4: on a file system of the other byte order the bytes are reversed. */
  function Conv(native: bool, s: seq<byte>): (r: seq<byte>)
    ensures |r| == |s|
  {
    if native || s == [] then s else Conv(false, s[1..]) + [s[0]]
  }

  function Zeros(n: nat): (s: seq<byte>)
    ensures |s| == n && forall i :: 0 <= i < n ==> s[i] == 0
  {
    if n == 0 then [] else Zeros(n - 1) + [0]
  }

  /** rd_indir: read an entry of an indirect block. */
  function RdIndir(b: Block, i: nat, width: nat, native: bool): nat
    requires (width == 2 || width == 4) && EntryPos(i + 1, width) <= |b|
  {
    FromBytes(Conv(native, b[EntryPos(i, width)..EntryPos(i + 1, width)]))
  }

  /** wr_indir: write an entry of an indirect block. */
  function WrIndir(b: Block, i: nat, width: nat, native: bool, zone: nat): (r: Block)
    requires (width == 2 || width == 4) && EntryPos(i + 1, width) <= |b|
    ensures |r| == |b|
  {
    b[..EntryPos(i, width)] + Conv(native, ToBytes(zone, width)) + b[EntryPos(i + 1, width)..]
  }

  /** The zone number that the bytes of entry `i` name: two or four bytes, the low one first on a native
      file system and last on one of the other byte order. */
  predicate Names(b: Block, i: nat, width: nat, native: bool, zone: nat)
    requires (width == 2 || width == 4) && width * i + width <= |b|
  {
    var x := b[width * i..width * i + width];
    if width == 2 then zone == (if native then x[0] as nat + 0x100 * x[1] as nat else 0x100 * x[0] as nat + x[1] as nat)
    else if native then zone == x[0] as nat + 0x100 * x[1] as nat + 0x1_0000 * x[2] as nat + 0x100_0000 * x[3] as nat
    else zone == 0x100_0000 * x[0] as nat + 0x1_0000 * x[1] as nat + 0x100 * x[2] as nat + x[3] as nat
  }

  /** rd_indir reads the number that the bytes name. */
  lemma RdNames(b: Block, i: nat, width: nat, native: bool)
    requires (width == 2 || width == 4) && EntryPos(i + 1, width) <= |b|
    ensures width * i + width <= |b| && Names(b, i, width, native, RdIndir(b, i, width, native))
    ensures forall zone :: Names(b, i, width, native, zone) <==> zone == RdIndir(b, i, width, native)
  {
    var x := b[EntryPos(i, width)..EntryPos(i + 1, width)];
    assert x == b[width * i..width * i + width];
    if width == 2 {
      ConvTwo(native, x);
      ValueTwo(Conv(native, x));
    } else {
      ConvFour(native, x);
      ValueFour(Conv(native, x));
    }
  }

  /** wr_indir leaves bytes that name the zone, and every byte outside the entry as it was. */
  lemma WrNames(b: Block, i: nat, width: nat, native: bool, zone: nat)
    requires (width == 2 || width == 4) && EntryPos(i + 1, width) <= |b| && zone < Pow256(width)
    ensures width * i + width <= |b|
    ensures var r := WrIndir(b, i, width, native, zone);
      Names(r, i, width, native, zone) && forall k :: 0 <= k < |b| && !(width * i <= k < width * i + width) ==> r[k] == b[k]
  {
    EntryRoundTrip(b, i, i, width, native, zone);
    RdNames(WrIndir(b, i, width, native, zone), i, width, native);
  }

  lemma ConvTwo(native: bool, s: seq<byte>)
    requires |s| == 2
    ensures Conv(native, s) == if native then s else [s[1], s[0]]
  {
    assert Conv(false, s[1..][1..]) == [];
  }

  lemma ConvFour(native: bool, s: seq<byte>)
    requires |s| == 4
    ensures Conv(native, s) == if native then s else [s[3], s[2], s[1], s[0]]
  {
    ConvTwo(native, s[2..]);
    assert s[1..][1..] == s[2..];
  }

  lemma ValueTwo(s: seq<byte>)
    requires |s| == 2
    ensures FromBytes(s) == s[0] as nat + 0x100 * s[1] as nat
  {
    assert FromBytes(s[1..][1..]) == 0;
  }

  lemma ValueFour(s: seq<byte>)
    requires |s| == 4
    ensures FromBytes(s) == s[0] as nat + 0x100 * s[1] as nat + 0x1_0000 * s[2] as nat + 0x100_0000 * s[3] as nat
  {
    ValueTwo(s[2..]);
    assert s[1..][1..] == s[2..];
  }

  lemma {:induction false} BytesRoundTrip(v: nat, n: nat)
    requires v < Pow256(n)
    ensures FromBytes(ToBytes(v, n)) == v
  {
    if n > 0 { BytesRoundTrip(v / 256, n - 1); }
  }

  /** Converting twice gives back the original. */
  lemma {:induction false} ConvInvolution(native: bool, s: seq<byte>)
    ensures Conv(native, Conv(native, s)) == s
  {
    if !native && s != [] {
      ConvInvolution(false, s[1..]);
      ConvAppend(Conv(false, s[1..]), s[0]);
    }
  }

  lemma {:induction false} ConvAppend(s: seq<byte>, x: byte)
    ensures Conv(false, s + [x]) == [x] + Conv(false, s)
  {
    if s == [] {
      assert Conv(false, [x]) == Conv(false, []) + [x];
    } else {
      ConvAppend(s[1..], x);
      assert (s + [x])[1..] == s[1..] + [x];
    }
  }

  /** Writing an entry changes that entry and no other. */
  lemma EntryRoundTrip(b: Block, i: nat, j: nat, width: nat, native: bool, zone: nat)
    requires (width == 2 || width == 4) && EntryPos(i + 1, width) <= |b| && EntryPos(j + 1, width) <= |b|
    requires zone < Pow256(width)
    ensures RdIndir(WrIndir(b, i, width, native, zone), j, width, native) == if i == j then zone else RdIndir(b, j, width, native)
  {
    var r := WrIndir(b, i, width, native, zone);
    if i == j {
      assert r[EntryPos(i, width)..EntryPos(i + 1, width)] == Conv(native, ToBytes(zone, width));
      ConvInvolution(native, ToBytes(zone, width));
      BytesRoundTrip(zone, width);
    } else {
      SpliceElsewhere(b, EntryPos(i, width), EntryPos(i + 1, width), Conv(native, ToBytes(zone, width)),
                      EntryPos(j, width), EntryPos(j + 1, width));
    }
  }

  lemma SpliceElsewhere(b: Block, lo: nat, hi: nat, mid: seq<byte>, from: nat, to: nat)
    requires lo <= hi <= |b| && |mid| == hi - lo && from <= to <= |b| && (to <= lo || hi <= from)
    ensures (b[..lo] + mid + b[hi..])[from..to] == b[from..to]
  {
    var r := b[..lo] + mid + b[hi..];
    forall p | 0 <= p < to - from ensures r[from..to][p] == b[from..to][p] {
      assert r[from + p] == b[from + p];
    }
  }

  /** A block of zeros is an indirect block without zones. */
  lemma ZeroEntry(n: nat, i: nat, width: nat, native: bool)
    requires (width == 2 || width == 4) && EntryPos(i + 1, width) <= n
    ensures RdIndir(Zeros(n), i, width, native) == 0
  {
    var s := Zeros(n)[EntryPos(i, width)..EntryPos(i + 1, width)];
    ConvZero(native, s);
    ZeroValue(Conv(native, s));
  }

  lemma {:induction false} ConvZero(native: bool, s: seq<byte>)
    requires forall i :: 0 <= i < |s| ==> s[i] == 0
    ensures forall i :: 0 <= i < |s| ==> Conv(native, s)[i] == 0
  {
    if !native && s != [] { ConvZero(false, s[1..]); }
  }

  lemma {:induction false} ZeroValue(s: seq<byte>)
    requires forall i :: 0 <= i < |s| ==> s[i] == 0
    ensures FromBytes(s) == 0
  {
    if s != [] { ZeroValue(s[1..]); }
  }

  /** Writing NO_ZONE over NO_ZONE does not change the block. */
  lemma ZeroOverZero(b: Block, i: nat, width: nat, native: bool)
    requires (width == 2 || width == 4) && EntryPos(i + 1, width) <= |b| && RdIndir(b, i, width, native) == 0
    ensures WrIndir(b, i, width, native, 0) == b
  {
    var s := b[EntryPos(i, width)..EntryPos(i + 1, width)];
    OnlyZeros(Conv(native, s));
    ConvInvolution(native, s);
    ConvZero(native, Conv(native, s));
    OnlyZerosBack(width);
    ConvZero(native, ToBytes(0, width));
    assert Conv(native, ToBytes(0, width)) == s;
    assert b == b[..EntryPos(i, width)] + s + b[EntryPos(i + 1, width)..];
  }

  lemma {:induction false} OnlyZeros(s: seq<byte>)
    requires FromBytes(s) == 0
    ensures forall i :: 0 <= i < |s| ==> s[i] == 0
  {
    if s != [] {
      OnlyZeros(s[1..]);
      forall i | 0 <= i < |s| ensures s[i] == 0 { if i > 0 { assert s[i] == s[1..][i - 1]; } }
    }
  }

  lemma {:induction false} OnlyZerosBack(n: nat)
    ensures forall i :: 0 <= i < n ==> ToBytes(0, n)[i] == 0
  {
    if n > 0 { OnlyZerosBack(n - 1); }
  }
}
