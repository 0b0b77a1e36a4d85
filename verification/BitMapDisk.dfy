/** The bit maps as they lie on the device, chunks in blocks, searched and changed in place. */
module BitMapDisk {
  import opened BitAlloc

  /** A chunk of the map; element i is the bit 1 << i of the word as stored. */
  type Chunk = seq<bool>

  /** `n` times `size`, by counting. */
  function Base(n: nat, size: nat): nat {
    if n == 0 then 0 else Base(n - 1, size) + size
  }

  lemma {:induction false} BaseIsProduct(n: nat, size: nat)
    ensures Base(n, size) == n * size
  {
    if n > 0 {
      BaseIsProduct(n - 1, size);
      assert n * size == (n - 1) * size + size;
    }
  }

  lemma {:induction false} BaseMono(m: nat, n: nat, size: nat)
    requires m <= n
    ensures Base(m, size) <= Base(n, size)
  {
    if m < n { BaseMono(m, n - 1, size); }
  }

  /** conv2 on a chunk: the two bytes change places unless the file system is native. */
  function Swap(native: bool, c: Chunk): (r: Chunk)
    ensures |r| == |c|
  {
    if native || |c| % 2 == 1 then c else c[|c| / 2..] + c[..|c| / 2]
  }

  lemma SwapTwice(native: bool, c: Chunk)
    ensures Swap(native, Swap(native, c)) == c
  {
  }

  /** The chunks of one block as bits. */
  function BlockBits(b: seq<Chunk>, native: bool): (r: seq<bool>) {
    if b == [] then [] else BlockBits(b[..|b| - 1], native) + Swap(native, b[|b| - 1])
  }

  function Flat(bmap: seq<seq<Chunk>>, native: bool): (r: seq<bool>) {
    if bmap == [] then [] else Flat(bmap[..|bmap| - 1], native) + BlockBits(bmap[|bmap| - 1], native)
  }

  ghost predicate Sized(bmap: seq<seq<Chunk>>, chunks: nat, bits: nat) {
    forall i :: 0 <= i < |bmap| ==> SizedBlock(bmap[i], chunks, bits)
  }

  ghost predicate SizedBlock(b: seq<Chunk>, chunks: nat, bits: nat) {
    |b| == chunks && forall w :: 0 <= w < |b| ==> |b[w]| == bits
  }

  lemma {:induction false} BlockBitsAt(b: seq<Chunk>, native: bool, bits: nat, w: nat, i: nat)
    requires (forall w :: 0 <= w < |b| ==> |b[w]| == bits) && w < |b| && i < bits
    ensures |BlockBits(b, native)| == Base(|b|, bits)
    ensures Base(w, bits) + i < Base(|b|, bits) && BlockBits(b, native)[Base(w, bits) + i] == Swap(native, b[w])[i]
  {
    hide Swap;
    var rest := b[..|b| - 1];
    BlockBitsSize(rest, native, bits);
    if w < |b| - 1 {
      BlockBitsAt(rest, native, bits, w, i);
    }
  }

  lemma {:induction false} BlockBitsSize(b: seq<Chunk>, native: bool, bits: nat)
    requires forall w :: 0 <= w < |b| ==> |b[w]| == bits
    ensures |BlockBits(b, native)| == Base(|b|, bits)
  {
    hide Swap;
    if b != [] { BlockBitsSize(b[..|b| - 1], native, bits); }
  }

  lemma {:induction false} FlatSize(bmap: seq<seq<Chunk>>, native: bool, chunks: nat, bits: nat)
    requires Sized(bmap, chunks, bits)
    ensures |Flat(bmap, native)| == Base(|bmap|, Base(chunks, bits))
  {
    if bmap != [] {
      FlatSize(bmap[..|bmap| - 1], native, chunks, bits);
      BlockBitsSize(bmap[|bmap| - 1], native, bits);
    }
  }

  lemma {:induction false} FlatAt(bmap: seq<seq<Chunk>>, native: bool, chunks: nat, bits: nat, n: nat, k: nat)
    requires Sized(bmap, chunks, bits) && n < |bmap| && k < Base(chunks, bits)
    ensures Base(n, Base(chunks, bits)) + k < |Flat(bmap, native)|
    ensures |BlockBits(bmap[n], native)| == Base(chunks, bits)
    ensures Flat(bmap, native)[Base(n, Base(chunks, bits)) + k] == BlockBits(bmap[n], native)[k]
  {
    var rest := bmap[..|bmap| - 1];
    FlatSize(rest, native, chunks, bits);
    BlockBitsSize(bmap[n], native, bits);
    BlockBitsSize(bmap[|bmap| - 1], native, bits);
    if n < |bmap| - 1 { FlatAt(rest, native, chunks, bits, n, k); }
  }

  /** Number of the bit in chunk `w` of block `n` at place `i`. */
  function BitNo(n: nat, w: nat, i: nat, chunks: nat, bits: nat): nat {
    Base(n, Base(chunks, bits)) + Base(w, bits) + i
  }

  lemma BitAt(bmap: seq<seq<Chunk>>, native: bool, chunks: nat, bits: nat, n: nat, w: nat, i: nat)
    requires Sized(bmap, chunks, bits) && n < |bmap| && w < chunks && i < bits
    ensures BitNo(n, w, i, chunks, bits) < |Flat(bmap, native)|
    ensures Flat(bmap, native)[BitNo(n, w, i, chunks, bits)] == Swap(native, bmap[n][w])[i]
  {
    hide Swap, Base, Flat, BlockBits;
    assert SizedBlock(bmap[n], chunks, bits);
    BlockBitsAt(bmap[n], native, bits, w, i);
    FlatAt(bmap, native, chunks, bits, n, Base(w, bits) + i);
  }

  /** Every bit number names one place. */
  lemma Place(b: nat, n: nat, chunks: nat, bits: nat) returns (k: nat, w: nat, i: nat)
    requires chunks > 0 && bits > 0 && b < Base(n, Base(chunks, bits))
    ensures k < n && w < chunks && i < bits && b == BitNo(k, w, i, chunks, bits)
    ensures k == b / Base(chunks, bits) && w == (b % Base(chunks, bits)) / bits && i == b % bits
  {
    var size := Base(chunks, bits);
    BaseIsProduct(chunks, bits);
    BasePositive(chunks, bits);
    k, w, i := b / size, (b % size) / bits, (b % size) % bits;
    BaseIsProduct(k, size);
    BaseIsProduct(w, bits);
    BaseIsProduct(n, size);
    DivBound(b, size, n);
    DivBound(b % size, bits, chunks);
    ModOfMod(b, chunks, bits);
  }

  lemma BasePositive(chunks: nat, bits: nat)
    requires chunks > 0 && bits > 0
    ensures Base(chunks, bits) > 0
  {
  }

  lemma DivBound(x: nat, n: nat, m: nat)
    requires n > 0 && x < m * n
    ensures x / n < m && x == (x / n) * n + x % n
  {
    if x / n >= m { MulMono(m, x / n, n); }
  }

  lemma {:induction false} MulMono(a: nat, b: nat, n: nat)
    requires a <= b
    ensures a * n <= b * n
  {
    if a < b {
      MulMono(a, b - 1, n);
      assert b * n == (b - 1) * n + n;
    }
  }

  lemma ModOfMod(b: nat, chunks: nat, bits: nat)
    requires chunks > 0 && bits > 0 && chunks * bits > 0
    ensures (b % (chunks * bits)) % bits == b % bits
  {
    var q, r := b / (chunks * bits), b % (chunks * bits);
    assert b == q * (chunks * bits) + r;
    assert q * (chunks * bits) == (q * chunks) * bits;
    AddMultiple(r, q * chunks, bits);
  }

  lemma AddMultiple(r: nat, k: nat, n: nat)
    requires n > 0
    ensures (k * n + r) % n == r % n
  {
    assert r == (r / n) * n + r % n;
    assert (k + r / n) * n == k * n + (r / n) * n;
    DivUnique(k * n + r, k + r / n, r % n, n);
  }

  lemma DivUnique(x: nat, q: nat, m: nat, n: nat)
    requires n > 0 && m < n && x == q * n + m
    ensures x / n == q && x % n == m
  {
    assert x == (x / n) * n + x % n;
    if q < x / n { MulMono(q + 1, x / n, n); }
    else if x / n < q { MulMono(x / n + 1, q, n); }
  }

  lemma PlaceUnique(n: nat, w: nat, i: nat, n': nat, w': nat, i': nat, chunks: nat, bits: nat)
    requires w < chunks && w' < chunks && i < bits && i' < bits
    requires BitNo(n, w, i, chunks, bits) == BitNo(n', w', i', chunks, bits)
    ensures n == n' && w == w' && i == i'
  {
    var size := Base(chunks, bits);
    InBlock(w, i, chunks, bits);
    InBlock(w', i', chunks, bits);
    Stacked(n, Base(w, bits) + i, n', Base(w', bits) + i', size);
    Stacked(w, i, w', i', bits);
  }

  lemma InBlock(w: nat, i: nat, chunks: nat, bits: nat)
    requires w < chunks && i < bits
    ensures Base(w, bits) + i < Base(chunks, bits)
  {
    BaseMono(w + 1, chunks, bits);
  }

  lemma Stacked(m: nat, x: nat, n: nat, y: nat, size: nat)
    requires x < size && y < size && Base(m, size) + x == Base(n, size) + y
    ensures m == n && x == y
  {
    StackedLess(m, x, n, size);
    StackedLess(n, y, m, size);
  }

  lemma StackedLess(m: nat, x: nat, n: nat, size: nat)
    requires x < size
    ensures m < n ==> Base(m, size) + x < Base(n, size)
  {
    if m < n { BaseMono(m + 1, n, size); }
  }

  function SetBit(bmap: seq<seq<Chunk>>, native: bool, n: nat, w: nat, i: nat, v: bool): (r: seq<seq<Chunk>>)
    requires n < |bmap| && w < |bmap[n]| && i < |bmap[n][w]|
  {
    bmap[n := bmap[n][w := Swap(native, Swap(native, bmap[n][w])[i := v])]]
  }

  /** Changing one bit of one chunk in its block changes that bit of the map and no other. */
  lemma SetBitMeaning(bmap: seq<seq<Chunk>>, native: bool, chunks: nat, bits: nat, n: nat, w: nat, i: nat, v: bool)
    requires Sized(bmap, chunks, bits) && n < |bmap| && w < chunks && i < bits && SizedBlock(bmap[n], chunks, bits)
    ensures var r := SetBit(bmap, native, n, w, i, v);
      && Sized(r, chunks, bits) && BitNo(n, w, i, chunks, bits) < |Flat(bmap, native)|
      && Flat(r, native) == Flat(bmap, native)[BitNo(n, w, i, chunks, bits) := v]
  {
    hide Base, Flat, BlockBits, BitNo;
    var r := SetBit(bmap, native, n, w, i, v);
    forall k | 0 <= k < |r| ensures SizedBlock(r[k], chunks, bits) { assert SizedBlock(bmap[k], chunks, bits); }
    FlatSize(bmap, native, chunks, bits);
    FlatSize(r, native, chunks, bits);
    BitAt(bmap, native, chunks, bits, n, w, i);
    var target := BitNo(n, w, i, chunks, bits);
    forall b | 0 <= b < |Flat(bmap, native)| ensures Flat(r, native)[b] == if b == target then v else Flat(bmap, native)[b] {
      var n', w', i' := Place(b, |bmap|, chunks, bits);
      BitAt(bmap, native, chunks, bits, n', w', i');
      BitAt(r, native, chunks, bits, n', w', i');
      SwapTwice(native, Swap(native, bmap[n][w])[i := v]);
      if b == target { PlaceUnique(n, w, i, n', w', i', chunks, bits); }
    }
  }

  /** Bit b of the map as it lies in the blocks: chunk after chunk, block after block, the two bytes
      of a chunk in the other order if the file system is not native. */
  ghost predicate StoredBit(bmap: seq<seq<Chunk>>, native: bool, chunks: nat, bits: nat, b: nat)
    requires chunks > 0 && bits > 0
  {
    var n, w, i := b / bits / chunks, b / bits % chunks, b % bits;
    var at := if native then i else if i < bits / 2 then i + bits / 2 else i - bits / 2;
    n < |bmap| && w < |bmap[n]| && at < |bmap[n][w]| && bmap[n][w][at]
  }

  lemma SwapAt(native: bool, c: Chunk, i: nat)
    requires |c| % 2 == 0 && i < |c|
    ensures Swap(native, c)[i] == c[if native then i else if i < |c| / 2 then i + |c| / 2 else i - |c| / 2]
  {}

  lemma WordOf(n: nat, w: nat, i: nat, chunks: nat, bits: nat)
    requires w < chunks && i < bits
    ensures var b := BitNo(n, w, i, chunks, bits); b / bits / chunks == n && b / bits % chunks == w && b % bits == i
  {
    BitNoIs(n, w, i, chunks, bits);
    DivUnique(BitNo(n, w, i, chunks, bits), n * chunks + w, i, bits);
    DivUnique(n * chunks + w, n, w, chunks);
  }

  lemma {:induction false} BitNoIs(n: nat, w: nat, i: nat, chunks: nat, bits: nat)
    ensures BitNo(n, w, i, chunks, bits) == (n * chunks + w) * bits + i
  {
    BaseIsProduct(w, bits);
    Distribute(n * chunks, w, bits);
    BaseOfBase(n, chunks, bits);
  }

  lemma Distribute(a: nat, b: nat, n: nat)
    ensures (a + b) * n == a * n + b * n
  {}

  lemma {:induction false} BaseOfBase(n: nat, chunks: nat, bits: nat)
    ensures Base(n, Base(chunks, bits)) == n * chunks * bits
  {
    if n > 0 {
      BaseOfBase(n - 1, chunks, bits);
      BaseIsProduct(chunks, bits);
      Distribute(n - 1, 1, chunks);
      Distribute((n - 1) * chunks, chunks, bits);
    }
  }

  /** The bits of the map are those that lie in the blocks. */
  lemma FlatIs(bmap: seq<seq<Chunk>>, native: bool, chunks: nat, bits: nat, b: nat)
    requires chunks > 0 && bits > 0 && bits % 2 == 0 && Sized(bmap, chunks, bits) && b < |Flat(bmap, native)|
    ensures Flat(bmap, native)[b] <==> StoredBit(bmap, native, chunks, bits, b)
  {
    hide Flat, Swap, Base;
    BaseIsProduct(chunks, bits);
    FlatSize(bmap, native, chunks, bits);
    var n, w, i := Place(b, |bmap|, chunks, bits);
    WordOf(n, w, i, chunks, bits);
    assert SizedBlock(bmap[n], chunks, bits);
    BitAt(bmap, native, chunks, bits, n, w, i);
    SwapAt(native, bmap[n][w], i);
  }

  /** alloc_bit on the blocks: the bit taken was clear, all bits were set from the chunk of the origin
      up to it, or up to the end and from the beginning up to it; just this bit is set.  If none was
      taken, all were set. */
  ghost predicate TookFirst(was: seq<seq<Chunk>>, is_: seq<seq<Chunk>>, native: bool, chunks: nat, bits: nat,
                            mapBits: nat, origin: nat, b: nat)
    requires chunks > 0 && bits > 0
  {
    var from := (if origin < mapBits then origin else 0) / bits * bits;
    forall k :: 0 <= k < mapBits ==>
      && (StoredBit(is_, native, chunks, bits, k) <==> StoredBit(was, native, chunks, bits, k) || (b != 0 && k == b))
      && (PassedOver(from, b, k) ==> StoredBit(was, native, chunks, bits, k))
      && (b != 0 && k == b ==> !StoredBit(was, native, chunks, bits, k))
  }

  /** The bits that a search from `from` on looks at before it takes b, or finds none. */
  ghost predicate PassedOver(from: int, b: nat, k: nat) {
    if b == 0 then true else if from <= b then from <= k < b else from <= k || k < b
  }

  lemma FoundPasses(flat: seq<bool>, origin: nat, bits: nat)
    requires bits > 0 && |flat| > 0 && flat[0]
    ensures
      var b, from := Found(flat, origin, bits), (if origin < |flat| then origin else 0) / bits * bits;
      && b < |flat| && (b != 0 ==> !flat[b]) && forall k :: 0 <= k < |flat| && PassedOver(from, b, k) ==> flat[k]
  {
    hide Found;
    var o := if origin < |flat| then origin else 0;
    assert (o / bits * bits) % bits == 0 by { AddMultiple(0, o / bits, bits); }
    FoundFirst(flat, origin, bits, o / bits * bits);
    FoundComplete(flat, origin, bits);
  }

  lemma TookFirstIs(was: seq<seq<Chunk>>, is_: seq<seq<Chunk>>, native: bool, chunks: nat, bits: nat,
                    mapBits: nat, origin: nat, b: nat)
    requires chunks > 0 && bits > 0 && bits % 2 == 0 && Sized(was, chunks, bits) && Sized(is_, chunks, bits)
    requires 0 < mapBits <= |Flat(was, native)| && mapBits <= |Flat(is_, native)|
    requires Flat(was, native)[0] && b == Found(Flat(was, native)[..mapBits], origin, bits)
    requires Flat(is_, native)[..mapBits] == if b == NO_BIT then Flat(was, native)[..mapBits] else Flat(was, native)[..mapBits][b := true]
    ensures b < mapBits && TookFirst(was, is_, native, chunks, bits, mapBits, origin, b)
  {
    hide Flat, StoredBit, Found, Sized, PassedOver;
    var flat, after := Flat(was, native)[..mapBits], Flat(is_, native)[..mapBits];
    FoundPasses(flat, origin, bits);
    forall k | 0 <= k < mapBits
      ensures StoredBit(was, native, chunks, bits, k) <==> flat[k]
      ensures StoredBit(is_, native, chunks, bits, k) <==> after[k]
    {
      FlatIs(was, native, chunks, bits, k);
      FlatIs(is_, native, chunks, bits, k);
    }
  }

  /** Bits in [lo, hi), as far as the map goes, are all set. */
  ghost predicate AllSet(flat: seq<bool>, mapBits: nat, lo: nat, hi: nat) {
    forall k :: lo <= k < hi && k < mapBits && k < |flat| ==> flat[k]
  }

  class BitMapFile {
    // The blocks of the map as get_block presents them, and the constants of the super block.  A
    // chunk has two bytes, so an even number of bits.
    var bmap: seq<seq<Chunk>>
    const native: bool
    const chunks: nat
    const bits: nat
    const mapBits: nat

    ghost predicate Valid()
      reads this
    {
      && chunks > 0 && bits > 0 && bits % 2 == 0 && bmap != [] && Sized(bmap, chunks, bits)
      && Base(|bmap| - 1, Base(chunks, bits)) < mapBits <= Base(|bmap|, Base(chunks, bits))
      && |Flat(bmap, native)| == Base(|bmap|, Base(chunks, bits))
    }

    ghost function Model(): seq<bool>
      requires Valid()
      reads this
    {
      Flat(bmap, native)[..mapBits]
    }

    constructor (bmap: seq<seq<Chunk>>, native: bool, chunks: nat, bits: nat, mapBits: nat)
      requires chunks > 0 && bits > 0 && bits % 2 == 0 && bmap != [] && Sized(bmap, chunks, bits)
      requires Base(|bmap| - 1, Base(chunks, bits)) < mapBits <= Base(|bmap|, Base(chunks, bits))
      ensures Valid() && this.bmap == bmap && this.native == native && this.chunks == chunks && this.bits == bits && this.mapBits == mapBits
    {
      hide Flat, BlockBits, Swap, Base, Sized;
      FlatSize(bmap, native, chunks, bits);
      this.bmap, this.native, this.chunks, this.bits, this.mapBits := bmap, native, chunks, bits, mapBits;
    }

    /** The loop over the words of one block: the first clear bit from word `word` on. */
    method FindInBlock(block: nat, word: nat) returns (found: bool, w: nat, i: nat)
      requires Valid() && block < |bmap| && word < chunks
      ensures var from := Base(block, Base(chunks, bits)) + Base(word, bits);
        if found then
          && w < chunks && i < bits && var b := BitNo(block, w, i, chunks, bits);
          && from <= b < |Flat(bmap, native)| && !Flat(bmap, native)[b] && AllSet(Flat(bmap, native), b, from, b)
        else AllSet(Flat(bmap, native), |Flat(bmap, native)|, from, Base(block + 1, Base(chunks, bits)))
    {
      hide Flat, BlockBits, Swap;
      ghost var flat := Flat(bmap, native);
      ghost var base := Base(block, Base(chunks, bits));
      assert SizedBlock(bmap[block], chunks, bits);
      w := word;
      i := 0;
      found := false;
      while w < chunks
        invariant word <= w <= chunks
        invariant AllSet(flat, |flat|, base + Base(word, bits), base + Base(w, bits))
      {
        if exists k :: 0 <= k < bits && !bmap[block][w][k] {
          var k := Swap(native, bmap[block][w]);
          SwapHasClear(native, bmap[block][w]);
          i := 0;
          while k[i]
            invariant i < bits && exists j :: i <= j < bits && !k[j]
            invariant AllSet(flat, |flat|, base + Base(word, bits), base + Base(w, bits) + i)
            decreases bits - i
          {
            BitAt(bmap, native, chunks, bits, block, w, i);
            i := i + 1;
          }
          BitAt(bmap, native, chunks, bits, block, w, i);
          BaseMono(word, w, bits);
          return true, w, i;
        }
        forall b | base + Base(w, bits) <= b < base + Base(w, bits) + bits && b < |flat| ensures flat[b] {
          var i := b - (base + Base(w, bits));
          BitAt(bmap, native, chunks, bits, block, w, i);
          SwapAllSet(native, bmap[block][w], i);
        }
        w := w + 1;
      }
    }

    /** Locate the starting place of a search. */
    method StartAt(o: nat) returns (block: nat, word: nat)
      requires Valid() && o < mapBits
      ensures block < |bmap| && word < chunks
      ensures Aligned(o, bits) == Base(block, Base(chunks, bits)) + Base(word, bits)
      ensures Base(word, bits) < Base(chunks, bits)
    {
      hide Base, Flat, Sized;
      ghost var k0, w0, i0 := Place(o, |bmap|, chunks, bits);
      BaseIsProduct(chunks, bits);
      block := o / (chunks * bits);
      word := (o % (chunks * bits)) / bits;
      InBlock(word, 0, chunks, bits);
    }

    /** Set the bit in its chunk and mark the block dirty. */
    method Take(block: nat, w: nat, i: nat)
      requires Valid() && block < |bmap| && w < chunks && i < bits && BitNo(block, w, i, chunks, bits) < mapBits
      modifies this
      ensures Valid() && Model() == old(Model())[BitNo(block, w, i, chunks, bits) := true]
    {
      hide Base, Flat, Sized, Swap, BitNo;
      UseSized(bmap, chunks, bits, block);
      SetBitMeaning(bmap, native, chunks, bits, block, w, i, true);
      var k := Swap(native, bmap[block][w])[i := true];
      bmap := bmap[block := bmap[block][w := Swap(native, k)]];
    }

    /** alloc_bit: take a free bit, looking first from `origin` on. */
    method AllocBit(origin: nat) returns (b: nat)
      requires Valid() && Model()[0]
      modifies this
      ensures Valid()
      ensures b == Found(old(Model()), origin, bits)
      ensures Model() == if b == NO_BIT then old(Model()) else old(Model())[b := true]
      ensures b < mapBits && TookFirst(old(bmap), bmap, native, chunks, bits, mapBits, origin, b)
    {
      hide TookFirst, Base, Flat, BlockBits, Swap, Sized, NextClear, Found, Searched, BitNo, Aligned;
      ghost var flat, size, n := Flat(bmap, native), Base(chunks, bits), |bmap|;
      var bitBlocks := |bmap|;
      var o := if origin >= mapBits then 0 else origin;
      var block: nat, word: nat := StartAt(o);
      ghost var k0, start, turn := block, Aligned(o, bits), 0;
      SearchStarts(flat, mapBits, start, size, n, k0, Base(word, bits));
      var bcount := bitBlocks + 1;
      while bcount > 0
        invariant 0 <= bcount && turn + bcount == n + 1 && Valid() && bmap == old(bmap)
        invariant block < n && word < chunks
        invariant bcount > 0 ==> block == if k0 + turn < n then k0 + turn else k0 + turn - n
        invariant Searched(flat, mapBits, start, size, n, k0, turn, Base(word, bits))
      {
        var found, w, i := FindInBlock(block, word);
        if found && BitNo(block, w, i, chunks, bits) < mapBits {
          b := BitNo(block, w, i, chunks, bits);
          SearchFinds(flat, mapBits, start, size, n, k0, turn, Base(word, bits), b, o, origin, bits);
          Take(block, w, i);
          TookFirstIs(old(bmap), bmap, native, chunks, bits, mapBits, origin, b);
          return;
        }
        SearchGoesOn(flat, mapBits, start, size, n, k0, turn, Base(word, bits), bits);
        block := block + 1;
        if block >= bitBlocks { block := 0; }
        word := 0;
        turn := turn + 1;
        bcount := bcount - 1;
      }
      SearchFails(flat, mapBits, start, size, n, k0, Base(word, bits), origin, bits);
      TookFirstIs(old(bmap), bmap, native, chunks, bits, mapBits, origin, NO_BIT);
      return NO_BIT;
    }

    /** free_bit: turn a bit off; false stands for the panic when it is off already. */
    method FreeBit(bitReturned: nat) returns (ok: bool)
      requires Valid() && bitReturned < mapBits
      modifies this
      ensures Valid() && ok == old(Model())[bitReturned]
      ensures Model() == old(Model())[bitReturned := false]
      ensures ok == StoredBit(old(bmap), native, chunks, bits, bitReturned)
      ensures forall k :: 0 <= k < mapBits ==>
        (StoredBit(bmap, native, chunks, bits, k) <==> StoredBit(old(bmap), native, chunks, bits, k) && k != bitReturned)
    {
      hide Base, Flat, BlockBits, Swap, Sized, StoredBit;
      ghost var k0, w0, i0 := Place(bitReturned, |bmap|, chunks, bits);
      BaseIsProduct(chunks, bits);
      var block := bitReturned / (chunks * bits);
      var word := (bitReturned % (chunks * bits)) / bits;
      var bit := bitReturned % bits;
      UseSized(bmap, chunks, bits, block);
      BitAt(bmap, native, chunks, bits, block, word, bit);
      SetBitMeaning(bmap, native, chunks, bits, block, word, bit, false);
      var k := Swap(native, bmap[block][word]);
      ok := k[bit];
      if ok {
        bmap := bmap[block := bmap[block][word := Swap(native, k[bit := false])]];
      }
      ghost var was, is_ := old(Model()), Model();
      forall k | 0 <= k < mapBits
        ensures StoredBit(old(bmap), native, chunks, bits, k) <==> was[k]
        ensures StoredBit(bmap, native, chunks, bits, k) <==> is_[k]
      {
        FlatIs(old(bmap), native, chunks, bits, k);
        FlatIs(bmap, native, chunks, bits, k);
      }
    }
  }

  lemma UseSized(bmap: seq<seq<Chunk>>, chunks: nat, bits: nat, n: nat)
    requires Sized(bmap, chunks, bits) && n < |bmap|
    ensures SizedBlock(bmap[n], chunks, bits)
  {
  }

  // ---------- The order of the search ----------

  /** After `turn` blocks, beginning with block `k0`, all bits looked at were set; the search
      is now at offset `w` of the next block. */
  ghost predicate Searched(flat: seq<bool>, mapBits: nat, start: nat, size: nat, n: nat, k0: nat, turn: nat, w: nat) {
    && k0 < n && turn <= n + 1 && start < mapBits <= Base(n, size) == |flat|
    && Base(k0, size) <= start <= Base(k0 + 1, size)
    && (turn > 0 ==> w == 0)
    && if k0 + turn < n
       then start <= Base(k0 + turn, size) + w && AllSet(flat, mapBits, start, Base(k0 + turn, size) + w)
       else w == 0 && AllSet(flat, mapBits, start, mapBits) && AllSet(flat, mapBits, 0, Base(k0 + turn - n, size))
  }

  lemma SearchStarts(flat: seq<bool>, mapBits: nat, start: nat, size: nat, n: nat, k0: nat, w: nat)
    requires k0 < n && start < mapBits <= Base(n, size) == |flat| && start == Base(k0, size) + w && w < size
    ensures Searched(flat, mapBits, start, size, n, k0, 0, w)
  {
  }

  lemma SearchFinds(flat: seq<bool>, mapBits: nat, start: nat, size: nat, n: nat, k0: nat, turn: nat, w: nat,
                    b: nat, o: nat, origin: nat, chunk: nat)
    requires Searched(flat, mapBits, start, size, n, k0, turn, w) && chunk > 0 && flat[0]
    requires o == (if origin >= mapBits then 0 else origin) && start == Aligned(o, chunk)
    requires var from := Base(if k0 + turn < n then k0 + turn else k0 + turn - n, size) + w;
      from <= b < mapBits && !flat[b] && AllSet(flat, b, from, b)
    ensures b == Found(flat[..mapBits], origin, chunk) && b != NO_BIT
  {
    var model := flat[..mapBits];
    var e := NextClear(model, start, |model|);
    if k0 + turn >= n { var c := NextClear(model, 0, start); }
  }

  lemma SearchGoesOn(flat: seq<bool>, mapBits: nat, start: nat, size: nat, n: nat, k0: nat, turn: nat, w: nat, bits: nat)
    requires Searched(flat, mapBits, start, size, n, k0, turn, w) && turn <= n
    requires var k := if k0 + turn < n then k0 + turn else k0 + turn - n;
      AllSet(flat, mapBits, Base(k, size) + w, Base(k + 1, size))
    ensures Searched(flat, mapBits, start, size, n, k0, turn + 1, Base(0, bits))
  {
    BaseMono(k0 + 1, if k0 + turn + 1 < n then k0 + turn + 1 else n, size);
  }

  lemma SearchFails(flat: seq<bool>, mapBits: nat, start: nat, size: nat, n: nat, k0: nat, w: nat, origin: nat, chunk: nat)
    requires Searched(flat, mapBits, start, size, n, k0, n + 1, w) && chunk > 0
    ensures Found(flat[..mapBits], origin, chunk) == NO_BIT
  {
    var model := flat[..mapBits];
    forall k | 0 <= k < mapBits ensures model[k] {
      if k >= start { assert flat[k]; } else { assert flat[k]; }
    }
    FoundComplete(model, origin, chunk);
  }

  lemma SwapHasClear(native: bool, c: Chunk)
    requires exists k :: 0 <= k < |c| && !c[k]
    ensures exists k :: 0 <= k < |c| && !Swap(native, c)[k]
  {
    var k :| 0 <= k < |c| && !c[k];
    if !native && |c| % 2 == 0 {
      var h := |c| / 2;
      assert Swap(native, c)[if k < h then k + h else k - h] == c[k];
    } else {
      assert Swap(native, c)[k] == c[k];
    }
  }

  lemma SwapAllSet(native: bool, c: Chunk, i: nat)
    requires i < |c| && forall k :: 0 <= k < |c| ==> c[k]
    ensures Swap(native, c)[i]
  {
  }
}
