module BitAlloc {
  /** Bit maps as values: what alloc_bit finds, and why the search hints never hide a free bit. */


  /** NO_BIT: bit 0 is reserved, so 0 signals failure. */
  const NO_BIT: nat := 0

  /** The first clear bit in [lo, hi), or `hi`. */
  function NextClear(bits: seq<bool>, lo: nat, hi: nat): (b: nat)
    requires lo <= hi <= |bits|
    ensures lo <= b <= hi && (b < hi ==> !bits[b])
    ensures forall k :: lo <= k < b ==> bits[k]
    decreases hi - lo
  {
    if lo == hi || !bits[lo] then lo else NextClear(bits, lo + 1, hi)
  }

  /** The first bit of the chunk that holds `o`. */
  function Aligned(o: nat, chunk: nat): (r: nat)
    requires chunk > 0
    ensures r <= o
  {
    o - o % chunk
  }

  /** The bit alloc_bit finds when it starts in the chunk that holds `origin`: the first
      clear one from there to the end of the map, else the first clear one before. */
  function Found(bits: seq<bool>, origin: nat, chunk: nat): (b: nat)
    requires chunk > 0
    ensures b != NO_BIT ==> b < |bits| && !bits[b]
  {
    var o := if origin >= |bits| then 0 else origin;
    var start := Aligned(o, chunk);
    var b := NextClear(bits, start, |bits|);
    if b < |bits| then b
    else
      var c := NextClear(bits, 0, start);
      if c < start then c else NO_BIT
  }

  /** alloc_bit takes the first clear bit from the chunk of the origin on; if there is none, the first
      of all. */
  lemma FoundFirst(bits: seq<bool>, origin: nat, chunk: nat, from: nat)
    requires chunk > 0 && |bits| > 0 && bits[0]
    requires from % chunk == 0 && from <= (if origin < |bits| then origin else 0) < from + chunk
    ensures var b := Found(bits, origin, chunk);
      b != NO_BIT ==>
        && b < |bits| && !bits[b]
        && if b >= from then forall k :: from <= k < b ==> bits[k]
           else (forall k :: from <= k < |bits| ==> bits[k]) && forall k :: 0 <= k < b ==> bits[k]
  {
    ChunkStart(if origin < |bits| then origin else 0, from, chunk);
  }

  lemma ChunkStart(o: nat, from: nat, chunk: nat)
    requires chunk > 0 && from % chunk == 0 && from <= o < from + chunk
    ensures Aligned(o, chunk) == from
  {
    var x, y := o / chunk, from / chunk;
    assert o == x * chunk + o % chunk && from == y * chunk;
    if x < y { MoreGroups(x, y, chunk); }
    else if y < x { MoreGroups(y, x, chunk); }
  }

  lemma {:induction false} MoreGroups(a: nat, b: nat, n: nat)
    requires a < b
    ensures a * n + n <= b * n
  {
    assert (a + 1) * n == a * n + n;
    if a + 1 < b {
      MoreGroups(a, b - 1, n);
      assert b * n == (b - 1) * n + n;
    }
  }

  /** alloc_bit fails exactly when no bit is free. */
  lemma FoundComplete(bits: seq<bool>, origin: nat, chunk: nat)
    requires chunk > 0 && |bits| > 0 && bits[0]
    ensures Found(bits, origin, chunk) == NO_BIT <==> forall k :: 0 <= k < |bits| ==> bits[k]
  {
    var b := Found(bits, origin, chunk);
    var o := if origin >= |bits| then 0 else origin;
    var start := Aligned(o, chunk);
    var e := NextClear(bits, start, |bits|);
    if b == NO_BIT {
      assert e == |bits| || e == 0;
      if e < |bits| { assert false; }
      assert NextClear(bits, 0, start) >= start;
    }
  }

  /** All bits below the hint are set. */
  ghost predicate HintOk(bits: seq<bool>, hint: nat) {
    forall k :: 0 <= k < hint && k < |bits| ==> bits[k]
  }

  /** A search from a good hint finds the lowest clear bit without wrapping, and that bit
      is a good hint for the next search. */
  lemma HintedSearch(bits: seq<bool>, hint: nat, chunk: nat)
    requires chunk > 0 && |bits| > 0 && HintOk(bits, hint) && hint < |bits|
    ensures var b := Found(bits, hint, chunk);
      b != NO_BIT ==> hint <= b && HintOk(bits, b) && HintOk(bits[b := true], b)
  {
    var b := Found(bits, hint, chunk);
    var start := Aligned(hint, chunk);
    var e := NextClear(bits, start, |bits|);
    if e == |bits| { assert NextClear(bits, 0, start) == start; }
  }

  /** Setting a bit does not hurt any hint; clearing one moves the hint down to it if needed. */
  lemma HintKept(bits: seq<bool>, hint: nat, b: nat)
    requires HintOk(bits, hint) && b < |bits|
    ensures HintOk(bits[b := true], hint)
    ensures HintOk(bits[b := false], if b < hint then b else hint)
  {
  }

  // ---------- Whole runs ----------

  /** alloc_zone with the search hint (also alloc_inode), alloc_zone near another zone,
      free_zone or free_inode, and the free_bit by which alloc_inode gives its bit back
      when the inode table is full. */
  datatype Op = AllocHinted | AllocNear(origin: nat) | Free(bit: nat) | AllocAndGiveBack

  datatype BitMap = BitMap(bits: seq<bool>, hint: nat)

  ghost predicate Legal(m: BitMap, op: Op) {
    op.Free? ==> 0 < op.bit < |m.bits| && m.bits[op.bit]
  }

  function Step(m: BitMap, op: Op, chunk: nat): BitMap
    requires chunk > 0
  {
    match op
    case AllocHinted =>
      var b := Found(m.bits, m.hint, chunk);
      if b == NO_BIT then m else BitMap(m.bits[b := true], b)
    case AllocNear(origin) =>
      var b := Found(m.bits, origin, chunk);
      if b == NO_BIT then m else m.(bits := m.bits[b := true])
    case Free(bit) =>
      if bit < |m.bits| then BitMap(m.bits[bit := false], if bit < m.hint then bit else m.hint) else m
    case AllocAndGiveBack =>
      var b := Found(m.bits, m.hint, chunk);
      if b == NO_BIT then m else BitMap(m.bits[b := true][b := false], b)
  }

  ghost predicate LegalRun(m: BitMap, ops: seq<Op>, chunk: nat)
    requires chunk > 0
    decreases |ops|
  {
    ops == [] || (Legal(m, ops[0]) && LegalRun(Step(m, ops[0], chunk), ops[1..], chunk))
  }

  function Run(m: BitMap, ops: seq<Op>, chunk: nat): BitMap
    requires chunk > 0
    decreases |ops|
  {
    if ops == [] then m else Run(Step(m, ops[0], chunk), ops[1..], chunk)
  }

  ghost predicate Good(m: BitMap) {
    |m.bits| > 0 && m.bits[0] && m.hint < |m.bits| && HintOk(m.bits, m.hint)
  }

  lemma StepGood(m: BitMap, op: Op, chunk: nat)
    requires chunk > 0 && Good(m) && Legal(m, op)
    ensures Good(Step(m, op, chunk)) && |Step(m, op, chunk).bits| == |m.bits|
  {
    HintedSearch(m.bits, m.hint, chunk);
  }

  /** The lowest clear bit. */
  ghost predicate Lowest(bits: seq<bool>, b: nat) {
    b < |bits| && !bits[b] && forall k :: 0 <= k < b ==> bits[k]
  }

  ghost predicate AllTaken(bits: seq<bool>) {
    forall k :: 0 <= k < |bits| ==> bits[k]
  }

  /** What each step does to the bits and the hint. */
  lemma StepDoes(m: BitMap, op: Op, chunk: nat)
    requires chunk > 0 && Good(m) && Legal(m, op)
    ensures
      var n := Step(m, op, chunk);
      && (AllTaken(m.bits) && !op.Free? ==> n == m)
      && (op.AllocHinted? && !AllTaken(m.bits) ==> Lowest(m.bits, n.hint) && n.bits == m.bits[n.hint := true])
      && (op.AllocNear? ==> n.hint == m.hint)
      && (op.AllocNear? && !AllTaken(m.bits) ==>
           var b := Found(m.bits, op.origin, chunk); b < |m.bits| && !m.bits[b] && n.bits == m.bits[b := true])
      && (op.Free? ==> n.bits == m.bits[op.bit := false] && n.hint <= op.bit && n.hint <= m.hint && n.hint in {op.bit, m.hint})
      && (op.AllocAndGiveBack? && !AllTaken(m.bits) ==> Lowest(m.bits, n.hint) && n.bits == m.bits)
  {
    HintedSearch(m.bits, m.hint, chunk);
    FoundComplete(m.bits, m.hint, chunk);
    if op.AllocNear? { FoundComplete(m.bits, op.origin, chunk); }
  }

  /** In every state a run of allocations and releases can reach, all bits below the hint
      are set; so a hinted search that succeeds has not wrapped, and it fails only when
      the map is full. */
  lemma {:induction false} HintAlwaysGood(m: BitMap, ops: seq<Op>, chunk: nat)
    requires chunk > 0 && Good(m) && LegalRun(m, ops, chunk)
    ensures var n := Run(m, ops, chunk); var b := Found(n.bits, n.hint, chunk);
      && Good(n) && |n.bits| == |m.bits|
      && (b != NO_BIT ==> n.hint <= b)
      && (b == NO_BIT <==> forall k :: 0 <= k < |n.bits| ==> n.bits[k])
    decreases |ops|
  {
    if ops == [] {
      HintedSearch(m.bits, m.hint, chunk);
      FoundComplete(m.bits, m.hint, chunk);
    } else {
      StepGood(m, ops[0], chunk);
      HintAlwaysGood(Step(m, ops[0], chunk), ops[1..], chunk);
    }
  }
}
