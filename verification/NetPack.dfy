/** bf_memreq and bf_pack: fresh chains, and copying a packet into one.
    The copy loop walks two chains at once, a block at a time, where a block is as much as
    the two current accessors have in common. */
module NetPack {
  import opened Storage
  import opened NetPool
  import opened NetSteps
  import opened NetLinks
  import opened NetChains
  import opened NetHands
  import opened NetFill
  import opened NetBuf

  /** A new chain of `n` bytes in buffers of its own. */
  ghost predicate Fresh(w0: Pool, w: Pool, head: int, tail: int, n: nat) {
    && Grown(w0, w, head, tail) && Writable(w, head) && |Bytes(w, head)| == n && w.fa == w0.fa
    && w.accs[tail].length <= w.size
  }

  lemma FreshFirst(w0: Pool, n: nat)
    requires Inv(w0) && w0.fb != [] && n <= w0.size
    ensures CanTake(w0, n) && Fresh(w0, Take(w0, n), w0.fb[0], w0.fb[0], n) && |Take(w0, n).fb| == |w0.fb| - 1
    ensures PathFrom(Take(w0, n), w0.fb[0]) == [w0.fb[0]]
  {
    TakeBeside(w0, n);
    hide Inv, Take, Extends, Seg, Bytes, Lens;
    var x := w0.fb[0];
    var w := Take(w0, n);
    TakeResult(w0, n);
    GrowFirst(w0, w, x);
  }

  lemma FreshMore(w0: Pool, w: Pool, head: int, tail: int, n: nat, more: nat)
    requires Fresh(w0, w, head, tail, n) && w.fb != [] && more <= w.size
    ensures CanTake(w, more) && Live(Take(w, more), tail) && |w.path| == |w.accs|
    ensures Live(w, tail) && Fresh(w0, Join(Take(w, more), tail, w.fb[0]), head, w.fb[0], n + more)
    ensures |Join(Take(w, more), tail, w.fb[0]).fb| == |w.fb| - 1
    ensures PathFrom(Join(Take(w, more), tail, w.fb[0]), head) == PathFrom(w, head) + [w.fb[0]]
  {
    TakeBeside(w, more);
    hide Inv, Take, Join, Extends, Seg, Bytes, Lens;
    var x := w.fb[0];
    var w1 := Take(w, more);
    TakeResult(w, more);
    GrowStep(w0, w, w1, head, tail, x);
    TakeWritable(w, more, head);
    JoinHeld(w1, tail, x);
    GrowView(w, w1, head);
    GrowView(w, w1, tail);
    JoinWritable(w1, tail, x, head);
  }

  lemma LessToTake(left: nat, size: nat, bufs: nat)
    requires 0 < left <= bufs * size && size > 0
    ensures bufs > 0 && (left > size ==> left - size <= (bufs - 1) * size)
  {
    assert bufs * size == (bufs - 1) * size + size;
  }

  /** One round of bf_memreq. */
  method TakeBuffer(p: BufPool, count: nat) returns (x: int)
    requires p.Valid() && p.fb != [] && count <= p.size
    modifies p
    ensures CanTake(old(p.Model()), count) && p.Model() == Take(old(p.Model()), count) && x == old(p.fb)[0] && p.Valid()
  {
    hide Inv, Extends;
    ghost var w := p.Model();
    TakeKeeps(w, count);
    FirstBuf(w);
    x := p.bufFree;
    p.bufFree := p.accs[x].next;
    var buf := p.accs[x].buffer;
    p.bufs := p.bufs[buf := p.bufs[buf].(linkC := 1)];
    p.accs := p.accs[x := p.accs[x].(linkC := 1, offset := 0, length := count, next := NIL)];
    p.Follow(Take(w, count));
  }

  lemma FirstBuf(w: Pool)
    requires Inv(w) && w.fb != []
    ensures w.bufFree == w.fb[0] && 0 <= w.bufFree < |w.accs|
  {
  }

  /** bf_memreq: a chain of `n` bytes, with enough free buffers that no client is asked for some.
      The link of the last accessor is cleared at once, not at the end. */
  method MemReq(p: BufPool, n: nat) returns (head: int, ghost tail': int)
    requires p.Valid() && 0 < n <= |p.fb| * p.size
    modifies p
    ensures p.Valid() && Fresh(old(p.Model()), p.Model(), head, tail', n)
    ensures n <= p.size ==> tail' == head && PathFrom(p.Model(), head) == [head] && 0 <= head < |p.accs| && p.accs[head].linkC == 1
    ensures n <= p.size ==> CanTake(old(p.Model()), n) && p.Model() == Take(old(p.Model()), n)
    ensures (|PathFrom(p.Model(), head)| - 1) * p.size < n <= |PathFrom(p.Model(), head)| * p.size
  {
    hide Inv, Fresh, Take, Join, Buffers;
    ghost var w0 := p.Model();
    var left: nat := n;
    LessToTake(left, p.size, |p.fb|);
    var count := if p.size > left then left else p.size;
    FreshFirst(w0, count);
    TakeResult(w0, count);
    head := TakeBuffer(p, count);
    var tail := head;
    left := left - count;
    BuffersFirst(p.size, count, left == 0);
    while left > 0
      invariant p.Valid() && left <= n && Fresh(w0, p.Model(), head, tail, n - left) && left <= |p.fb| * p.size
      invariant left == 0 || n > p.size
      invariant Buffers(|PathFrom(p.Model(), head)|, p.size, n - left, left == 0)
      invariant n <= p.size ==> tail == head && PathFrom(p.Model(), head) == [head] && 0 <= head < |p.accs| && p.accs[head].linkC == 1
      invariant n <= p.size ==> p.Model() == Take(w0, n)
    {
      LessToTake(left, p.size, |p.fb|);
      count := if p.size > left then left else p.size;
      ghost var w := p.Model();
      FreshMore(w0, w, head, tail, n - left, count);
      var newAcc := TakeBuffer(p, count);
      p.Link(tail, newAcc);
      FreshValid(w0, p.Model(), head, newAcc, n - left + count);
      BuffersMore(|PathFrom(w, head)|, p.size, n - left, count);
      tail := newAcc;
      left := left - count;
    }
    tail' := tail;
    BuffersSay(|PathFrom(p.Model(), head)|, p.size, n);
  }

  /** k buffers of this size are full with n bytes, or, at the end, the last one is begun. */
  ghost predicate Buffers(k: nat, size: nat, n: nat, end: bool) {
    if end then (k - 1) * size < n <= k * size else n == k * size
  }

  lemma BuffersFirst(size: nat, count: nat, end: bool)
    requires 0 < count <= size && (count == size || end)
    ensures Buffers(1, size, count, end)
  {}

  lemma BuffersMore(k: nat, size: nat, n: nat, count: nat)
    requires Buffers(k, size, n, false) && 0 < count <= size
    ensures Buffers(k + 1, size, n + count, true) && (count == size ==> Buffers(k + 1, size, n + count, false))
  {
    assert (k + 1) * size == k * size + size;
  }

  lemma BuffersSay(k: nat, size: nat, n: nat)
    requires Buffers(k, size, n, true)
    ensures (k - 1) * size < n <= k * size
  {}

  lemma FreshValid(w0: Pool, w: Pool, head: int, tail: int, n: nat)
    requires Fresh(w0, w, head, tail, n)
    ensures Inv(w) && Live(w, head) && Live(w, tail) && w.held == w0.held + multiset{head} && head in w.held
    ensures |Bytes(w, head)| == n && Extends(w0, w) && !Live(w0, head) && w.fa == w0.fa
  {
  }

  // ---------- Copying ----------

  /** The first `done` bytes of the fresh chain are those of `all`. */
  ghost predicate Copying(w0: Pool, w: Pool, head: int, tail: int, all: seq<byte>, done: nat) {
    && Fresh(w0, w, head, tail, |all|) && done <= |all| && Bytes(w, head)[..done] == all[..done]
  }

  lemma CopyStep(w0: Pool, w: Pool, head: int, tail: int, all: seq<byte>, done: nat, x: int, at: nat, block: seq<byte>)
    requires Copying(w0, w, head, tail, all, done) && x in PathFrom(w, head)
    requires Live(w, x) && at + |block| <= w.accs[x].length && |Bytes(w, x)| == |all| - done + at
    requires done + |block| <= |all| && block == all[done..done + |block|]
    ensures CanWrite(w, x, at, |block|)
    ensures var w' := WriteAt(w, x, at, block);
      Inv(w') && Copying(w0, w', head, tail, all, done + |block|) && |Bytes(w', x)| == |Bytes(w, x)|
  {
    hide Inv, WriteAt, Seg, Bytes, Lens, Splice, Fresh, CanWrite, PathFrom, Extends, Writable;
    FreshValid(w0, w, head, tail, |all|);
    WriteAble(w, head, x, at, |block|);
    var w' := WriteAt(w, x, at, block);
    WriteKeeps(w, x, at, block);
    WriteBytes(w, x, at, block, head);
    WriteBytes(w, x, at, block, x);
    assert x in PathFrom(w, x) by { PathStep(w, x); }
    WriteFresh(w0, w, head, tail, |all|, x, at, block);
    SplicePrefix(Bytes(w, head), done, block, all);
  }

  lemma WriteFresh(w0: Pool, w: Pool, head: int, tail: int, n: nat, x: int, at: nat, block: seq<byte>)
    requires Fresh(w0, w, head, tail, n) && x in PathFrom(w, head) && CanWrite(w, x, at, |block|)
    ensures Fresh(w0, WriteAt(w, x, at, block), head, tail, n)
  {
    hide Inv, WriteAt, Seg, Bytes, Lens, Splice, Extends, CanWrite;
    FreshValid(w0, w, head, tail, n);
    WriteKeeps(w, x, at, block);
    WriteFrame(w, x, at, block);
    WriteBytes(w, x, at, block, head);
    WriteExtends(w0, w, head, x, at, block);
  }

  lemma WriteAble(w: Pool, head: int, x: int, at: nat, n: nat)
    requires Inv(w) && (exists w0, tail, m: nat :: Fresh(w0, w, head, tail, m)) && x in PathFrom(w, head) && Live(w, x) && at + n <= w.accs[x].length
    ensures CanWrite(w, x, at, n)
  {
    assert LinkedAt(w, x);
    assert |w.bufs[w.accs[x].buffer].data| == w.size;
  }

  lemma WriteExtends(w0: Pool, w: Pool, head: int, x: int, at: nat, block: seq<byte>)
    requires Inv(w) && Extends(w0, w) && CanWrite(w, x, at, |block|) && !Live(w0, x)
    ensures Extends(w0, WriteAt(w, x, at, block))
  {
    hide Inv, Seg, WriteAt;
    WriteFrame(w, x, at, block);
    forall y | Live(w0, y) ensures Live(WriteAt(w, x, at, block), y) && SameView(w0, WriteAt(w, x, at, block), y) {
      WriteSeg(w, x, at, block, y);
    }
  }

  lemma SplicePrefix(s: seq<byte>, done: nat, block: seq<byte>, all: seq<byte>)
    requires |s| == |all| && done + |block| <= |all| && s[..done] == all[..done] && block == all[done..done + |block|]
    ensures Splice(s, done, block)[..done + |block|] == all[..done + |block|]
  {
    assert Splice(s, done, block)[..done + |block|] == s[..done] + block;
    assert all[..done + |block|] == all[..done] + all[done..done + |block|];
  }

  /** memcpy(ptr2acc_data(x) + at, block). */
  method CopyIn(p: BufPool, x: int, at: nat, block: seq<byte>)
    requires CanWrite(p.Model(), x, at, |block|)
    modifies p`bufs
    ensures p.Model() == WriteAt(old(p.Model()), x, at, block)
  {
    var b := p.accs[x].buffer;
    p.bufs := p.bufs[b := p.bufs[b].(data := Splice(p.bufs[b].data, p.accs[x].offset + at, block))];
  }

  /** memcpy's source: `n` bytes that accessor `x` shows, from `at` on. */
  function CopyOut(w: Pool, x: int, at: nat, n: nat): seq<byte>
    requires Live(w, x) && 0 <= w.accs[x].buffer < |w.bufs|
    requires w.accs[x].offset + at + n <= |w.bufs[w.accs[x].buffer].data|
  {
    w.bufs[w.accs[x].buffer].data[w.accs[x].offset + at..w.accs[x].offset + at + n]
  }

  lemma CopyOutIs(w0: Pool, w: Pool, x: int, at: nat, n: nat)
    requires Inv(w0) && Inv(w) && Extends(w0, w) && Live(w0, x) && at + n <= w0.accs[x].length
    ensures Live(w, x) && 0 <= w.accs[x].buffer < |w.bufs|
    ensures w.accs[x].offset + at + n <= |w.bufs[w.accs[x].buffer].data| && |Seg(w0, x)| == w0.accs[x].length
    ensures CopyOut(w, x, at, n) == Seg(w0, x)[at..at + n] && w.accs[x].length == w0.accs[x].length
    ensures w.accs[x].next == w0.accs[x].next
  {
    hide FreeOk, BufsOk, Counted, CopyOut, Seg;
    assert SameView(w0, w, x);
    assert LinkedAt(w0, x) && LinkedAt(w, x);
    assert |w.bufs[w.accs[x].buffer].data| == w.size && |w0.bufs[w0.accs[x].buffer].data| == w0.size;
    ShownPart(w0, w, x, at, n);
  }

  lemma ShownPart(w0: Pool, w: Pool, x: int, at: nat, n: nat)
    requires Live(w0, x) && Live(w, x) && SameView(w0, w, x)
    requires 0 <= w.accs[x].buffer < |w.bufs| && 0 <= w0.accs[x].buffer < |w0.bufs| && at + n <= w0.accs[x].length
    requires w.accs[x].offset + w.accs[x].length <= |w.bufs[w.accs[x].buffer].data|
    requires w0.accs[x].offset + w0.accs[x].length <= |w0.bufs[w0.accs[x].buffer].data|
    ensures |Seg(w0, x)| == w0.accs[x].length && w.accs[x].length == w0.accs[x].length && w.accs[x].next == w0.accs[x].next
    ensures CopyOut(w, x, at, n) == Seg(w0, x)[at..at + n]
  {}

  /** The rest of a chain shows the rest of its bytes. */
  lemma {:induction false} SuffixBytes(w: Pool, x: int, y: int)
    requires Inv(w) && Live(w, x) && y in PathFrom(w, x)
    ensures Live(w, y) && |Bytes(w, y)| <= |Bytes(w, x)| && Bytes(w, y) == Bytes(w, x)[|Bytes(w, x)| - |Bytes(w, y)|..]
    decreases |PathFrom(w, x)|
  {
    hide Inv, Bytes, Lens, Seg;
    PathStep(w, x);
    StepFacts(w, x);
    if y != x { SuffixBytes(w, w.accs[x].next, y); }
  }

  lemma NextInPath(w: Pool, x: int, y: int)
    requires Inv(w) && Live(w, x) && y in PathFrom(w, x)
    ensures Live(w, y) && (w.accs[y].next != NIL ==> w.accs[y].next in PathFrom(w, x) && Live(w, w.accs[y].next))
    ensures |PathFrom(w, w.accs[y].next)| < |PathFrom(w, y)| && |Bytes(w, y)| == w.accs[y].length + |Bytes(w, w.accs[y].next)|
  {
    hide Bytes, Lens, Seg;
    ChainOn(w, x, y);
    StepFacts(w, y);
    PathStep(w, y);
  }

  // ---------- bf_pack ----------

  /** Where the copying is: the old chain at `from`, `fromOff` bytes into accessor `x`, the new
      one at `to`. */
  ghost predicate At(w0: Pool, w: Pool, old_: int, head: int, from: int, to: int, fromOff: nat, toOff: nat, left: nat) {
    && Live(w0, old_) && (left > 0 ==>
         && from in PathFrom(w0, old_) && Live(w0, from) && fromOff <= w0.accs[from].length && |Bytes(w0, from)| == left + fromOff
         && to in PathFrom(w, head) && Live(w, to) && toOff <= w.accs[to].length && |Bytes(w, to)| == left + toOff)
  }

  lemma AtNextOld(w0: Pool, w: Pool, old_: int, head: int, from: int, to: int, toOff: nat, left: nat)
    requires Inv(w0) && left > 0 && Live(w0, from) && At(w0, w, old_, head, from, to, w0.accs[from].length, toOff, left)
    ensures At(w0, w, old_, head, w0.accs[from].next, to, 0, toOff, left)
    ensures |PathFrom(w0, w0.accs[from].next)| < |PathFrom(w0, from)|
  {
    hide Inv, Bytes, Lens;
    NextInPath(w0, old_, from);
    NoBytes(w0);
  }

  lemma AtNextNew(w0: Pool, w: Pool, old_: int, head: int, from: int, to: int, fromOff: nat, left: nat)
    requires Inv(w) && Live(w, head) && left > 0 && Live(w, to) && At(w0, w, old_, head, from, to, fromOff, w.accs[to].length, left)
    ensures At(w0, w, old_, head, from, w.accs[to].next, fromOff, 0, left)
    ensures |PathFrom(w, w.accs[to].next)| < |PathFrom(w, to)|
  {
    hide Inv, Bytes, Lens;
    NextInPath(w, head, to);
    NoBytes(w);
  }

  /** The next block to copy. */
  lemma BlockIs(w0: Pool, w: Pool, old_: int, from: int, fromOff: nat, left: nat, n: nat)
    requires Inv(w0) && Inv(w) && Extends(w0, w) && Live(w0, old_) && from in PathFrom(w0, old_) && Live(w0, from)
    requires |Bytes(w0, from)| == left + fromOff && fromOff + n <= w0.accs[from].length && n <= left <= |Bytes(w0, old_)|
    ensures Live(w, from) && 0 <= w.accs[from].buffer < |w.bufs| && w.accs[from].offset + fromOff + n <= |w.bufs[w.accs[from].buffer].data|
    ensures var done := |Bytes(w0, old_)| - left; CopyOut(w, from, fromOff, n) == Bytes(w0, old_)[done..done + n]
  {
    hide Bytes, Lens, Seg, CopyOut, Inv, Extends, PathFrom;
    CopyOutIs(w0, w, from, fromOff, n);
    SuffixBytes(w0, old_, from);
    StepFacts(w0, from);
    SliceOfSuffix(Bytes(w0, old_), Bytes(w0, from), Seg(w0, from), Bytes(w0, w0.accs[from].next), fromOff, n);
  }

  lemma SliceOfSuffix(all: seq<byte>, rest: seq<byte>, seg: seq<byte>, more: seq<byte>, off: nat, n: nat)
    requires |rest| <= |all| && rest == all[|all| - |rest|..] && rest == seg + more && off + n <= |seg|
    ensures var done := |all| - |rest| + off; all[done..done + n] == seg[off..off + n]
  {
  }

  /** Copy the next block: as much as the two accessors have in common. */
  method CopyBlock(p: BufPool, from: int, to: int, offsetOld: nat, offsetNew: nat, size: nat,
                   ghost old_: int, ghost head: int, ghost tail: int, ghost w0: Pool) returns (blockSize: nat)
    requires p.Valid() && Inv(w0) && Live(w0, old_) && 0 < size <= |Bytes(w0, old_)|
    requires Copying(w0, p.Model(), head, tail, Bytes(w0, old_), |Bytes(w0, old_)| - size)
    requires At(w0, p.Model(), old_, head, from, to, offsetOld, offsetNew, size)
    requires Live(p.Model(), from) && Live(p.Model(), to) && offsetOld < p.accs[from].length && offsetNew < p.accs[to].length
    modifies p`bufs
    ensures p.Valid() && 0 < blockSize <= size
    ensures Copying(w0, p.Model(), head, tail, Bytes(w0, old_), |Bytes(w0, old_)| - (size - blockSize))
    ensures At(w0, p.Model(), old_, head, from, to, offsetOld + blockSize, offsetNew + blockSize, size - blockSize)
    ensures p.Model().path == old(p.Model()).path
  {
    hide Inv, Bytes, Lens, Seg, Extends, Fresh, WriteAt, CanWrite, CopyOut;
    ghost var all := Bytes(w0, old_);
    ghost var w := p.Model();
    FreshValid(w0, w, head, tail, |all|);
    CopyOutIs(w0, w, from, 0, 0);
    var blockSizeOld := p.accs[from].length - offsetOld;
    blockSize := p.accs[to].length - offsetNew;
    if blockSize > blockSizeOld { blockSize := blockSizeOld; }
    NextInPath(w0, old_, from);
    BlockIs(w0, w, old_, from, offsetOld, size, blockSize);
    var src := p.accs[from].offset + offsetOld;
    var block := p.bufs[p.accs[from].buffer].data[src..src + blockSize];
    OutIs(w, from, offsetOld, blockSize, block);
    CopyStep(w0, w, head, tail, all, |all| - size, to, offsetNew, block);
    CopyIn(p, to, offsetNew, block);
    WriteLives(w, to, offsetNew, block);
  }

  lemma OutIs(w: Pool, x: int, at: nat, n: nat, block: seq<byte>)
    requires Live(w, x) && 0 <= w.accs[x].buffer < |w.bufs| && w.accs[x].offset + at + n <= |w.bufs[w.accs[x].buffer].data|
    requires block == w.bufs[w.accs[x].buffer].data[w.accs[x].offset + at..w.accs[x].offset + at + n]
    ensures block == CopyOut(w, x, at, n) && |block| == n
  {
  }

  lemma WriteLives(w: Pool, x: int, at: nat, block: seq<byte>)
    requires CanWrite(w, x, at, |block|)
    ensures WriteAt(w, x, at, block).accs == w.accs && WriteAt(w, x, at, block).path == w.path
  {
  }

  lemma CopyingStarts(w0: Pool, w: Pool, old_: int, head: int, tail: int)
    requires Inv(w0) && Live(w0, old_) && Fresh(w0, w, head, tail, |Bytes(w0, old_)|)
    ensures Copying(w0, w, head, tail, Bytes(w0, old_), 0) && At(w0, w, old_, head, old_, head, 0, 0, |Bytes(w0, old_)|)
  {
    hide Inv, Bytes, Lens, Extends, Fresh;
    FreshValid(w0, w, head, tail, |Bytes(w0, old_)|);
    PathStep(w0, old_);
    PathStep(w, head);
  }

  lemma AtSays(w0: Pool, w: Pool, old_: int, head: int, from: int, to: int, fromOff: nat, toOff: nat, left: nat, tail: int, all: seq<byte>, done: nat)
    requires At(w0, w, old_, head, from, to, fromOff, toOff, left) && left > 0 && Inv(w0) && Copying(w0, w, head, tail, all, done)
    ensures Live(w0, from) && Live(w, from) && Live(w, to) && Live(w, head) && fromOff <= w.accs[from].length && toOff <= w.accs[to].length
    ensures w.accs[from].next == w0.accs[from].next && w.accs[from].length == w0.accs[from].length
  {
    hide Bytes, Lens;
    FreshValid(w0, w, head, tail, |all|);
    CopyOutIs(w0, w, from, 0, 0);
  }

  lemma CopyingEnds(w0: Pool, w: Pool, head: int, tail: int, all: seq<byte>)
    requires Copying(w0, w, head, tail, all, |all|)
    ensures Inv(w) && Fresh(w0, w, head, tail, |all|) && Bytes(w, head) == all
  {
    hide Bytes, Lens, Inv;
    assert Bytes(w, head)[..|all|] == Bytes(w, head);
    assert all[..|all|] == all;
  }

  /** Copy the bytes of a chain into a fresh one. */
  method CopyChain(p: BufPool, old_: int, head: int, n: nat, ghost tail: int, ghost w0: Pool)
    requires p.Valid() && Inv(w0) && Live(w0, old_) && n == |Bytes(w0, old_)| && Fresh(w0, p.Model(), head, tail, n)
    modifies p`bufs
    ensures p.Valid() && Fresh(w0, p.Model(), head, tail, n) && Bytes(p.Model(), head) == Bytes(w0, old_)
    ensures PathFrom(p.Model(), head) == PathFrom(old(p.Model()), head)
  {
    hide Inv, Bytes, Lens, Extends, Fresh, At, Copying;
    ghost var all := Bytes(w0, old_);
    CopyingStarts(w0, p.Model(), old_, head, tail);
    var size: nat := n;
    var from, to := old_, head;
    var offsetOld: nat := 0;
    var offsetNew: nat := 0;
    while size > 0
      invariant p.Valid() && size <= n && Copying(w0, p.Model(), head, tail, all, n - size)
      invariant At(w0, p.Model(), old_, head, from, to, offsetOld, offsetNew, size) && p.Model().path == old(p.Model()).path
      decreases size, |PathFrom(w0, from)|, |PathFrom(p.Model(), to)|
    {
      ghost var w := p.Model();
      AtSays(w0, w, old_, head, from, to, offsetOld, offsetNew, size, tail, all, n - size);
      if offsetOld == p.accs[from].length {
        AtNextOld(w0, w, old_, head, from, to, offsetNew, size);
        offsetOld := 0;
        from := p.accs[from].next;
        continue;
      }
      if offsetNew == p.accs[to].length {
        AtNextNew(w0, w, old_, head, from, to, offsetOld, size);
        offsetNew := 0;
        to := p.accs[to].next;
        continue;
      }
      var blockSize := CopyBlock(p, from, to, offsetOld, offsetNew, size, old_, head, tail, w0);
      offsetNew := offsetNew + blockSize;
      offsetOld := offsetOld + blockSize;
      size := size - blockSize;
    }
    CopyingEnds(w0, p.Model(), head, tail, all);
  }
}
