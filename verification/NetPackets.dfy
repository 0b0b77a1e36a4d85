/** bf_pack and bf_align: the same bytes in fewer buffers, or the first of them in one piece.
    Both use up the handle they are given; what other handles show stays the same,
    whatever they share with it. */
module NetPackets {
  import opened Storage
  import opened NetPool
  import opened NetSteps
  import opened NetLinks
  import opened NetChains
  import opened NetHands
  import opened NetFill
  import opened NetBuf
  import opened NetOps
  import opened NetPack

  /** A packet in one piece that nobody shares. */
  predicate InOnePiece(w: Pool, x: int) {
    && Live(w, x) && 0 <= w.accs[x].buffer < |w.bufs|
    && w.accs[x].next == NIL && w.accs[x].linkC == 1 && w.bufs[w.accs[x].buffer].linkC == 1
  }

  lemma InOnePieceIs(w: Pool, x: int)
    requires Inv(w) && Live(w, x)
    ensures 0 <= w.accs[x].buffer < |w.bufs|
    ensures InOnePiece(w, x) <==> w.accs[x].next == NIL && w.accs[x].linkC == 1 && w.bufs[w.accs[x].buffer].linkC == 1
  {
    assert LinkedAt(w, x);
  }

  /** bf_pack: the same bytes in as few buffers as possible, shared with nobody; the handle is used up. */
  method Pack(p: BufPool, old_: int) returns (r: int)
    requires p.Valid() && (old_ != NIL ==> old_ in p.held)
    requires old_ != NIL && !InOnePiece(p.Model(), old_) ==> 0 < |Bytes(p.Model(), old_)| <= |p.fb| * p.size
    modifies p
    ensures p.Valid() && (old_ == NIL ==> r == NIL && p.Model() == old(p.Model()))
    ensures old_ != NIL ==> Hand(old(p.Model()), p.Model(), old(p.held) - multiset{old_}, r, Bytes(old(p.Model()), old_))
    ensures old_ != NIL ==> Writable(p.Model(), r) && Tight(p.Model(), r, |Bytes(old(p.Model()), old_)|)
    ensures old_ != NIL && |Bytes(old(p.Model()), old_)| <= p.size ==> Whole(p.Model(), r, |Bytes(old(p.Model()), old_)|)
    ensures old_ != NIL && InOnePiece(old(p.Model()), old_) ==> r == old_ && p.Model() == old(p.Model())
    ensures |p.fa| >= |old(p.fa)|
  {
    hide Inv, Bytes, Lens, Hand, Freed, Fresh, Extends, Writable;
    ghost var w0 := p.Model();
    if old_ == NIL { return NIL; }
    HandleLive(w0, old_);
    HandStarts(w0, old_);
    if p.accs[old_].next == NIL && p.accs[old_].linkC == 1 && p.bufs[p.accs[old_].buffer].linkC == 1 {
      OneIsWhole(w0, old_);
      return old_;
    }
    var size := p.BufSize(old_);
    ghost var tail;
    r, tail := MemReq(p, size);
    CopyChain(p, old_, r, size, tail, w0);
    ghost var w := p.Model();
    FreshValid(w0, w, r, tail, size);
    OtherHandle(w0, r, old_);
    p.AFree(old_);
    HandOver(w0, w0, w, p.Model(), w0.held - multiset{old_}, old_, r, Bytes(w0, old_));
    HandSays(w0, p.Model(), w0.held - multiset{old_}, r, Bytes(w0, old_));
    FreshWritable(w0, w, r, tail, size);
    HandSaysAll(w0, p.Model(), w0.held - multiset{old_}, r, Bytes(w0, old_));
    PackedStays(w, p.Model(), old_, r);
    OneInPath(size, p.size, |PathFrom(w, r)|);
    if size <= p.size { OnePieceWhole(p.Model(), r); }
    FreedMore(w, p.Model(), old_);
  }

  /** A chain of as few accessors as can show `n` bytes. */
  predicate Tight(w: Pool, x: int, n: nat) {
    |PathFrom(w, x)| == 1 || (|PathFrom(w, x)| - 1) * w.size < n
  }

  /** All `n` bytes are in one accessor, which has one holder, and its buffer no other accessor. */
  predicate Whole(w: Pool, x: int, n: nat) {
    && 0 <= x < |w.accs| && 0 <= w.accs[x].buffer < |w.bufs|
    && w.accs[x].next == NIL && w.accs[x].length == n && w.accs[x].linkC == 1 && w.bufs[w.accs[x].buffer].linkC == 1
  }

  lemma OneIsWhole(w: Pool, x: int)
    requires Inv(w) && Live(w, x) && w.accs[x].next == NIL && w.accs[x].linkC == 1
    requires 0 <= w.accs[x].buffer < |w.bufs| && w.bufs[w.accs[x].buffer].linkC == 1
    ensures PathFrom(w, x) == [x] && Writable(w, x) && Whole(w, x, |Bytes(w, x)|)
  {
    hide Seg;
    assert LinkedAt(w, x);
    SingleBytes(w, x);
    SegLength(w, x);
  }

  lemma SegLength(w: Pool, x: int)
    requires Inv(w) && Live(w, x)
    ensures |Seg(w, x)| == w.accs[x].length
  {
    assert LinkedAt(w, x);
  }

  lemma FreshWritable(w0: Pool, w: Pool, head: int, tail: int, n: nat)
    requires Fresh(w0, w, head, tail, n)
    ensures Inv(w) && Writable(w, head) && Live(w, head)
  {
  }

  lemma HandSaysAll(w0: Pool, w: Pool, rest: multiset<int>, x: int, bytes: seq<byte>)
    requires Hand(w0, w, rest, x, bytes)
    ensures Inv(w) && Live(w, x) && x in w.held && Bytes(w, x) == bytes
  {
  }

  /** A chain that nobody shares stays so when other things are given up. */
  lemma PackedStays(w: Pool, w': Pool, a: int, r: int)
    requires Inv(w) && Freed(w, w', a) && Writable(w, r) && Live(w, r) && Live(w', r)
    ensures PathFrom(w', r) == PathFrom(w, r) && Writable(w', r) && w'.size == w.size
  {
    InvParts(w');
    forall y | y in PathFrom(w', r)
      ensures Live(w', y) && 0 <= w'.accs[y].buffer < |w'.bufs| && w'.bufs[w'.accs[y].buffer].linkC == 1 && w'.accs[y].linkC == 1
    {
      InPath(w', r, y);
      FewerUsers(w, w', y);
    }
  }

  lemma FewerUsers(w: Pool, w': Pool, y: int)
    requires Inv(w) && Inv(w') && Shrunk(w, w') && Live(w', y) && w.accs[y].linkC == 1
    requires 0 <= w.accs[y].buffer < |w.bufs| && w.bufs[w.accs[y].buffer].linkC == 1
    ensures w'.accs[y].linkC == 1 && w'.accs[y].buffer == w.accs[y].buffer && w'.bufs[w'.accs[y].buffer].linkC == 1
  {
    assert SameView(w, w', y);
    var b := w.accs[y].buffer;
    forall z | z in Users(w', b) ensures z in Users(w, b) { assert SameView(w, w', z); }
    SubsetSize(Users(w', b), Users(w, b));
    assert y in Users(w', b);
  }

  lemma SubsetSize(a: set<int>, b: set<int>)
    requires a <= b
    ensures |a| <= |b|
  {
    assert b == a + (b - a);
  }

  lemma OneInPath(n: nat, size: nat, k: nat)
    requires 0 < n && (k - 1) * size < n <= k * size
    ensures n <= size ==> k == 1
  {
    if k > 1 { AtLeastOne(k - 1, size); }
  }

  lemma AtLeastOne(k: nat, size: nat)
    requires k > 0
    ensures k * size >= size
  {
    assert k * size == (k - 1) * size + size;
  }

  lemma NextInChain(w: Pool, r: int)
    requires Inv(w) && Live(w, r)
    ensures w.accs[r].next != NIL ==> |PathFrom(w, r)| > 1
  {
    assert LinkedAt(w, r);
    if w.accs[r].next != NIL { assert LinkedAt(w, w.accs[r].next); }
  }

  lemma OnePieceWhole(w: Pool, r: int)
    requires Inv(w) && Live(w, r) && |PathFrom(w, r)| == 1 && Writable(w, r)
    ensures Whole(w, r, |Bytes(w, r)|)
  {
    hide Seg;
    assert LinkedAt(w, r);
    assert r in PathFrom(w, r);
    assert PathFrom(w, r) == [r];
    NextInChain(w, r);
    OneIsWhole(w, r);
  }

  lemma FreedMore(w: Pool, w': Pool, a: int)
    requires Freed(w, w', a)
    ensures |w'.fa| >= |w.fa| && |w'.fb| >= |w.fb|
  {
  }

  lemma OtherHandle(w: Pool, r: int, x: int)
    requires x in w.held
    ensures x in w.held + multiset{r}
  {
  }

  // ---------- bf_align ----------

  /** The chain of an only handle `x` goes on with that of the handle `y`. */
  lemma HandJoin(w0: Pool, w: Pool, rest: multiset<int>, x: int, y: int, bx: seq<byte>, more: seq<byte>)
    requires Inv(w) && w.held == rest + multiset{y} + multiset{x} && Preserved(w0, w, rest)
    requires Live(w, x) && Bytes(w, x) == bx && Live(w, y) && Bytes(w, y) == more
    requires w.accs[x].linkC == 1 && w.accs[x].next == NIL
    ensures Hand(w0, Join(w, x, y), rest, x, bx + more)
  {
    hide Inv, Bytes, Lens, Join, Refs;
    SoleHolder(w, rest + multiset{y}, x, y);
    InvParts(w);
    SaneSizes(w);
    JoinKeeps(w, x, y);
    JoinHeld(w, x, y);
    JoinBytes(w, x, y, x);
    PathStep(w, x);
    MultisetLess(rest + multiset{x}, y);
    assert w.held == rest + multiset{x} + multiset{y};
    forall z | z in rest ensures Live(Join(w, x, y), z) && Bytes(Join(w, x, y), z) == Bytes(w0, z) && Lens(Join(w, x, y), z) == Lens(w0, z) {
      SoleHolder(w, rest + multiset{y}, x, z);
      JoinBytes(w, x, y, z);
    }
  }

  /** After the two cuts. */
  lemma TwoCuts(w0: Pool, w1: Pool, w2: Pool, acc: int, head: int, tail: int, size: nat, n: nat)
    requires Inv(w0) && Live(w0, acc) && Inv(w1) && n == |Bytes(w0, acc)| && 0 < size < n
    requires CutResult(w0, w1, head, acc, 0, size) && Live(w1, acc) && CutResult(w1, w2, tail, acc, size, n - size)
    ensures Extends(w0, w2) && w2.held == w0.held + multiset{head} + multiset{tail}
    ensures Live(w2, head) && Live(w2, tail) && Bytes(w2, head) == Bytes(w0, acc)[..size] && Bytes(w2, tail) == Bytes(w0, acc)[size..]
  {
    hide Inv, Bytes, Lens, Extends, Sane, Linked, Counted, FreeOk, BufsOk;
    InvParts(w0);
    InvParts(w1);
    ExtendsThen(w0, w1, w2);
    ExtendsBytes(w0, w1, acc);
    ExtendsBytes(w1, w2, head);
    assert Bytes(w0, acc)[0..size] == Bytes(w0, acc)[..size];
    assert Bytes(w0, acc)[size..size + (n - size)] == Bytes(w0, acc)[size..];
  }

  /** After the two cuts and the release of the original. */
  lemma AlignCut(w0: Pool, w2: Pool, w3: Pool, acc: int, head: int, tail: int)
    requires Inv(w0) && acc in w0.held && Extends(w0, w2) && w2.held == w0.held + multiset{head} + multiset{tail}
    requires Freed(w2, w3, acc)
    ensures Inv(w3) && Preserved(w0, w3, w0.held - multiset{acc}) && w3.held == w0.held - multiset{acc} + multiset{head} + multiset{tail}
    ensures Live(w3, head) && Live(w3, tail) && Bytes(w3, head) == Bytes(w2, head) && Bytes(w3, tail) == Bytes(w2, tail)
  {
    hide Inv, Bytes, Lens, Extends, Freed, Preserved;
    FreedHeld(w2, w3, acc);
    HeldAlive(w0, acc);
    NotNil(w0, acc);
    ThreeHandles(w0.held, acc, head, tail);
    AlignOthers(w0, w2, w3, acc, head, tail);
    FreedBytes(w2, w3, acc, head);
    FreedBytes(w2, w3, acc, tail);
  }

  lemma ThreeHandles(m: multiset<int>, a: int, h: int, t: int)
    requires a in m
    ensures m + multiset{h} + multiset{t} - multiset{a} == m - multiset{a} + multiset{h} + multiset{t}
    ensures h in m - multiset{a} + multiset{h} + multiset{t} && t in m - multiset{a} + multiset{h} + multiset{t}
  {
  }

  lemma AlignOthers(w0: Pool, w2: Pool, w3: Pool, acc: int, head: int, tail: int)
    requires Inv(w0) && Extends(w0, w2) && Freed(w2, w3, acc)
    requires w3.held == w0.held - multiset{acc} + multiset{head} + multiset{tail}
    ensures Preserved(w0, w3, w0.held - multiset{acc})
  {
    hide Inv, Bytes, Lens, Extends, Freed;
    InvParts(w0);
    forall z | z in w0.held - multiset{acc} ensures Live(w3, z) && Bytes(w3, z) == Bytes(w0, z) && Lens(w3, z) == Lens(w0, z) {
      assert z in w0.held && z in w3.held;
      HeldAlive(w0, z);
      ExtendsBytes(w0, w2, z);
      FreedBytes(w2, w3, acc, z);
    }
  }

  lemma CutSays(w: Pool, w': Pool, head: int, data: int, offset: nat, length: nat)
    requires Inv(w) && Live(w, data) && CutResult(w, w', head, data, offset, length)
    ensures Live(w', data) && Bytes(w', data) == Bytes(w, data) && PathFrom(w', data) == PathFrom(w, data)
    ensures w'.held == w.held + multiset{head}
  {
    hide Bytes, Lens, Inv;
    InvParts(w);
    ExtendsBytes(w, w', data);
  }

  lemma EnoughFor(n: nat, size: nat, bufs: nat)
    requires n <= size && bufs > 0
    ensures n <= bufs * size
  {
    assert bufs * size == (bufs - 1) * size + size;
  }

  lemma OneLess(rest: multiset<int>, head: int, tail: int)
    ensures rest + multiset{head} + multiset{tail} - multiset{head} == rest + multiset{tail}
  {
  }

  /** Packing the head leaves the tail and the other handles as they were. */
  lemma PackedFrom(w0: Pool, w3: Pool, w4: Pool, rest: multiset<int>, head: int, tail: int, r: int, bh: seq<byte>, bt: seq<byte>)
    requires Inv(w3) && w3.held == rest + multiset{head} + multiset{tail} && Preserved(w0, w3, rest)
    requires Live(w3, tail) && Bytes(w3, tail) == bt && Hand(w3, w4, w3.held - multiset{head}, r, bh)
    ensures Inv(w4) && Preserved(w0, w4, rest) && w4.held == rest + multiset{tail} + multiset{r}
    ensures tail in w4.held && Live(w4, tail) && Bytes(w4, tail) == bt && Live(w4, r) && Bytes(w4, r) == bh
  {
    hide Inv, Bytes, Lens;
    OneLess(rest, head, tail);
  }

  /** bf_align: have the first `size` bytes in one piece at an aligned address, unless they are
      there already.  Whether the data of `acc` is aligned now is up to where buffers are in memory. */
  method Align(p: BufPool, acc: int, size: nat, aligned: bool) returns (r: int)
    requires p.Valid() && acc in p.held && Live(p.Model(), acc)
    requires !(p.accs[acc].length >= size && aligned) ==> 0 < size <= p.size && 0 < |Bytes(p.Model(), acc)| && |p.fb| > 0
    requires |p.fa| >= 2 * |PathFrom(p.Model(), acc)|
    modifies p
    ensures p.Valid() && Hand(old(p.Model()), p.Model(), old(p.held) - multiset{acc}, r, Bytes(old(p.Model()), acc))
    ensures 0 <= r < |p.accs| && p.accs[r].length >= (if |Bytes(old(p.Model()), acc)| < size then |Bytes(old(p.Model()), acc)| else size)
    ensures if old(p.accs[acc].length) >= size && aligned then r == acc && p.Model() == old(p.Model())
            else p.accs[r].linkC == 1 && 0 <= p.accs[r].buffer < |p.bufs| && p.bufs[p.accs[r].buffer].linkC == 1
  {
    hide Inv, Bytes, Lens, Hand, Freed, CutResult, Preserved, Join, Extends, Writable;
    ghost var w0 := p.Model();
    HandStarts(w0, acc);
    if p.accs[acc].length >= size && aligned { return acc; }
    var bufSize := p.BufSize(acc);
    EnoughFor(size, p.size, |p.fb|);
    if bufSize <= size {
      EnoughFor(bufSize, p.size, |p.fb|);
      r := Pack(p, acc);
      return;
    }
    var head := p.CutOut(acc, 0, size);
    ghost var w1 := p.Model();
    CutSays(w0, w1, head, acc, 0, size);
    var tail := p.CutOut(acc, size, bufSize - size);
    ghost var w2 := p.Model();
    CutSays(w1, w2, tail, acc, size, bufSize - size);
    OtherHandle(w0, head, acc);
    OtherHandle(w1, tail, acc);
    p.AFree(acc);
    ghost var w3 := p.Model();
    TwoCuts(w0, w1, w2, acc, head, tail, size, bufSize);
    AlignCut(w0, w2, w3, acc, head, tail);
    ghost var rest := w0.held - multiset{acc};
    ghost var all := Bytes(w0, acc);
    FreedMore(w2, w3, acc);
    r := Pack(p, head);
    ghost var w4 := p.Model();
    PackedFrom(w0, w3, w4, rest, head, tail, r, all[..size], all[size..]);
    p.Link(r, tail);
    JoinHeld(w4, r, tail);
    HandJoin(w0, w4, rest, r, tail, all[..size], all[size..]);
    assert all[..size] + all[size..] == all;
    HandSays(w0, p.Model(), rest, r, all);
  }
}
