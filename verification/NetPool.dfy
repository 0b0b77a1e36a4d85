/** Packet data of the TCP/IP server: accessors (acc_t) that each show part of a buffer, linked
    into chains that may share their tails, with reference counts on both. */
module NetPool {
  import opened Storage

  datatype Acc = Acc(linkC: nat, offset: nat, length: nat, buffer: int, next: int)
  datatype Buf = Buf(linkC: nat, data: seq<byte>)

  /** The two arrays and the heads of the two free lists, which are linked through acc_next.
      The last four fields are bookkeeping of the proof: the handles that code outside holds,
      the contents of the free lists, and the chain that starts at each accessor. */
  datatype Pool = Pool(accs: seq<Acc>, bufs: seq<Buf>, accFree: int, bufFree: int, size: nat,
                       held: multiset<int>, fa: seq<int>, fb: seq<int>, path: seq<seq<int>>)

  predicate Live(w: Pool, x: int) {
    0 <= x < |w.accs| && w.accs[x].linkC > 0
  }

  function PathFrom(w: Pool, x: int): seq<int> {
    if 0 <= x < |w.path| then w.path[x] else []
  }

  /** The live accessors whose acc_next is `x`. */
  function Refs(w: Pool, x: int): set<int> {
    set y: int | 0 <= y < |w.accs| && w.accs[y].linkC > 0 && w.accs[y].next == x
  }

  /** The live accessors that show buffer `b`. */
  function Users(w: Pool, b: int): set<int> {
    set y: int | 0 <= y < |w.accs| && w.accs[y].linkC > 0 && w.accs[y].buffer == b
  }

  ghost predicate Sane(w: Pool) {
    |w.path| == |w.accs| && forall b :: 0 <= b < |w.bufs| ==> |w.bufs[b].data| == w.size
  }

  /** A live accessor shows a part of an existing buffer, and its chain goes on with that of
      the accessor it links to. */
  ghost predicate LinkedAt(w: Pool, x: int)
    requires Live(w, x)
  {
    && 0 <= w.accs[x].buffer < |w.bufs| && w.accs[x].offset + w.accs[x].length <= w.size
    && (w.accs[x].next == NIL || Live(w, w.accs[x].next))
    && PathFrom(w, x) == [x] + PathFrom(w, w.accs[x].next)
  }

  ghost predicate Linked(w: Pool) {
    forall x {:trigger LinkedAt(w, x)} | Live(w, x) :: LinkedAt(w, x)
  }

  /** acc_linkC counts handles and links, buf_linkC counts accessors. */
  ghost predicate Counted(w: Pool) {
    && (forall x | Live(w, x) :: w.accs[x].linkC == w.held[x] + |Refs(w, x)|)
    && (forall x | x in w.held :: Live(w, x))
    && (forall b | 0 <= b < |w.bufs| :: w.bufs[b].linkC == |Users(w, b)|)
  }

  ghost predicate IsList(accs: seq<Acc>, head: int, list: seq<int>)
    decreases list
  {
    if list == [] then head == NIL
    else head == list[0] && 0 <= head < |accs| && IsList(accs, accs[head].next, list[1..])
  }

  ghost predicate Free(w: Pool, x: int) {
    x in w.fa || x in w.fb
  }

  /** Each accessor is live or on one free list. */
  ghost predicate FreeOk(w: Pool) {
    && IsList(w.accs, w.accFree, w.fa) && IsList(w.accs, w.bufFree, w.fb)
    && NoDup(w.fa + w.fb)
    && forall x :: 0 <= x < |w.accs| ==> (Live(w, x) <==> !Free(w, x))
  }

  /** Unused buffer `b` hangs on accessor `x` of the buffer free list. */
  ghost predicate SpareAt(w: Pool, x: int, b: int) {
    x in w.fb && 0 <= x < |w.accs| && w.accs[x].buffer == b && 0 <= b < |w.bufs| && w.bufs[b].linkC == 0
  }

  /** Each unused buffer hangs on exactly one accessor of the buffer free list. */
  ghost predicate BufsOk(w: Pool) {
    && (forall x | x in w.fb :: 0 <= x < |w.accs| && SpareAt(w, x, w.accs[x].buffer))
    && (forall x, y, b | SpareAt(w, x, b) && SpareAt(w, y, b) :: x == y)
    && (forall b | 0 <= b < |w.bufs| && w.bufs[b].linkC == 0 :: exists x :: SpareAt(w, x, b))
  }

  ghost predicate Inv(w: Pool) {
    Sane(w) && Linked(w) && Counted(w) && FreeOk(w) && BufsOk(w)
  }

  // ---------- The bytes of a chain ----------

  function Seg(w: Pool, x: int): seq<byte> {
    if 0 <= x < |w.accs| && 0 <= w.accs[x].buffer < |w.bufs|
      && w.accs[x].offset + w.accs[x].length <= |w.bufs[w.accs[x].buffer].data|
    then w.bufs[w.accs[x].buffer].data[w.accs[x].offset..w.accs[x].offset + w.accs[x].length]
    else []
  }

  function BytesOf(w: Pool, p: seq<int>): seq<byte> {
    if p == [] then [] else Seg(w, p[0]) + BytesOf(w, p[1..])
  }

  function Bytes(w: Pool, x: int): seq<byte> {
    BytesOf(w, PathFrom(w, x))
  }

  ghost function LensOf(w: Pool, p: seq<int>): seq<nat> {
    if p == [] then [] else [|Seg(w, p[0])|] + LensOf(w, p[1..])
  }

  /** How many bytes each accessor of a chain shows. */
  ghost function Lens(w: Pool, x: int): seq<nat> {
    LensOf(w, PathFrom(w, x))
  }

  lemma {:induction false} BytesSplit(w: Pool, p: seq<int>, q: seq<int>)
    ensures BytesOf(w, p + q) == BytesOf(w, p) + BytesOf(w, q)
  {
    hide Seg;
    if p == [] {
      assert p + q == q;
    } else {
      BytesSplit(w, p[1..], q);
      assert (p + q)[1..] == p[1..] + q;
    }
  }

  lemma {:induction false} LensSplit(w: Pool, p: seq<int>, q: seq<int>)
    ensures LensOf(w, p + q) == LensOf(w, p) + LensOf(w, q)
  {
    hide Seg;
    if p == [] {
      assert p + q == q;
    } else {
      LensSplit(w, p[1..], q);
      assert (p + q)[1..] == p[1..] + q;
    }
  }

  lemma {:induction false} BytesSame(w: Pool, w': Pool, p: seq<int>)
    requires forall x | x in p :: Seg(w', x) == Seg(w, x)
    ensures BytesOf(w', p) == BytesOf(w, p) && LensOf(w', p) == LensOf(w, p)
  {
    if p != [] {
      assert forall x | x in p[1..] :: x in p;
      BytesSame(w, w', p[1..]);
    }
  }

  /** The bytes of a chain, one accessor at a time. */
  lemma BytesStep(w: Pool, x: int)
    requires Linked(w) && Live(w, x)
    ensures Bytes(w, x) == Seg(w, x) + Bytes(w, w.accs[x].next) && Lens(w, x) == [|Seg(w, x)|] + Lens(w, w.accs[x].next)
  {
    assert LinkedAt(w, x);
    assert ([x] + PathFrom(w, w.accs[x].next))[1..] == PathFrom(w, w.accs[x].next);
  }

  // ---------- Chains ----------

  /** All accessors of a chain are live and have chains no longer than it. */
  lemma {:induction false} InPath(w: Pool, x: int, y: int)
    requires Linked(w) && Live(w, x) && y in PathFrom(w, x)
    ensures Live(w, y) && |PathFrom(w, y)| <= |PathFrom(w, x)|
    decreases |PathFrom(w, x)|
  {
    assert LinkedAt(w, x);
    if y != x { InPath(w, w.accs[x].next, y); }
  }

  /** A chain does not come back to where it started. */
  lemma NoLoop(w: Pool, x: int)
    requires Linked(w) && Live(w, x)
    ensures x !in PathFrom(w, w.accs[x].next)
  {
    assert LinkedAt(w, x);
    if x in PathFrom(w, w.accs[x].next) { InPath(w, w.accs[x].next, x); }
  }

  /** An accessor nobody links to is in no chain but its own. */
  lemma {:induction false} UnlinkedPath(w: Pool, x: int, y: int)
    requires Linked(w) && Live(w, x) && Live(w, y) && Refs(w, y) == {}
    ensures y in PathFrom(w, x) <==> x == y
    decreases |PathFrom(w, x)|
  {
    assert LinkedAt(w, x);
    assert x in Refs(w, w.accs[x].next);
    if w.accs[x].next != NIL { UnlinkedPath(w, w.accs[x].next, y); }
  }

  lemma SingleMeansUnlinked(w: Pool, x: int)
    requires Counted(w) && x in w.held && w.accs[x].linkC == 1
    ensures Refs(w, x) == {} && w.held[x] == 1
  {
  }

  // ---------- The frame of an operation ----------

  /** Every handle in `rest` still shows the same bytes, in the same pieces. */
  ghost predicate Preserved(w: Pool, w': Pool, rest: multiset<int>) {
    forall x | x in rest :: Live(w', x) && Bytes(w', x) == Bytes(w, x) && Lens(w', x) == Lens(w, x)
  }

  /** All accessors of `w` are still there, with the same view and the same chain. */
  ghost predicate Extends(w: Pool, w': Pool) {
    && |w'.accs| == |w.accs| && |w'.bufs| == |w.bufs| && w'.size == w.size
    && forall x | Live(w, x) :: Live(w', x) && SameView(w, w', x)
  }

  ghost predicate SameView(w: Pool, w': Pool, x: int) {
    && 0 <= x < |w.accs| && 0 <= x < |w'.accs|
    && w'.accs[x].(linkC := 0) == w.accs[x].(linkC := 0)
    && PathFrom(w', x) == PathFrom(w, x) && Seg(w', x) == Seg(w, x)
  }

  lemma ExtendsThen(a: Pool, b: Pool, c: Pool)
    requires Extends(a, b) && Extends(b, c)
    ensures Extends(a, c)
  {
  }

  lemma ExtendsBytes(w: Pool, w': Pool, x: int)
    requires Linked(w) && Extends(w, w') && Live(w, x)
    ensures Live(w', x) && Bytes(w', x) == Bytes(w, x) && Lens(w', x) == Lens(w, x)
  {
    forall y | y in PathFrom(w, x) ensures Seg(w', y) == Seg(w, y) { InPath(w, x, y); }
    BytesSame(w, w', PathFrom(w, x));
  }

  // ---------- Every live accessor is in use ----------

  lemma {:induction false} Pigeon(s: seq<int>, n: nat)
    requires NoDup(s) && forall i :: 0 <= i < |s| ==> 0 <= s[i] < n
    ensures |s| <= n
  {
    SeqSet(s);
    SubsetCount((set x | x in s), Upto(n));
  }

  function Upto(n: nat): (s: set<int>)
    ensures |s| == n && forall x :: x in s <==> 0 <= x < n
  {
    if n == 0 then {} else Upto(n - 1) + {n - 1}
  }

  lemma {:induction false} SeqSet(s: seq<int>)
    requires NoDup(s)
    ensures |(set x | x in s)| == |s|
  {
    if s != [] {
      var t := s[..|s| - 1];
      SeqSet(t);
      assert s == t + [s[|s| - 1]];
      assert (set x | x in s) == (set x | x in t) + {s[|s| - 1]};
    }
  }

  lemma SubsetCount(a: set<int>, b: set<int>)
    requires a <= b
    ensures |a| <= |b|
  {
    assert b == a + (b - a);
  }

  lemma {:induction false} PathNoDup(w: Pool, x: int)
    requires Linked(w) && Live(w, x)
    ensures NoDup(PathFrom(w, x)) && |PathFrom(w, x)| <= |w.accs|
    decreases |PathFrom(w, x)|
  {
    var p := PathFrom(w, x);
    var next := w.accs[x].next;
    assert LinkedAt(w, x);
    NoLoop(w, x);
    if next != NIL { PathNoDup(w, next); }
    forall i, j | 0 <= i < j < |p| ensures p[i] != p[j] {
      assert p[j] == PathFrom(w, next)[j - 1];
      if i > 0 { assert p[i] == PathFrom(w, next)[i - 1]; }
    }
    forall i | 0 <= i < |p| ensures 0 <= p[i] < |w.accs| { InPath(w, x, p[i]); }
    Pigeon(p, |w.accs|);
  }

  /** Nothing leaks: every live accessor is in the chain of some handle. */
  lemma {:induction false} LiveReachable(w: Pool, x: int)
    requires Linked(w) && Counted(w) && Live(w, x)
    ensures exists h :: h in w.held && x in PathFrom(w, h)
    decreases |w.accs| - |PathFrom(w, x)|
  {
    PathNoDup(w, x);
    assert LinkedAt(w, x);
    if x in w.held {
      assert x in PathFrom(w, x);
    } else {
      assert |Refs(w, x)| > 0;
      var r :| r in Refs(w, x);
      assert LinkedAt(w, r);
      PathNoDup(w, r);
      LiveReachable(w, r);
      var h :| h in w.held && r in PathFrom(w, h);
      ChainOn(w, h, r);
    }
  }

  /** A chain goes on as far as its members do. */
  lemma {:induction false} ChainOn(w: Pool, x: int, y: int)
    requires Linked(w) && Live(w, x) && y in PathFrom(w, x)
    ensures Live(w, y) && (w.accs[y].next != NIL ==> w.accs[y].next in PathFrom(w, x))
    decreases |PathFrom(w, x)|
  {
    assert LinkedAt(w, x);
    if w.accs[x].next != NIL { assert LinkedAt(w, w.accs[x].next); }
    if y != x { ChainOn(w, w.accs[x].next, y); }
    else if w.accs[x].next != NIL { assert PathFrom(w, w.accs[x].next)[0] == w.accs[x].next; }
  }

  /** The accessors in use are exactly those that the chains of the handles lead to. */
  lemma LiveIffReachable(w: Pool, x: int)
    requires Inv(w)
    ensures Live(w, x) <==> exists h :: h in w.held && x in PathFrom(w, h)
  {
    if Live(w, x) { LiveReachable(w, x); }
    if exists h :: h in w.held && x in PathFrom(w, h) {
      var h :| h in w.held && x in PathFrom(w, h);
      InPath(w, h, x);
    }
  }
}
