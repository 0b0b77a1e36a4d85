/** Steps that take a fresh buffer, cut and join chains, and change what an accessor shows,
    and what they do to the bytes of all chains. */
module NetLinks {
  import opened Storage
  import opened NetPool
  import opened NetSteps

  // ---------- A fresh buffer ----------

  ghost predicate CanTake(w: Pool, n: nat) {
    && w.fb != [] && 0 <= w.fb[0] < |w.accs| && !Live(w, w.fb[0]) && |w.path| == |w.accs| && n <= w.size
    && 0 <= w.accs[w.fb[0]].buffer < |w.bufs| && w.bufs[w.accs[w.fb[0]].buffer].linkC == 0
  }

  /** One round of bf_memreq: the first accessor of the buffer free list, showing `n` bytes. */
  function Take(w: Pool, n: nat): Pool
    requires CanTake(w, n)
  {
    var x := w.fb[0];
    var b := w.accs[x].buffer;
    w.(accs := w.accs[x := Acc(1, 0, n, b, NIL)], bufs := w.bufs[b := w.bufs[b].(linkC := 1)],
       bufFree := w.accs[x].next, fb := w.fb[1..], held := w.held + multiset{x}, path := w.path[x := [x]])
  }

  lemma TakeAble(w: Pool, n: nat)
    requires Sane(w) && FreeOk(w) && BufsOk(w) && w.fb != [] && n <= w.size
    ensures CanTake(w, n)
  {
    FreeBufDead(w, w.fb[0]);
  }

  lemma TakeFrame(w: Pool, n: nat, y: int)
    requires CanTake(w, n)
    ensures Live(Take(w, n), y) <==> Live(w, y) || y == w.fb[0]
    ensures Live(w, y) ==> SameView(w, Take(w, n), y) && Take(w, n).accs[y] == w.accs[y]
    ensures y != w.fb[0] && 0 <= y < |w.accs| ==> Take(w, n).accs[y] == w.accs[y]
    ensures Refs(Take(w, n), y) == Refs(w, y) + (if y == NIL then {w.fb[0]} else {})
    ensures Users(Take(w, n), y) == Users(w, y) + (if y == w.accs[w.fb[0]].buffer then {w.fb[0]} else {})
  {
  }

  lemma TakeResult(w: Pool, n: nat)
    requires CanTake(w, n)
    ensures var w', x := Take(w, n), w.fb[0];
      && w'.accs[x] == Acc(1, 0, n, w.accs[x].buffer, NIL) && PathFrom(w', x) == [x]
      && w'.bufs[w.accs[x].buffer].linkC == 1 && w'.bufs[w.accs[x].buffer].data == w.bufs[w.accs[x].buffer].data
      && w'.fa == w.fa && w'.fb == w.fb[1..] && w'.held == w.held + multiset{x}
      && |w'.accs| == |w.accs| && |w'.path| == |w.path| && |w'.bufs| == |w.bufs| && w'.size == w.size
      && (forall b :: 0 <= b < |w.bufs| && b != w.accs[x].buffer ==> w'.bufs[b] == w.bufs[b])
  {
  }

  lemma TakeLinked(w: Pool, n: nat)
    requires CanTake(w, n) && Sane(w) && Linked(w)
    ensures Sane(Take(w, n)) && Linked(Take(w, n)) && Extends(w, Take(w, n))
  {
    var w' := Take(w, n);
    assert Sane(w');
    hide Take;
    TakeResult(w, n);
    forall y | Live(w, y) ensures Live(w', y) && SameView(w, w', y) { TakeFrame(w, n, y); }
    forall y | Live(w', y) ensures LinkedAt(w', y) {
      TakeFrame(w, n, y);
      if Live(w, y) {
        assert LinkedAt(w, y);
        TakeFrame(w, n, w.accs[y].next);
      }
    }
  }

  lemma TakeCounted(w: Pool, n: nat)
    requires CanTake(w, n) && Linked(w) && Counted(w)
    ensures Counted(Take(w, n))
  {
    hide Take, Linked, Refs, Users;
    var w' := Take(w, n);
    TakeResult(w, n);
    DupFresh(w, w.fb[0]);
    forall y | Live(w', y) ensures w'.accs[y].linkC == w'.held[y] + |Refs(w', y)| {
      TakeFrame(w, n, y);
    }
    forall y | y in w'.held ensures Live(w', y) { TakeFrame(w, n, y); }
    forall b | 0 <= b < |w'.bufs| ensures w'.bufs[b].linkC == |Users(w', b)| {
      TakeFrame(w, n, b);
      DeadNowhere(w, w.fb[0], b);
    }
  }

  lemma TakeFree(w: Pool, n: nat)
    requires CanTake(w, n) && FreeOk(w)
    ensures FreeOk(Take(w, n))
  {
    var w' := Take(w, n);
    var x := w.fb[0];
    FreeBufDead(w, x);
    SplitNoDup(w.fa, w.fb);
    assert forall y | y in w'.fb :: y in w.fb;
    ListFrame(w.accs, w'.accs, w.accFree, w.fa);
    ListFrame(w.accs, w'.accs, w'.bufFree, w'.fb);
    forall y | 0 <= y < |w'.accs| ensures Live(w', y) <==> !Free(w', y) {
      assert Free(w, y) <==> Free(w', y) || y == x;
      assert Live(w, y) <==> !Free(w, y);
    }
  }

  lemma SplitNoDup(p: seq<int>, q: seq<int>)
    requires NoDup(p + q) && q != []
    ensures NoDup(p + q[1..]) && q[0] !in p && q[0] !in q[1..]
  {
    var s := p + q;
    var t := p + q[1..];
    forall i, j | 0 <= i < j < |t| ensures t[i] != t[j] {
      var i', j' := if i < |p| then i else i + 1, if j < |p| then j else j + 1;
      assert t[i] == s[i'] && t[j] == s[j'];
    }
    assert s[|p|] == q[0];
    forall i | 0 <= i < |p| ensures p[i] != q[0] { assert s[i] == p[i]; }
    forall i | 0 <= i < |q[1..]| ensures q[1..][i] != q[0] { assert s[|p| + 1 + i] == q[1..][i]; }
  }

  lemma TakeBufs(w: Pool, n: nat)
    requires CanTake(w, n) && FreeOk(w) && BufsOk(w)
    ensures BufsOk(Take(w, n))
  {
    var w' := Take(w, n);
    var x0 := w.fb[0];
    var b0 := w.accs[x0].buffer;
    SplitNoDup(w.fa, w.fb);
    assert SpareAt(w, x0, b0);
    hide FreeOk, IsList;
    forall x, b ensures SpareAt(w', x, b) <==> SpareAt(w, x, b) && x != x0 {
      assert SpareAt(w, x0, b) <==> b == b0;
      assert x in w.fb <==> x in w'.fb || x == x0;
    }
    forall x | x in w'.fb ensures 0 <= x < |w'.accs| && SpareAt(w', x, w'.accs[x].buffer) {
      assert x in w.fb;
      assert SpareAt(w, x, w.accs[x].buffer);
    }
    forall b | 0 <= b < |w'.bufs| && w'.bufs[b].linkC == 0 ensures exists x :: SpareAt(w', x, b) {
      var x :| SpareAt(w, x, b);
      assert SpareAt(w', x, b);
    }
  }

  lemma TakeKeeps(w: Pool, n: nat)
    requires Inv(w) && w.fb != [] && n <= w.size
    ensures CanTake(w, n) && Inv(Take(w, n)) && Extends(w, Take(w, n))
  {
    TakeAble(w, n);
    hide Sane, Linked, Counted, FreeOk, BufsOk, Take, Extends;
    TakeLinked(w, n);
    TakeCounted(w, n);
    TakeFree(w, n);
    TakeBufs(w, n);
  }

  // ---------- Changing a link ----------

  /** Only links, handles and chains differ, and only those of live accessors. */
  ghost predicate Relinked(w: Pool, w': Pool) {
    && |w'.accs| == |w.accs| && w' == w.(accs := w'.accs, held := w'.held, path := w'.path)
    && forall x :: 0 <= x < |w.accs| ==>
         w'.accs[x].(next := 0) == w.accs[x].(next := 0) && (!Live(w, x) ==> w'.accs[x] == w.accs[x])
  }

  lemma RelinkedFree(w: Pool, w': Pool)
    requires FreeOk(w) && BufsOk(w) && Relinked(w, w')
    ensures FreeOk(w') && BufsOk(w')
  {
    ListRange(w.accs, w.accFree, w.fa);
    ListRange(w.accs, w.bufFree, w.fb);
    forall x | x in w.fa || x in w.fb ensures w'.accs[x] == w.accs[x] { assert Free(w, x); }
    ListFrame(w.accs, w'.accs, w.accFree, w.fa);
    ListFrame(w.accs, w'.accs, w.bufFree, w.fb);
    forall x | 0 <= x < |w'.accs| ensures Live(w', x) <==> !Free(w', x) {
      assert Live(w, x) <==> !Free(w, x);
    }
    forall x, b ensures SpareAt(w', x, b) <==> SpareAt(w, x, b) {}
  }

  lemma RelinkedUsers(w: Pool, w': Pool, b: int)
    requires Relinked(w, w')
    ensures Users(w', b) == Users(w, b)
  {
  }

  /** Cutting the chain after an accessor that only the caller holds: the rest of the chain
      becomes a handle of the caller. */
  function Cut(w: Pool, x: int): Pool
    requires Live(w, x) && |w.path| == |w.accs|
  {
    var n := w.accs[x].next;
    w.(accs := w.accs[x := w.accs[x].(next := NIL)], path := w.path[x := [x]],
       held := w.held + (if n == NIL then multiset{} else multiset{n}))
  }

  lemma CutFrame(w: Pool, x: int, y: int)
    requires Live(w, x) && |w.path| == |w.accs|
    ensures Live(Cut(w, x), y) <==> Live(w, y)
    ensures Live(w, y) ==> Cut(w, x).accs[y].linkC == w.accs[y].linkC && Seg(Cut(w, x), y) == Seg(w, y)
    ensures Live(w, y) && y != x ==> Cut(w, x).accs[y] == w.accs[y] && PathFrom(Cut(w, x), y) == PathFrom(w, y)
    ensures y != NIL ==> Refs(Cut(w, x), y) == Refs(w, y) - {x}
  {
  }

  lemma CutLinked(w: Pool, x: int)
    requires Sane(w) && Linked(w) && Live(w, x) && Refs(w, x) == {}
    ensures Sane(Cut(w, x)) && Linked(Cut(w, x))
  {
    var w' := Cut(w, x);
    forall y | Live(w', y) ensures LinkedAt(w', y) {
      CutFrame(w, x, y);
      assert LinkedAt(w, y);
      assert y in Refs(w, x) <==> w.accs[y].next == x;
      CutFrame(w, x, w.accs[y].next);
    }
  }

  lemma CutCounted(w: Pool, x: int)
    requires Sane(w) && Linked(w) && Counted(w) && Live(w, x)
    ensures Counted(Cut(w, x))
  {
    var w' := Cut(w, x);
    assert LinkedAt(w, x);
    CutHeld(w, x);
    hide Refs, Users, Cut, Linked;
    forall y | Live(w', y) ensures w'.accs[y].linkC == w'.held[y] + |Refs(w', y)| {
      CutFrame(w, x, y);
      RefsIs(w, x, y);
    }
    forall y | y in w'.held ensures Live(w', y) { CutFrame(w, x, y); }
    forall b | 0 <= b < |w'.bufs| ensures w'.bufs[b].linkC == |Users(w', b)| { RelinkedUsers(w, w', b); }
  }

  lemma RefsIs(w: Pool, x: int, y: int)
    requires Live(w, x)
    ensures x in Refs(w, y) <==> w.accs[x].next == y
  {
  }

  lemma CutHeld(w: Pool, x: int)
    requires Live(w, x) && |w.path| == |w.accs|
    ensures var w' := Cut(w, x);
      w'.held == w.held + (if w.accs[x].next == NIL then multiset{} else multiset{w.accs[x].next})
      && w'.bufs == w.bufs && Relinked(w, w') && w'.accs[x].next == NIL && PathFrom(w', x) == [x]
  {
  }

  lemma CutKeeps(w: Pool, x: int)
    requires Inv(w) && x in w.held && Live(w, x) && w.accs[x].linkC == 1
    ensures |w.path| == |w.accs| && Inv(Cut(w, x))
  {
    SingleMeansUnlinked(w, x);
    assert |w.path| == |w.accs|;
    hide Sane, Linked, Counted, FreeOk, BufsOk, Cut, Relinked;
    SaneSizes(w);
    CutLinked(w, x);
    CutCounted(w, x);
    CutHeld(w, x);
    RelinkedFree(w, Cut(w, x));
  }

  lemma SaneSizes(w: Pool)
    requires Sane(w)
    ensures |w.path| == |w.accs|
  {
  }

  /** All chains but the one that was cut still show the same bytes. */
  lemma CutBytes(w: Pool, x: int, y: int)
    requires Linked(w) && |w.path| == |w.accs| && Live(w, x) && Refs(w, x) == {} && Live(w, y) && y != x
    ensures Live(Cut(w, x), y) && Bytes(Cut(w, x), y) == Bytes(w, y) && Lens(Cut(w, x), y) == Lens(w, y)
  {
    hide Cut, Seg;
    CutFrame(w, x, y);
    forall z | z in PathFrom(w, y) ensures Seg(Cut(w, x), z) == Seg(w, z) { InPath(w, y, z); CutFrame(w, x, z); }
    BytesSame(w, Cut(w, x), PathFrom(w, y));
  }

  /** Joining the chain of a handle `y` to a chain that ends in `x`; the handle is used up. */
  function Join(w: Pool, x: int, y: int): Pool
    requires Live(w, x)
  {
    w.(accs := w.accs[x := w.accs[x].(next := y)], held := w.held - multiset{y},
       path := Joined(w.path, x, PathFrom(w, y)))
  }

  function Joined(path: seq<seq<int>>, x: int, tail: seq<int>): (r: seq<seq<int>>)
    ensures |r| == |path|
    ensures forall a :: 0 <= a < |path| ==> r[a] == if x in path[a] then path[a] + tail else path[a]
  {
    if path == [] then []
    else
      var rest := path[..|path| - 1];
      var last := path[|path| - 1];
      Joined(rest, x, tail) + [if x in last then last + tail else last]
  }

  lemma JoinFrame(w: Pool, x: int, y: int, z: int)
    requires Live(w, x) && |w.path| == |w.accs| && w.accs[x].next == NIL && y != NIL
    ensures Live(Join(w, x, y), z) <==> Live(w, z)
    ensures Live(w, z) ==> Join(w, x, y).accs[z].linkC == w.accs[z].linkC && Seg(Join(w, x, y), z) == Seg(w, z)
    ensures Live(w, z) && z != x ==> Join(w, x, y).accs[z] == w.accs[z]
    ensures PathFrom(Join(w, x, y), z) == if x in PathFrom(w, z) then PathFrom(w, z) + PathFrom(w, y) else PathFrom(w, z)
    ensures z != NIL ==> Refs(Join(w, x, y), z) == Refs(w, z) + (if z == y then {x} else {})
  {
  }

  lemma JoinHeld(w: Pool, x: int, y: int)
    requires Live(w, x)
    ensures var w' := Join(w, x, y);
      w'.held == w.held - multiset{y} && w'.bufs == w.bufs && w'.accs[x] == w.accs[x].(next := y) && Relinked(w, w') && w'.fa == w.fa && w'.fb == w.fb
      && w'.size == w.size && |w'.path| == |w.path| && |w'.accs| == |w.accs|
  {
  }

  lemma JoinLinked(w: Pool, x: int, y: int)
    requires Sane(w) && Linked(w) && Live(w, x) && w.accs[x].next == NIL && Live(w, y) && x !in PathFrom(w, y)
    ensures Sane(Join(w, x, y)) && Linked(Join(w, x, y))
  {
    var w' := Join(w, x, y);
    assert Sane(w');
    JoinHeld(w, x, y);
    hide Join, Sane;
    assert LinkedAt(w, x);
    forall z | Live(w', z) ensures LinkedAt(w', z) { JoinAt(w, x, y, z); }
  }

  lemma JoinAt(w: Pool, x: int, y: int, z: int)
    requires Linked(w) && Live(w, x) && |w.path| == |w.accs| && w.accs[x].next == NIL && Live(w, y) && x !in PathFrom(w, y)
    requires Live(w, z)
    ensures Live(Join(w, x, y), z) && LinkedAt(Join(w, x, y), z)
  {
    var w' := Join(w, x, y);
    assert LinkedAt(w, x) && LinkedAt(w, z);
    JoinHeld(w, x, y);
    JoinFrame(w, x, y, z);
    JoinFrame(w, x, y, y);
    JoinFrame(w, x, y, w.accs[z].next);
    hide Join, PathFrom, Refs, Linked, Relinked;
    NilPath(w);
    NilPath(w');
    JoinSeq(x, z, PathFrom(w, w.accs[z].next), PathFrom(w, y));
  }

  lemma JoinSeq(x: int, z: int, p: seq<int>, q: seq<int>)
    ensures z != x ==> (x in [z] + p <==> x in p)
    ensures [z] + p + q == [z] + (p + q) && z in [z] + p
    ensures p == [] ==> [z] + p == [z]
  {
  }

  lemma NilPath(w: Pool)
    ensures PathFrom(w, NIL) == []
  {
  }

  lemma JoinCounted(w: Pool, x: int, y: int)
    requires Counted(w) && Live(w, x) && |w.path| == |w.accs| && w.accs[x].next == NIL && y in w.held && Live(w, y)
    ensures Counted(Join(w, x, y))
  {
    var w' := Join(w, x, y);
    JoinHeld(w, x, y);
    hide Refs, Users, Join;
    forall z | Live(w', z) ensures w'.accs[z].linkC == w'.held[z] + |Refs(w', z)| {
      JoinFrame(w, x, y, z);
      RefsIs(w, x, z);
    }
    forall z | z in w'.held ensures Live(w', z) { JoinFrame(w, x, y, z); }
    forall b | 0 <= b < |w'.bufs| ensures w'.bufs[b].linkC == |Users(w', b)| { RelinkedUsers(w, w', b); }
  }

  lemma JoinKeeps(w: Pool, x: int, y: int)
    requires Inv(w) && Live(w, x) && w.accs[x].next == NIL && y in w.held && Live(w, y) && x !in PathFrom(w, y)
    ensures |w.path| == |w.accs| && Inv(Join(w, x, y))
  {
    hide Sane, Linked, Counted, FreeOk, BufsOk, Join, Relinked;
    SaneSizes(w);
    JoinLinked(w, x, y);
    JoinCounted(w, x, y);
    JoinHeld(w, x, y);
    RelinkedFree(w, Join(w, x, y));
  }

  /** The chains that led to the end `x` now go on with the joined one; the others are as before. */
  lemma JoinBytes(w: Pool, x: int, y: int, z: int)
    requires Linked(w) && Live(w, x) && |w.path| == |w.accs| && w.accs[x].next == NIL && Live(w, y) && Live(w, z)
    ensures Live(Join(w, x, y), z)
    ensures Bytes(Join(w, x, y), z) == if x in PathFrom(w, z) then Bytes(w, z) + Bytes(w, y) else Bytes(w, z)
    ensures Lens(Join(w, x, y), z) == if x in PathFrom(w, z) then Lens(w, z) + Lens(w, y) else Lens(w, z)
  {
    hide Join, Seg;
    var w' := Join(w, x, y);
    JoinFrame(w, x, y, z);
    forall a | a in PathFrom(w, z) ensures Seg(w', a) == Seg(w, a) { InPath(w, z, a); JoinFrame(w, x, y, a); }
    forall a | a in PathFrom(w, y) ensures Seg(w', a) == Seg(w, a) { InPath(w, y, a); JoinFrame(w, x, y, a); }
    BytesSame(w, w', PathFrom(w, z));
    BytesSame(w, w', PathFrom(w, y));
    BytesSplit(w', PathFrom(w, z), PathFrom(w, y));
    LensSplit(w', PathFrom(w, z), PathFrom(w, y));
  }

  // ---------- Changing what an accessor shows ----------

  /** New offset, length and buffer contents for an accessor whose buffer nobody else shows. */
  function Rewrite(w: Pool, x: int, offset: nat, length: nat, data: seq<byte>): Pool
    requires Live(w, x) && 0 <= w.accs[x].buffer < |w.bufs|
  {
    w.(accs := w.accs[x := w.accs[x].(offset := offset, length := length)],
       bufs := w.bufs[w.accs[x].buffer := w.bufs[w.accs[x].buffer].(data := data)])
  }

  lemma RewriteSets(w: Pool, x: int, offset: nat, length: nat, data: seq<byte>, z: int)
    requires Live(w, x) && 0 <= w.accs[x].buffer < |w.bufs|
    ensures var w' := Rewrite(w, x, offset, length, data);
      && (Live(w', z) <==> Live(w, z)) && Refs(w', z) == Refs(w, z) && Users(w', z) == Users(w, z)
      && PathFrom(w', z) == PathFrom(w, z)
  {
  }

  lemma RewriteKeeps(w: Pool, x: int, offset: nat, length: nat, data: seq<byte>)
    requires Inv(w) && Live(w, x) && offset + length <= w.size && |data| == w.size
    ensures 0 <= w.accs[x].buffer < |w.bufs| && Inv(Rewrite(w, x, offset, length, data))
  {
    BufferUsed(w, x);
    var w' := Rewrite(w, x, offset, length, data);
    hide FreeOk, BufsOk, Refs, Users;
    assert Sane(w');
    forall z | Live(w', z) ensures LinkedAt(w', z) { assert LinkedAt(w, z); }
    forall z ensures Refs(w', z) == Refs(w, z) && Users(w', z) == Users(w, z) { RewriteSets(w, x, offset, length, data, z); }
    RewriteFree(w, x, offset, length, data);
  }

  lemma RewriteFree(w: Pool, x: int, offset: nat, length: nat, data: seq<byte>)
    requires FreeOk(w) && BufsOk(w) && Live(w, x) && 0 <= w.accs[x].buffer < |w.bufs|
    ensures FreeOk(Rewrite(w, x, offset, length, data)) && BufsOk(Rewrite(w, x, offset, length, data))
  {
    var w' := Rewrite(w, x, offset, length, data);
    ListRange(w.accs, w.accFree, w.fa);
    ListRange(w.accs, w.bufFree, w.fb);
    ListFrame(w.accs, w'.accs, w.accFree, w.fa);
    ListFrame(w.accs, w'.accs, w.bufFree, w.fb);
    forall y | 0 <= y < |w'.accs| ensures Live(w', y) <==> !Free(w', y) { assert Live(w, y) <==> !Free(w, y); }
    assert !Free(w, x);
    forall y, b ensures SpareAt(w', y, b) <==> SpareAt(w, y, b) {}
  }

  /** Nobody else sees the change. */
  lemma RewriteSeg(w: Pool, x: int, offset: nat, length: nat, data: seq<byte>, z: int)
    requires Linked(w) && Counted(w) && Live(w, x) && Live(w, z) && z != x && 0 <= w.accs[x].buffer < |w.bufs|
    requires w.bufs[w.accs[x].buffer].linkC == 1
    ensures Seg(Rewrite(w, x, offset, length, data), z) == Seg(w, z)
  {
    OnlyUser(w, x, z);
  }

  lemma OnlyUser(w: Pool, x: int, z: int)
    requires Counted(w) && Live(w, x) && Live(w, z) && z != x && 0 <= w.accs[x].buffer < |w.bufs|
    requires w.bufs[w.accs[x].buffer].linkC == 1
    ensures w.accs[z].buffer != w.accs[x].buffer
  {
    var b := w.accs[x].buffer;
    assert |Users(w, b)| == 1 && x in Users(w, b);
    OneElement(Users(w, b), x, z);
    assert z in Users(w, b) <==> w.accs[z].buffer == b;
  }

  lemma OneElement(s: set<int>, x: int, z: int)
    requires |s| == 1 && x in s && z != x
    ensures z !in s
  {
    assert |s - {x}| == 0;
    assert z in s ==> z in s - {x};
  }
}
