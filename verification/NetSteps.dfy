/** The steps from which the packet buffer operations are made, and what they keep: hold, give
    up, reclaim and duplicate. */
module NetSteps {
  import opened Storage
  import opened NetPool

  // ---------- Frames ----------

  lemma {:induction false} ListFrame(a: seq<Acc>, b: seq<Acc>, head: int, list: seq<int>)
    requires IsList(a, head, list) && |b| == |a|
    requires forall x | x in list :: 0 <= x < |a| ==> b[x].next == a[x].next
    ensures IsList(b, head, list)
    decreases list
  {
    if list != [] {
      assert forall x | x in list[1..] :: x in list;
      ListFrame(a, b, a[head].next, list[1..]);
    }
  }

  lemma {:induction false} ListRange(a: seq<Acc>, head: int, list: seq<int>)
    requires IsList(a, head, list)
    ensures forall x | x in list :: 0 <= x < |a|
    decreases list
  {
    if list != [] {
      ListRange(a, a[head].next, list[1..]);
      assert forall x | x in list :: x == list[0] || x in list[1..];
    }
  }

  /** Only link counts differ, and the same accessors are live. */
  ghost predicate Recount(w: Pool, w': Pool) {
    && |w'.accs| == |w.accs| && w' == w.(accs := w'.accs, held := w'.held)
    && forall x :: 0 <= x < |w.accs| ==>
         w'.accs[x].(linkC := 0) == w.accs[x].(linkC := 0) && (Live(w', x) <==> Live(w, x))
  }

  lemma RecountLinked(w: Pool, w': Pool)
    requires Sane(w) && Linked(w) && Recount(w, w')
    ensures Sane(w') && Linked(w') && Extends(w, w')
  {
    forall x | Live(w', x) ensures LinkedAt(w', x) { assert LinkedAt(w, x); }
  }

  lemma RecountFree(w: Pool, w': Pool)
    requires FreeOk(w) && BufsOk(w) && Recount(w, w')
    ensures FreeOk(w') && BufsOk(w')
  {
    ListFrame(w.accs, w'.accs, w.accFree, w.fa);
    ListFrame(w.accs, w'.accs, w.bufFree, w.fb);
    forall x, b ensures SpareAt(w', x, b) <==> SpareAt(w, x, b) {}
  }

  lemma RecountSets(w: Pool, w': Pool, x: int)
    requires Recount(w, w')
    ensures Refs(w', x) == Refs(w, x) && Users(w', x) == Users(w, x)
  {
  }

  lemma InvParts(w: Pool)
    requires Inv(w)
    ensures Sane(w) && Linked(w) && Counted(w) && FreeOk(w) && BufsOk(w)
  {
  }

  // ---------- Counting up and down ----------

  /** Adding a holder of accessor `a`. */
  function Hold(w: Pool, a: int): Pool
    requires Live(w, a)
  {
    w.(accs := w.accs[a := w.accs[a].(linkC := w.accs[a].linkC + 1)], held := w.held + multiset{a})
  }

  lemma HoldKeeps(w: Pool, a: int)
    requires Inv(w) && Live(w, a)
    ensures Inv(Hold(w, a)) && Extends(w, Hold(w, a))
  {
    hide Sane, Linked, FreeOk, BufsOk, Extends, Refs, Users;
    var w' := Hold(w, a);
    RecountLinked(w, w');
    RecountFree(w, w');
    forall x ensures Refs(w', x) == Refs(w, x) && Users(w', x) == Users(w, x) { RecountSets(w, w', x); }
  }

  /** Giving up one handle of an accessor that has another handle or link. */
  function Unhold(w: Pool, a: int): Pool
    requires Live(w, a)
  {
    w.(accs := w.accs[a := w.accs[a].(linkC := w.accs[a].linkC - 1)], held := w.held - multiset{a})
  }

  lemma UnholdKeeps(w: Pool, a: int)
    requires Inv(w) && a in w.held && Live(w, a) && w.accs[a].linkC > 1
    ensures Inv(Unhold(w, a)) && Extends(w, Unhold(w, a))
  {
    hide Sane, Linked, FreeOk, BufsOk, Extends, Refs, Users;
    var w' := Unhold(w, a);
    RecountLinked(w, w');
    RecountFree(w, w');
    forall x ensures Refs(w', x) == Refs(w, x) && Users(w', x) == Users(w, x) { RecountSets(w, w', x); }
  }

  lemma HeldLive(w: Pool, a: int)
    requires Counted(w) && a in w.held
    ensures Live(w, a)
  {
  }

  // ---------- Reclaiming ----------

  /** Giving up the last handle of an accessor: it goes to the free list of accessors, or with
      its buffer to that of buffers; its link becomes a handle of the caller. */
  function Reclaim(w: Pool, a: int): Pool
    requires Live(w, a) && 0 <= w.accs[a].buffer < |w.bufs| && w.bufs[w.accs[a].buffer].linkC > 0
  {
    var acc := w.accs[a];
    var left := w.bufs[acc.buffer].linkC - 1;
    var held := w.held - multiset{a} + (if acc.next == NIL then multiset{} else multiset{acc.next});
    var bufs := w.bufs[acc.buffer := w.bufs[acc.buffer].(linkC := left)];
    if left > 0 then
      w.(accs := w.accs[a := Acc(0, acc.offset, acc.length, NIL, w.accFree)], bufs := bufs, held := held,
         accFree := a, fa := [a] + w.fa)
    else
      w.(accs := w.accs[a := acc.(linkC := 0, next := w.bufFree)], bufs := bufs, held := held,
         bufFree := a, fb := [a] + w.fb)
  }

  lemma BufferUsed(w: Pool, a: int)
    requires Linked(w) && Counted(w) && Live(w, a)
    ensures 0 <= w.accs[a].buffer < |w.bufs| && w.bufs[w.accs[a].buffer].linkC > 0
  {
    assert LinkedAt(w, a);
    assert a in Users(w, w.accs[a].buffer);
  }

  /** What Reclaim leaves alone. */
  lemma ReclaimFrame(w: Pool, a: int, x: int)
    requires Live(w, a) && 0 <= w.accs[a].buffer < |w.bufs| && w.bufs[w.accs[a].buffer].linkC > 0
    ensures Live(Reclaim(w, a), x) <==> Live(w, x) && x != a
    ensures Live(w, x) && x != a ==> Reclaim(w, a).accs[x] == w.accs[x] && Seg(Reclaim(w, a), x) == Seg(w, x)
    ensures PathFrom(Reclaim(w, a), x) == PathFrom(w, x)
    ensures Refs(Reclaim(w, a), x) == Refs(w, x) - {a} && Users(Reclaim(w, a), x) == Users(w, x) - {a}
  {
  }

  lemma ReclaimLinked(w: Pool, a: int)
    requires Sane(w) && Linked(w) && Counted(w) && a in w.held && Live(w, a) && w.accs[a].linkC == 1
    requires 0 <= w.accs[a].buffer < |w.bufs| && w.bufs[w.accs[a].buffer].linkC > 0
    ensures Sane(Reclaim(w, a)) && Linked(Reclaim(w, a))
  {
    hide Counted;
    SingleMeansUnlinked(w, a);
    var w' := Reclaim(w, a);
    forall x | Live(w', x) ensures LinkedAt(w', x) {
      ReclaimFrame(w, a, x);
      assert LinkedAt(w, x);
      assert x in Refs(w, a) <==> w.accs[x].next == a;
      ReclaimFrame(w, a, w.accs[x].next);
    }
  }

  lemma ReclaimCounted(w: Pool, a: int)
    requires Linked(w) && Counted(w) && a in w.held && Live(w, a) && w.accs[a].linkC == 1
    requires 0 <= w.accs[a].buffer < |w.bufs| && w.bufs[w.accs[a].buffer].linkC > 0
    ensures Counted(Reclaim(w, a))
  {
    SingleMeansUnlinked(w, a);
    assert LinkedAt(w, a);
    hide Reclaim, Linked;
    var w' := Reclaim(w, a);
    ReclaimHeld(w, a);
    assert a in Refs(w, a) <==> w.accs[a].next == a;
    forall x | Live(w', x) ensures w'.accs[x].linkC == w'.held[x] + |Refs(w', x)| {
      ReclaimFrame(w, a, x);
      assert a in Refs(w, x) <==> x == w.accs[a].next;
    }
    forall x | x in w'.held ensures Live(w', x) { ReclaimFrame(w, a, x); }
    forall b | 0 <= b < |w'.bufs| ensures w'.bufs[b].linkC == |Users(w', b)| { ReclaimUsers(w, a, b); }
  }

  lemma ReclaimUsers(w: Pool, a: int, b: int)
    requires Counted(w) && Live(w, a) && 0 <= b < |w.bufs|
    requires 0 <= w.accs[a].buffer < |w.bufs| && w.bufs[w.accs[a].buffer].linkC > 0
    ensures Reclaim(w, a).bufs[b].linkC == |Users(Reclaim(w, a), b)|
  {
    hide Reclaim;
    ReclaimHeld(w, a);
    ReclaimFrame(w, a, b);
    assert a in Users(w, b) <==> b == w.accs[a].buffer;
  }

  lemma ReclaimHeld(w: Pool, a: int)
    requires Live(w, a) && 0 <= w.accs[a].buffer < |w.bufs| && w.bufs[w.accs[a].buffer].linkC > 0
    ensures Reclaim(w, a).held == w.held - multiset{a} + (if w.accs[a].next == NIL then multiset{} else multiset{w.accs[a].next})
    ensures Reclaim(w, a).bufs == w.bufs[w.accs[a].buffer := w.bufs[w.accs[a].buffer].(linkC := w.bufs[w.accs[a].buffer].linkC - 1)]
  {
  }

  lemma ReclaimFree(w: Pool, a: int)
    requires FreeOk(w) && Live(w, a) && 0 <= w.accs[a].buffer < |w.bufs| && w.bufs[w.accs[a].buffer].linkC > 0
    ensures FreeOk(Reclaim(w, a))
  {
    var w' := Reclaim(w, a);
    assert !Free(w, a);
    ListFrame(w.accs, w'.accs, w.accFree, w.fa);
    ListFrame(w.accs, w'.accs, w.bufFree, w.fb);
    if w.bufs[w.accs[a].buffer].linkC - 1 > 0 {
      assert w'.fa[1..] == w.fa;
      assert w'.fa + w'.fb == [a] + (w.fa + w.fb);
    } else {
      assert w'.fb[1..] == w.fb;
      InsertNoDup(w.fa, w.fb, a);
    }
    forall x | 0 <= x < |w'.accs| ensures Live(w', x) <==> !Free(w', x) {
      assert Free(w', x) <==> Free(w, x) || x == a;
      assert Live(w, x) <==> !Free(w, x);
    }
  }

  lemma InsertNoDup(p: seq<int>, q: seq<int>, a: int)
    requires NoDup(p + q) && a !in p && a !in q
    ensures NoDup(p + ([a] + q))
  {
    var s := p + ([a] + q);
    forall i, j | 0 <= i < j < |s| ensures s[i] != s[j] {
      assert i < |p| ==> s[i] == (p + q)[i];
      assert i > |p| ==> s[i] == (p + q)[i - 1];
      assert j > |p| ==> s[j] == (p + q)[j - 1];
      assert j < |p| ==> s[j] == (p + q)[j];
    }
  }

  lemma ReclaimBufs(w: Pool, a: int)
    requires FreeOk(w) && BufsOk(w) && Live(w, a) && 0 <= w.accs[a].buffer < |w.bufs| && w.bufs[w.accs[a].buffer].linkC > 0
    ensures BufsOk(Reclaim(w, a))
  {
    hide IsList;
    var w' := Reclaim(w, a);
    assert !Free(w, a);
    var last := w.bufs[w.accs[a].buffer].linkC == 1;
    forall x, b ensures SpareAt(w', x, b) <==> SpareAt(w, x, b) || (last && x == a && b == w.accs[a].buffer) {}
    forall x | x in w'.fb ensures 0 <= x < |w'.accs| && SpareAt(w', x, w'.accs[x].buffer) {}
    forall b | 0 <= b < |w'.bufs| && w'.bufs[b].linkC == 0 ensures exists x :: SpareAt(w', x, b) {
      if w.bufs[b].linkC == 0 {
        var x :| SpareAt(w, x, b);
        assert SpareAt(w', x, b);
      } else {
        assert SpareAt(w', a, b);
      }
    }
  }

  lemma ReclaimKeeps(w: Pool, a: int)
    requires Inv(w) && a in w.held && Live(w, a) && w.accs[a].linkC == 1
    ensures 0 <= w.accs[a].buffer < |w.bufs| && w.bufs[w.accs[a].buffer].linkC > 0 && Inv(Reclaim(w, a))
  {
    hide Sane, Linked, Counted, FreeOk, BufsOk, Reclaim;
    BufferUsed(w, a);
    ReclaimLinked(w, a);
    ReclaimCounted(w, a);
    ReclaimFree(w, a);
    ReclaimBufs(w, a);
  }

  /** Giving up handles changes nothing about the accessors that stay. */
  ghost predicate Shrunk(w: Pool, w': Pool) {
    && |w'.accs| == |w.accs| && |w'.bufs| == |w.bufs| && w'.size == w.size && w'.path == w.path
    && forall x | Live(w', x) :: Live(w, x) && SameView(w, w', x) && w'.accs[x].linkC <= w.accs[x].linkC
  }

  lemma ReclaimShrunk(w: Pool, a: int)
    requires Live(w, a) && 0 <= w.accs[a].buffer < |w.bufs| && w.bufs[w.accs[a].buffer].linkC > 0
    ensures Shrunk(w, Reclaim(w, a))
  {
    forall x | Live(Reclaim(w, a), x)
      ensures Live(w, x) && SameView(w, Reclaim(w, a), x) && Reclaim(w, a).accs[x].linkC <= w.accs[x].linkC
    {
      ReclaimFrame(w, a, x);
    }
  }

  lemma ShrunkThen(a: Pool, b: Pool, c: Pool)
    requires Shrunk(a, b) && Shrunk(b, c)
    ensures Shrunk(a, c)
  {
  }

  lemma ShrunkPreserved(w: Pool, w': Pool, x: int)
    requires Linked(w') && Shrunk(w, w') && Live(w', x)
    ensures Live(w, x) && Bytes(w', x) == Bytes(w, x) && Lens(w', x) == Lens(w, x)
  {
    forall y | y in PathFrom(w', x) ensures Seg(w', y) == Seg(w, y) { InPath(w', x, y); }
    BytesSame(w, w', PathFrom(w', x));
  }

  // ---------- Taking an accessor from the free list ----------

  /** bf_dupacc: a new accessor with the view of `a`, sharing the rest of its chain. */
  function Dup(w: Pool, a: int): Pool
    requires Live(w, a) && w.fa != [] && 0 <= w.fa[0] < |w.accs|
    requires 0 <= w.accs[a].buffer < |w.bufs| && (w.accs[a].next == NIL || Live(w, w.accs[a].next)) && |w.path| == |w.accs|
  {
    var x, acc := w.fa[0], w.accs[a];
    var accs := w.accs[x := acc.(linkC := 1)];
    w.(accs := if acc.next == NIL then accs else accs[acc.next := accs[acc.next].(linkC := accs[acc.next].linkC + 1)],
       bufs := w.bufs[acc.buffer := w.bufs[acc.buffer].(linkC := w.bufs[acc.buffer].linkC + 1)],
       accFree := w.accs[x].next, fa := w.fa[1..], held := w.held + multiset{x},
       path := w.path[x := [x] + PathFrom(w, acc.next)])
  }

  ghost predicate CanDup(w: Pool, a: int) {
    && Live(w, a) && w.fa != [] && 0 <= w.fa[0] < |w.accs| && !Live(w, w.fa[0]) && |w.path| == |w.accs|
    && 0 <= w.accs[a].buffer < |w.bufs| && (w.accs[a].next == NIL || Live(w, w.accs[a].next))
  }

  lemma DupAble(w: Pool, a: int)
    requires Inv(w) && Live(w, a) && w.fa != []
    ensures CanDup(w, a)
  {
    assert LinkedAt(w, a);
    ListRange(w.accs, w.accFree, w.fa);
    assert Free(w, w.fa[0]);
  }

  lemma DupFrame(w: Pool, a: int, y: int)
    requires CanDup(w, a)
    ensures Live(Dup(w, a), y) <==> Live(w, y) || y == w.fa[0]
    ensures Live(w, y) ==> SameView(w, Dup(w, a), y)
    ensures Live(w, y) ==> Dup(w, a).accs[y].linkC == w.accs[y].linkC + (if y == w.accs[a].next then 1 else 0)
    ensures Dup(w, a).accs[w.fa[0]] == w.accs[a].(linkC := 1) && PathFrom(Dup(w, a), w.fa[0]) == [w.fa[0]] + PathFrom(w, w.accs[a].next)
    ensures Refs(Dup(w, a), y) == Refs(w, y) + (if y == w.accs[a].next then {w.fa[0]} else {})
    ensures Users(Dup(w, a), y) == Users(w, y) + (if y == w.accs[a].buffer then {w.fa[0]} else {})
  {
  }

  lemma DupLinked(w: Pool, a: int)
    requires CanDup(w, a) && Sane(w) && Linked(w)
    ensures Sane(Dup(w, a)) && Linked(Dup(w, a)) && Extends(w, Dup(w, a))
  {
    var w' := Dup(w, a);
    assert Sane(w');
    hide Dup;
    DupSizes(w, a);
    forall y | Live(w, y) ensures Live(w', y) && SameView(w, w', y) { DupFrame(w, a, y); }
    forall y | Live(w', y) ensures LinkedAt(w', y) {
      DupFrame(w, a, y);
      assert LinkedAt(w, a);
      if Live(w, y) {
        assert LinkedAt(w, y);
        DupFrame(w, a, w.accs[y].next);
      } else {
        DupFrame(w, a, w.accs[a].next);
      }
    }
  }

  lemma DupSizes(w: Pool, a: int)
    requires CanDup(w, a)
    ensures var w' := Dup(w, a);
      |w'.accs| == |w.accs| && |w'.path| == |w.path| && |w'.bufs| == |w.bufs| && w'.size == w.size
      && w'.held == w.held + multiset{w.fa[0]}
      && w'.bufs == w.bufs[w.accs[a].buffer := w.bufs[w.accs[a].buffer].(linkC := w.bufs[w.accs[a].buffer].linkC + 1)]
  {
  }

  lemma DeadNowhere(w: Pool, x: int, y: int)
    requires !Live(w, x)
    ensures x !in Refs(w, y) && x !in Users(w, y)
  {
  }

  lemma DupCounted(w: Pool, a: int)
    requires CanDup(w, a) && Linked(w) && Counted(w)
    ensures Counted(Dup(w, a))
  {
    hide Dup, Linked, Refs, Users;
    var w' := Dup(w, a);
    var x := w.fa[0];
    DupSizes(w, a);
    DupFresh(w, x);
    forall y | Live(w', y) ensures w'.accs[y].linkC == w'.held[y] + |Refs(w', y)| {
      DupFrame(w, a, y);
      DeadNowhere(w, x, y);
      NotOwnNext(w, a, x);
    }
    forall y | y in w'.held ensures Live(w', y) { DupFrame(w, a, y); }
    forall b | 0 <= b < |w'.bufs| ensures w'.bufs[b].linkC == |Users(w', b)| {
      DupFrame(w, a, b);
      DeadNowhere(w, x, b);
    }
  }

  lemma NotOwnNext(w: Pool, a: int, x: int)
    requires CanDup(w, a) && x == w.fa[0]
    ensures x != w.accs[a].next && x != a
  {
  }

  /** Nothing links to an accessor that is not live. */
  lemma DupFresh(w: Pool, x: int)
    requires Linked(w) && Counted(w) && !Live(w, x) && x != NIL
    ensures Refs(w, x) == {} && w.held[x] == 0
  {
    forall y | 0 <= y < |w.accs| && w.accs[y].linkC > 0 ensures w.accs[y].next != x { assert LinkedAt(w, y); }
  }

  /** Taking the first accessor off a free list. */
  lemma Popped(w: Pool, w': Pool)
    requires FreeOk(w) && w.fa != [] && |w'.accs| == |w.accs| && w'.bufFree == w.bufFree && w'.fb == w.fb
    requires w'.fa == w.fa[1..] && 0 <= w.fa[0] < |w.accs| && w'.accFree == w.accs[w.fa[0]].next
    requires forall y | 0 <= y < |w.accs| && y != w.fa[0] ::
      (Live(w', y) <==> Live(w, y)) && (!Live(w, y) ==> w'.accs[y] == w.accs[y])
    requires Live(w', w.fa[0])
    ensures FreeOk(w')
  {
    var x := w.fa[0];
    assert w.fa + w.fb == [x] + (w'.fa + w'.fb);
    assert forall i :: 0 <= i < |w'.fa + w'.fb| ==> (w'.fa + w'.fb)[i] == (w.fa + w.fb)[i + 1];
    ListRange(w.accs, w.accFree, w.fa);
    ListRange(w.accs, w.bufFree, w.fb);
    forall y | y in w'.fa + w'.fb ensures y != x && Free(w, y) {
      var i :| 0 <= i < |w'.fa + w'.fb| && (w'.fa + w'.fb)[i] == y;
      assert (w.fa + w.fb)[i + 1] == y && (w.fa + w.fb)[0] == x;
    }
    assert forall y | y in w'.fa :: y in w'.fa + w'.fb;
    assert forall y | y in w'.fb :: y in w'.fa + w'.fb;
    ListFrame(w.accs, w'.accs, w'.accFree, w'.fa);
    ListFrame(w.accs, w'.accs, w.bufFree, w.fb);
    forall y | 0 <= y < |w'.accs| ensures Live(w', y) <==> !Free(w', y) {
      assert Free(w, y) <==> Free(w', y) || y == x;
      assert Live(w, y) <==> !Free(w, y);
    }
  }

  lemma DupFree(w: Pool, a: int)
    requires CanDup(w, a) && FreeOk(w)
    ensures FreeOk(Dup(w, a))
  {
    var w' := Dup(w, a);
    assert Live(w', w.fa[0]);
    hide FreeOk;
    Popped(w, w');
  }

  lemma DupDead(w: Pool, a: int, y: int, b: int)
    requires CanDup(w, a) && !Live(w, y) && y != w.fa[0]
    ensures 0 <= y < |w.accs| ==> Dup(w, a).accs[y] == w.accs[y]
    ensures Dup(w, a).fb == w.fb
    requires 0 <= b < |w.bufs| && w.bufs[w.accs[a].buffer].linkC > 0
    ensures Dup(w, a).bufs[b].linkC == 0 <==> w.bufs[b].linkC == 0
  {
  }

  lemma FreeBufDead(w: Pool, y: int)
    requires FreeOk(w) && y in w.fb
    ensures 0 <= y < |w.accs| && !Live(w, y) && (w.fa != [] ==> y != w.fa[0])
  {
    ListRange(w.accs, w.bufFree, w.fb);
    assert Free(w, y);
    if w.fa != [] {
      var i :| 0 <= i < |w.fb| && w.fb[i] == y;
      assert (w.fa + w.fb)[0] == w.fa[0] && (w.fa + w.fb)[|w.fa| + i] == y;
    }
  }

  lemma DupBufs(w: Pool, a: int)
    requires CanDup(w, a) && Linked(w) && Counted(w) && FreeOk(w) && BufsOk(w)
    ensures BufsOk(Dup(w, a))
  {
    hide Dup, Linked, Counted, FreeOk, Refs, Users;
    var w' := Dup(w, a);
    BufferUsed(w, a);
    DupSizes(w, a);
    if w.fb != [] { FreeBufDead(w, w.fb[0]); DupDead(w, a, w.fb[0], w.accs[a].buffer); }
    else { DupLists(w, a); }
    forall x, b ensures SpareAt(w', x, b) <==> SpareAt(w, x, b) {
      if x in w.fb {
        FreeBufDead(w, x);
        if 0 <= b < |w.bufs| { DupDead(w, a, x, b); }
      }
    }
    forall x | x in w'.fb ensures 0 <= x < |w'.accs| && SpareAt(w', x, w'.accs[x].buffer) {
      FreeBufDead(w, x);
      DupDead(w, a, x, w.accs[a].buffer);
    }
    forall b | 0 <= b < |w'.bufs| && w'.bufs[b].linkC == 0 ensures exists x :: SpareAt(w', x, b) {
      var x :| SpareAt(w, x, b);
      assert SpareAt(w', x, b);
    }
  }

  lemma DupLists(w: Pool, a: int)
    requires CanDup(w, a)
    ensures Dup(w, a).fb == w.fb && Dup(w, a).fa == w.fa[1..]
  {
  }

  lemma DupKeeps(w: Pool, a: int)
    requires Inv(w) && Live(w, a) && w.fa != []
    ensures CanDup(w, a) && Inv(Dup(w, a)) && Extends(w, Dup(w, a)) && Bytes(Dup(w, a), w.fa[0]) == Bytes(w, a)
    ensures Lens(Dup(w, a), w.fa[0]) == Lens(w, a)
  {
    DupAble(w, a);
    hide Sane, Linked, Counted, FreeOk, BufsOk, Dup, Extends;
    DupLinked(w, a);
    DupCounted(w, a);
    DupFree(w, a);
    DupBufs(w, a);
    DupBytes(w, a);
  }

  lemma DupBytes(w: Pool, a: int)
    requires CanDup(w, a) && Linked(w) && Linked(Dup(w, a)) && Extends(w, Dup(w, a))
    ensures Bytes(Dup(w, a), w.fa[0]) == Bytes(w, a) && Lens(Dup(w, a), w.fa[0]) == Lens(w, a)
  {
    hide Dup, Extends, Seg;
    var w' := Dup(w, a);
    DupFrame(w, a, w.fa[0]);
    DupFrame(w, a, a);
    BytesStep(w, a);
    BytesStep(w', w.fa[0]);
    DupSeg(w, a);
    if w.accs[a].next != NIL { ExtendsBytes(w, w', w.accs[a].next); }
  }

  lemma DupSeg(w: Pool, a: int)
    requires CanDup(w, a)
    ensures Seg(Dup(w, a), w.fa[0]) == Seg(w, a)
  {
  }
}
