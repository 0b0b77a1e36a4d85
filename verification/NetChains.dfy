/** Copies of single accessors, and chains that grow at their end.
    bf_cut makes such a chain: each turn duplicates an accessor, gives up the link of the
    copy, narrows its view if need be, and links it to the end of the chain. What there
    was before is not touched. */
module NetChains {
  import opened Storage
  import opened NetPool
  import opened NetSteps
  import opened NetLinks

  // ---------- A copy of one accessor ----------

  /** A duplicate whose link has been cut and given up. */
  function Lone(w: Pool, a: int): Pool
    requires CanDup(w, a)
  {
    var x, n := w.fa[0], w.accs[a].next;
    var cut := Cut(Dup(w, a), x);
    if n == NIL then cut else if Live(cut, n) then Unhold(cut, n) else cut
  }

  lemma CutUnhold(w: Pool, a: int)
    requires Inv(w) && Live(w, a) && w.fa != []
    ensures CanDup(w, a) && Inv(Dup(w, a)) && w.fa[0] in Dup(w, a).held && Dup(w, a).accs[w.fa[0]] == w.accs[a].(linkC := 1)
    ensures Live(Dup(w, a), w.fa[0]) && |Dup(w, a).path| == |Dup(w, a).accs|
    ensures var cut, n := Cut(Dup(w, a), w.fa[0]), w.accs[a].next;
      Inv(cut) && cut.accs[w.fa[0]].next == NIL && PathFrom(cut, w.fa[0]) == [w.fa[0]]
      && (n != NIL ==> n in cut.held && Live(cut, n) && cut.accs[n].linkC > 1)
  {
    hide Inv, Dup, Cut, Refs, Users;
    var x, n := w.fa[0], w.accs[a].next;
    DupKeeps(w, a);
    var d := Dup(w, a);
    DupFrame(w, a, x);
    DupSizes(w, a);
    CutKeeps(d, x);
    CutHeld(d, x);
    if n != NIL {
      var cut := Cut(d, x);
      assert n in cut.held;
      InvParts(cut);
      HeldLive(cut, n);
      DupFrame(w, a, a);
      CutFrame(d, x, a);
      NextIsNot(w, a);
      RefsIs(cut, a, n);
      TwoHolders(cut, n, a);
    }
  }

  lemma NextIsNot(w: Pool, a: int)
    requires CanDup(w, a)
    ensures w.fa[0] != a && w.fa[0] != w.accs[a].next
  {
  }

  lemma TwoHolders(w: Pool, n: int, a: int)
    requires Counted(w) && n in w.held && Live(w, n) && a in Refs(w, n)
    ensures w.accs[n].linkC > 1
  {
    assert |Refs(w, n)| > 0;
  }

  lemma LoneExtends(w: Pool, a: int)
    requires Inv(w) && Live(w, a) && w.fa != []
    ensures CanDup(w, a) && Inv(Lone(w, a)) && Extends(w, Lone(w, a))
  {
    hide Inv, Dup, Cut, Unhold, Extends;
    CutUnhold(w, a);
    var x, n := w.fa[0], w.accs[a].next;
    var d := Dup(w, a);
    var cut := Cut(d, x);
    DupKeeps(w, a);
    if n != NIL { UnholdKeeps(cut, n); }
    NextIsNot(w, a);
    NotLiveFree(w, a);
    CutExtends(w, d, x);
    if n != NIL { ExtendsThen(w, cut, Unhold(cut, n)); }
  }

  lemma NotLiveFree(w: Pool, a: int)
    requires CanDup(w, a)
    ensures !Live(w, w.fa[0])
  {
  }

  lemma CutExtends(w: Pool, d: Pool, x: int)
    requires Inv(d) && Extends(w, d) && !Live(w, x) && Live(d, x)
    ensures |d.path| == |d.accs| && Extends(w, Cut(d, x))
  {
    forall y | Live(w, y) ensures Live(Cut(d, x), y) && SameView(w, Cut(d, x), y) { CutFrame(d, x, y); }
  }

  lemma LoneResult(w: Pool, a: int)
    requires Inv(w) && Live(w, a) && w.fa != []
    ensures CanDup(w, a)
    ensures var w', x := Lone(w, a), w.fa[0];
      && !Live(w, x) && Live(w', x) && w'.accs[x] == w.accs[a].(linkC := 1, next := NIL)
      && PathFrom(w', x) == [x] && Seg(w', x) == Seg(w, a)
      && w'.fa == w.fa[1..] && w'.fb == w.fb
  {
    hide Inv, Dup, Cut, Seg, PathFrom, Unhold;
    CutUnhold(w, a);
    var x, n := w.fa[0], w.accs[a].next;
    var d := Dup(w, a);
    NotLiveFree(w, a);
    NextIsNot(w, a);
    DupSeg(w, a);
    DupFrees(w, a);
    CutFrame(d, x, x);
    CutFrees(d, x);
    if n != NIL { UnholdFrame(Cut(d, x), n, x); }
  }

  lemma DupFrees(w: Pool, a: int)
    requires CanDup(w, a)
    ensures Dup(w, a).fa == w.fa[1..] && Dup(w, a).fb == w.fb
  {
  }

  lemma CutFrees(w: Pool, x: int)
    requires Live(w, x) && |w.path| == |w.accs|
    ensures Cut(w, x).fa == w.fa && Cut(w, x).fb == w.fb && Cut(w, x).accs[x] == w.accs[x].(next := NIL)
  {
  }

  lemma UnholdFrame(w: Pool, n: int, x: int)
    requires Live(w, n) && w.accs[n].linkC > 1 && x != n
    ensures var w' := Unhold(w, n);
      && (Live(w', x) <==> Live(w, x)) && (0 <= x < |w.accs| ==> w'.accs[x] == w.accs[x]) && |w'.accs| == |w.accs|
      && PathFrom(w', x) == PathFrom(w, x) && Seg(w', x) == Seg(w, x) && w'.fa == w.fa && w'.fb == w.fb
  {
  }

  lemma LoneHeld(w: Pool, a: int)
    requires Inv(w) && Live(w, a) && w.fa != []
    ensures CanDup(w, a) && Lone(w, a).held == w.held + multiset{w.fa[0]}
  {
    CutUnhold(w, a);
    hide Inv, Cut, Dup;
    var x, n := w.fa[0], w.accs[a].next;
    DupSizes(w, a);
    DupFrame(w, a, x);
    CutHeld(Dup(w, a), x);
    if n != NIL { MultisetBack(w.held + multiset{x}, n); }
  }

  lemma MultisetBack(m: multiset<int>, x: int)
    ensures m + multiset{x} - multiset{x} == m
  {
  }

  // ---------- Changing which part of a buffer is shown ----------

  function SetView(w: Pool, x: int, offset: nat, length: nat): Pool
    requires Live(w, x)
  {
    w.(accs := w.accs[x := w.accs[x].(offset := offset, length := length)])
  }

  lemma SetViewKeeps(w: Pool, x: int, offset: nat, length: nat)
    requires Inv(w) && Live(w, x) && offset + length <= w.size
    ensures Inv(SetView(w, x, offset, length))
  {
    InvParts(w);
    BufferUsed(w, x);
    var b := w.accs[x].buffer;
    RewriteKeeps(w, x, offset, length, w.bufs[b].data);
    assert w.bufs[b := w.bufs[b].(data := w.bufs[b].data)] == w.bufs;
  }

  lemma SetViewFrame(w: Pool, x: int, offset: nat, length: nat, z: int)
    requires Live(w, x)
    ensures var w' := SetView(w, x, offset, length);
      && (Live(w', z) <==> Live(w, z)) && PathFrom(w', z) == PathFrom(w, z) && (z != x ==> Seg(w', z) == Seg(w, z))
      && (Live(w, z) && z != x ==> w'.accs[z] == w.accs[z]) && w'.accs[x].linkC == w.accs[x].linkC && w'.accs[x].next == w.accs[x].next
  {
  }

  /** Showing less of what was shown before. */
  lemma SetViewSeg(w: Pool, x: int, skip: nat, length: nat)
    requires Inv(w) && Live(w, x) && skip + length <= w.accs[x].length
    ensures |Seg(w, x)| == w.accs[x].length && w.accs[x].offset + w.accs[x].length <= w.size
    ensures Seg(SetView(w, x, w.accs[x].offset + skip, length), x) == Seg(w, x)[skip..skip + length]
  {
    hide Counted, FreeOk, BufsOk, Seg;
    assert LinkedAt(w, x);
    NarrowSeg(w, SetView(w, x, w.accs[x].offset + skip, length), x, skip, length);
  }

  lemma NarrowSeg(w: Pool, v: Pool, x: int, skip: nat, length: nat)
    requires 0 <= x < |w.accs| == |v.accs| && v.bufs == w.bufs && v.accs[x].buffer == w.accs[x].buffer && 0 <= w.accs[x].buffer < |w.bufs|
    requires w.accs[x].offset + w.accs[x].length <= |w.bufs[w.accs[x].buffer].data| && skip + length <= w.accs[x].length
    requires v.accs[x].offset == w.accs[x].offset + skip && v.accs[x].length == length
    ensures |Seg(w, x)| == w.accs[x].length && Seg(v, x) == Seg(w, x)[skip..skip + length]
  {}

  lemma SetViewExtends(w0: Pool, w: Pool, x: int, offset: nat, length: nat)
    requires Extends(w0, w) && !Live(w0, x) && Live(w, x)
    ensures Extends(w0, SetView(w, x, offset, length))
  {
    forall y | Live(w0, y) ensures Live(SetView(w, x, offset, length), y) && SameView(w0, SetView(w, x, offset, length), y) {
      SetViewFrame(w, x, offset, length, y);
    }
  }

  // ---------- Chains under construction ----------

  /** A chain of new accessors from `head` to `tail` has been added to `w0`. */
  ghost predicate Grown(w0: Pool, w: Pool, head: int, tail: int) {
    && Inv(w0) && Inv(w) && Extends(w0, w) && Live(w, tail) && w.accs[tail].next == NIL && tail in PathFrom(w, head)
    && (forall y | y in PathFrom(w, head) :: Live(w, y) && !Live(w0, y))
    && head in PathFrom(w, head) && w.held == w0.held + multiset{head}
  }

  lemma GrowFirst(w0: Pool, w: Pool, x: int)
    requires Inv(w0) && Inv(w) && Extends(w0, w) && !Live(w0, x) && Live(w, x) && w.accs[x].next == NIL
    requires PathFrom(w, x) == [x] && w.held == w0.held + multiset{x}
    ensures Grown(w0, w, x, x) && Bytes(w, x) == Seg(w, x)
  {
    hide Inv, Extends, Seg, Bytes, Lens;
    SingleBytes(w, x);
  }

  /** A new accessor `x` next to the chain. */
  ghost predicate Beside(w: Pool, w1: Pool, x: int) {
    && Inv(w1) && Extends(w, w1) && !Live(w, x) && Live(w1, x) && w1.accs[x].next == NIL
    && PathFrom(w1, x) == [x] && w1.held == w.held + multiset{x}
  }

  lemma GrowStep(w0: Pool, w: Pool, w1: Pool, head: int, tail: int, x: int)
    requires Grown(w0, w, head, tail) && Beside(w, w1, x)
    ensures Live(w1, tail) && |w1.path| == |w1.accs|
    ensures var w2 := Join(w1, tail, x);
      && Grown(w0, w2, head, x) && Bytes(w2, head) == Bytes(w, head) + Seg(w1, x)
      && PathFrom(w2, head) == PathFrom(w, head) + [x]
  {
    GrowJoin(w0, w, w1, head, tail, x);
    hide Inv, Join, Extends, Seg;
    var w2 := Join(w1, tail, x);
    InvParts(w);
    InvParts(w1);
    ExtendsBytes(w, w1, head);
    SingleBytes(w1, x);
    GrowView(w, w1, tail);
    GrowView(w, w1, head);
    JoinBytes(w1, tail, x, head);
    JoinFrame(w1, tail, x, head);
  }

  lemma SingleBytes(w: Pool, x: int)
    requires PathFrom(w, x) == [x]
    ensures Bytes(w, x) == Seg(w, x) && Lens(w, x) == [|Seg(w, x)|]
  {
    hide Seg;
    assert [x][1..] == [];
    assert BytesOf(w, [x]) == Seg(w, x) + BytesOf(w, []) && LensOf(w, [x]) == [|Seg(w, x)|] + LensOf(w, []);
  }

  lemma GrowView(w: Pool, w1: Pool, y: int)
    requires Inv(w1) && Extends(w, w1) && Live(w, y)
    ensures Live(w1, y) && PathFrom(w1, y) == PathFrom(w, y) && w1.accs[y].next == w.accs[y].next && |w1.path| == |w1.accs|
    ensures Linked(w1)
  {
  }

  lemma GrowJoin(w0: Pool, w: Pool, w1: Pool, head: int, tail: int, x: int)
    requires Grown(w0, w, head, tail) && Beside(w, w1, x)
    ensures Live(w1, tail) && |w1.path| == |w1.accs| && w1.accs[tail].next == NIL && Live(w1, head)
    ensures Grown(w0, Join(w1, tail, x), head, x)
  {
    hide Inv, Join, Extends, Seg;
    GrowView(w, w1, tail);
    GrowView(w, w1, head);
    HandleIn(w1, x);
    JoinKeeps(w1, tail, x);
    var w2 := Join(w1, tail, x);
    JoinHeld(w1, tail, x);
    JoinFrame(w1, tail, x, head);
    forall y | y in PathFrom(w2, head) ensures Live(w2, y) && !Live(w0, y) {
      JoinFrame(w1, tail, x, y);
      if y != x { GrowView(w, w1, y); } else { ExtendsLive(w0, w, x); }
    }
    JoinFrame(w1, tail, x, x);
    JoinExtends(w0, w, w1, tail, x);
    MultisetBack(w0.held + multiset{head}, x);
  }

  lemma HandleIn(w: Pool, x: int)
    requires Inv(w) && Live(w, x) && PathFrom(w, x) == [x]
    ensures forall t | t != x :: t !in PathFrom(w, x)
  {
  }

  lemma ExtendsLive(w0: Pool, w: Pool, x: int)
    requires Extends(w0, w) && !Live(w, x)
    ensures !Live(w0, x)
  {
  }

  lemma JoinExtends(w0: Pool, w: Pool, w1: Pool, tail: int, x: int)
    requires Inv(w0) && Inv(w1) && Extends(w0, w) && Extends(w, w1) && !Live(w0, tail) && Live(w1, tail) && w1.accs[tail].next == NIL
    requires Live(w1, x) && x != NIL
    ensures Extends(w0, Join(w1, tail, x))
  {
    InvParts(w0);
    InvParts(w1);
    SaneSizes(w1);
    ExtendsThen(w0, w, w1);
    hide Inv, Join, Linked;
    var w2 := Join(w1, tail, x);
    JoinHeld(w1, tail, x);
    forall y | Live(w0, y) ensures Live(w2, y) && SameView(w0, w2, y) {
      JoinFrame(w1, tail, x, y);
      assert tail in PathFrom(w0, y) ==> Live(w0, tail) by { if tail in PathFrom(w0, y) { InPath(w0, y, tail); } }
    }
    assert w2.bufs == w1.bufs;
  }

  lemma LoneBeside(w: Pool, a: int)
    requires Inv(w) && Live(w, a) && w.fa != []
    ensures CanDup(w, a) && Beside(w, Lone(w, a), w.fa[0]) && Seg(Lone(w, a), w.fa[0]) == Seg(w, a)
    ensures Lone(w, a).accs[w.fa[0]] == w.accs[a].(linkC := 1, next := NIL) && |Lone(w, a).fa| == |w.fa| - 1 && Lone(w, a).fb == w.fb
  {
    hide Inv, Lone, Extends, Seg, PathFrom;
    LoneExtends(w, a);
    LoneResult(w, a);
    LoneHeld(w, a);
  }

  lemma BesideView(w: Pool, w1: Pool, x: int, skip: nat, length: nat)
    requires Beside(w, w1, x) && skip + length <= w1.accs[x].length
    ensures |Seg(w1, x)| == w1.accs[x].length
    ensures var w2 := SetView(w1, x, w1.accs[x].offset + skip, length);
      Beside(w, w2, x) && Seg(w2, x) == Seg(w1, x)[skip..skip + length]
  {
    hide Inv, Extends, Seg, SetView;
    SetViewSeg(w1, x, skip, length);
    SetViewKeeps(w1, x, w1.accs[x].offset + skip, length);
    SetViewExtends(w, w1, x, w1.accs[x].offset + skip, length);
    SetViewFrame(w1, x, w1.accs[x].offset + skip, length, x);
    SetViewRest(w1, x, w1.accs[x].offset + skip, length);
  }

  lemma SetViewRest(w: Pool, x: int, offset: nat, length: nat)
    requires Live(w, x)
    ensures SetView(w, x, offset, length).held == w.held && SetView(w, x, offset, length).fa == w.fa && SetView(w, x, offset, length).fb == w.fb
    ensures SetView(w, x, offset, length).accs[x] == w.accs[x].(offset := offset, length := length)
  {
  }

  // ---------- Walking along a chain ----------

  /** The wanted bytes are those of the rest of the chain, from `off` on. */
  lemma SkipStep(w: Pool, cur: int, off: nat, length: nat)
    requires Inv(w) && Live(w, cur) && off >= w.accs[cur].length && off + length <= |Bytes(w, cur)|
    ensures var off', next := off - w.accs[cur].length, w.accs[cur].next;
      && off' + length <= |Bytes(w, next)| && Bytes(w, next)[off'..off' + length] == Bytes(w, cur)[off..off + length]
      && |PathFrom(w, next)| == |PathFrom(w, cur)| - 1 && (next != NIL ==> Live(w, next))
  {
    hide Bytes, Lens, Seg;
    StepFacts(w, cur);
  }

  lemma StepFacts(w: Pool, cur: int)
    requires Inv(w) && Live(w, cur)
    ensures Bytes(w, cur) == Seg(w, cur) + Bytes(w, w.accs[cur].next) && |Seg(w, cur)| == w.accs[cur].length
    ensures Lens(w, cur) == [w.accs[cur].length] + Lens(w, w.accs[cur].next)
    ensures w.accs[cur].offset + w.accs[cur].length <= w.size
    ensures |PathFrom(w, w.accs[cur].next)| == |PathFrom(w, cur)| - 1 && (w.accs[cur].next != NIL ==> Live(w, w.accs[cur].next))
  {
    assert LinkedAt(w, cur);
    BytesStep(w, cur);
  }

  lemma NoBytes(w: Pool)
    ensures Bytes(w, NIL) == [] && Lens(w, NIL) == []
  {
  }

}
