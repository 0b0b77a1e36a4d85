/** Appending one packet to another: what each step of bf_append keeps.
    Part of the first packet has been taken over into a chain that belongs to the caller
    alone; the rest is still a handle. The other handles lead neither to the end of that
    chain nor to any part of it. */
module NetJoin {
  import opened Storage
  import opened NetPool
  import opened NetSteps
  import opened NetLinks
  import opened NetChains
  import opened NetHands
  import opened NetFill
  import opened NetBuf
  import opened NetOps

  /** Part of the first packet has been taken over into the chain from `head` to `tail`; `rest`
      is the handle of what is left of it. The handles in `keep` show what they always did. */
  ghost predicate Appending(w0: Pool, w: Pool, keep: multiset<int>, head: int, tail: int, rest: int, bytes: seq<byte>) {
    && Inv(w) && Preserved(w0, w, keep) && w.held == keep + One(head) + One(rest)
    && (head != NIL ==> Tailed(w, head, tail)) && (rest != NIL ==> Live(w, rest))
    && Bytes(w, head) + Bytes(w, rest) == bytes
  }

  lemma AppendingSays(w0: Pool, w: Pool, keep: multiset<int>, head: int, tail: int, rest: int, bytes: seq<byte>)
    requires Appending(w0, w, keep, head, tail, rest, bytes)
    ensures Inv(w) && (rest != NIL ==> Live(w, rest) && rest in w.held) && (head != NIL ==> Live(w, head) && head in w.held && Live(w, tail))
    ensures w.held == keep + One(head) + One(rest) && Bytes(w, head) + Bytes(w, rest) == bytes
  {
  }

  /** What the handles in `keep` show is in the pieces it was in. */
  lemma AppendingLens(w0: Pool, w: Pool, keep: multiset<int>, head: int, tail: int, rest: int, bytes: seq<byte>, z: int)
    requires Appending(w0, w, keep, head, tail, rest, bytes) && z in keep
    ensures Lens(w, z) == Lens(w0, z)
  {
  }

  lemma AppendingStarts(w: Pool, first: int)
    requires Inv(w) && first in w.held
    ensures Appending(w, w, w.held - multiset{first}, NIL, NIL, first, Bytes(w, first))
  {
    hide Inv;
    HeldAlive(w, first);
    NotNil(w, first);
    NoBytes(w);
    assert [] + Bytes(w, first) == Bytes(w, first);
    forall z | z in w.held - multiset{first} ensures Live(w, z) { HeldAlive(w, z); }
    assert w.held == w.held - multiset{first} + multiset{first};
  }

  /** The other handles do not lead to the end of the chain under construction, nor to any part
      of it. */
  lemma Apart(w: Pool, head: int, tail: int, others: multiset<int>, z: int, y: int)
    requires Inv(w) && Tailed(w, head, tail) && w.held == others + multiset{head} && z in others
    requires y in PathFrom(w, z)
    ensures Live(w, y) && y !in PathFrom(w, head) && tail !in PathFrom(w, y)
  {
    TailNotIn(w, head, tail, others, z);
    HeldAlive(w, z);
    InPath(w, z, y);
    if y in PathFrom(w, head) { LeadsToEnd(w, head, y, tail); }
    PathInPath(w, z, y, tail);
  }

  lemma {:induction false} PathInPath(w: Pool, x: int, y: int, t: int)
    requires Linked(w) && Live(w, x) && y in PathFrom(w, x)
    ensures t in PathFrom(w, y) ==> t in PathFrom(w, x)
    decreases |PathFrom(w, x)|
  {
    assert LinkedAt(w, x);
    if y != x { PathInPath(w, w.accs[x].next, y, t); }
  }

  // ---------- Making the next accessor our own ----------

  /** What making a copy the caller's own leaves alone. */
  lemma AloneFrame(w: Pool, x: int, z: int)
    requires Inv(w) && Live(w, x) && w.accs[x].linkC > 1 && w.fa != []
    ensures CanDup(w, x)
    ensures var w', r := Alone(w, x), w.fa[0];
      && |w'.accs| == |w.accs| && !Live(w, r)
      && (Live(w', z) <==> Live(w, z) || z == r)
      && (Live(w, z) ==> PathFrom(w', z) == PathFrom(w, z))
      && (Live(w, z) && z != x && z != w.accs[x].next ==> w'.accs[z] == w.accs[z])
      && PathFrom(w', r) == [r] + PathFrom(w, w.accs[x].next)
      && w'.held == w.held + multiset{r} - multiset{x}
  {
    DupAble(w, x);
    hide Inv, Dup, Unhold, Alone, PathFrom, Refs, Users;
    DupOf(w, x);
    NotLiveFree(w, x);
    AloneIs(w, x);
    DupFrame(w, x, z);
    DupFrame(w, x, w.fa[0]);
    UnholdPath(Dup(w, x), x, z);
    UnholdPath(Dup(w, x), x, w.fa[0]);
    DupElse(w, x, z);
    if z != x { UnholdFrame(Dup(w, x), x, z); }
    UnholdSize(Dup(w, x), x);
    DupSizes(w, x);
  }

  lemma UnholdSize(w: Pool, n: int)
    requires Live(w, n) && w.accs[n].linkC > 1
    ensures |Unhold(w, n).accs| == |w.accs|
  {
  }

  lemma DupElse(w: Pool, a: int, z: int)
    requires CanDup(w, a)
    ensures Live(w, z) && z != w.accs[a].next ==> Dup(w, a).accs[z] == w.accs[z]
  {
  }

  lemma ExclusiveTailed(w: Pool, w': Pool, head: int, tail: int, x: int, others: multiset<int>)
    requires Inv(w) && Tailed(w, head, tail) && w.held == others + multiset{head} && x in others && Live(w, x)
    requires w.fa != [] && CanDup(w, x) && w.accs[x].linkC > 1 && w' == Alone(w, x)
    ensures Tailed(w', head, tail)
  {
    hide Inv, Dup, Unhold, Alone, PathFrom, CanDup;
    var r := w.fa[0];
    TailNotIn(w, head, tail, others, x);
    TailElse(w, x, tail);
    HeadIsNot(w, head, tail, others, x);
    AloneFrame(w, x, head);
    AloneFrame(w, x, tail);
    forall z | Live(w', z) && tail in PathFrom(w', z) ensures z in PathFrom(w', head) { AloneFrame(w, x, z); }
    forall y | y in PathFrom(w', head) && y != head ensures y !in w'.held { MemberLive(w, head, y); }
  }

  lemma MemberLive(w: Pool, x: int, y: int)
    requires Inv(w) && Live(w, x) && y in PathFrom(w, x)
    ensures Live(w, y)
  {
    InPath(w, x, y);
  }

  lemma TailElse(w: Pool, x: int, tail: int)
    requires Inv(w) && Live(w, x) && tail !in PathFrom(w, x) && Live(w, tail)
    ensures tail != x && tail != w.accs[x].next && tail !in PathFrom(w, w.accs[x].next)
  {
    assert LinkedAt(w, x);
    assert w.accs[x].next == tail ==> tail in PathFrom(w, x) by { if w.accs[x].next == tail { PathHead(w, x); } }
  }

  lemma PathHead(w: Pool, x: int)
    requires Inv(w) && Live(w, x) && w.accs[x].next != NIL
    ensures w.accs[x].next in PathFrom(w, x)
  {
    assert LinkedAt(w, x);
    assert LinkedAt(w, w.accs[x].next);
  }

  lemma HeadIsNot(w: Pool, head: int, tail: int, others: multiset<int>, x: int)
    requires Inv(w) && Tailed(w, head, tail) && w.held == others + multiset{head} && x in others
    ensures x != head && x !in PathFrom(w, head)
  {
  }

  lemma AloneIs(w: Pool, x: int)
    requires Live(w, x) && CanDup(w, x) && w.accs[x].linkC > 1 && Live(Dup(w, x), x)
    ensures Alone(w, x) == Unhold(Dup(w, x), x)
  {
  }

  lemma UnholdPath(w: Pool, n: int, x: int)
    requires Live(w, n) && w.accs[n].linkC > 1
    ensures var w' := Unhold(w, n);
      (Live(w', x) <==> Live(w, x)) && PathFrom(w', x) == PathFrom(w, x) && w'.held == w.held - multiset{n}
  {
  }

  lemma ExclusiveAppending(w0: Pool, w: Pool, w': Pool, keep: multiset<int>, head: int, tail: int, x: int, r: int, bytes: seq<byte>)
    requires Appending(w0, w, keep, head, tail, x, bytes) && x != NIL && w.fa != [] && CanDup(w, x) && w' == Alone(w, x) && Inv(w')
    requires r == if w.accs[x].linkC == 1 then x else w.fa[0]
    ensures Appending(w0, w', keep, head, tail, r, bytes) && w'.accs[r] == w.accs[x].(linkC := 1)
    ensures w'.fb == w.fb && Lens(w', head) == Lens(w, head) && Lens(w', r) == Lens(w, x)
  {
    hide Inv, Bytes, Lens, Extends, Tailed, Dup, Alone, PathFrom, Unhold;
    DupAlive(w, x);
    if w.accs[x].linkC != 1 {
      CopyAppending(w0, w, w', keep, head, tail, x, bytes);
    } else {
      AloneSame(w, x);
    }
  }

  lemma AloneExtends(w: Pool, x: int)
    requires Inv(w) && Live(w, x) && w.accs[x].linkC > 1 && w.fa != [] && x in w.held
    ensures CanDup(w, x) && Extends(w, Alone(w, x)) && Inv(Alone(w, x)) && Bytes(Alone(w, x), w.fa[0]) == Bytes(w, x)
    ensures Lens(Alone(w, x), w.fa[0]) == Lens(w, x)
    ensures Alone(w, x).accs[w.fa[0]] == w.accs[x].(linkC := 1) && Alone(w, x).fb == w.fb && w.fa[0] != NIL
  {
    hide Inv, Bytes, Lens, Extends, Dup, Alone, PathFrom, Unhold, Sane, Linked, Counted, FreeOk, BufsOk;
    DupAble(w, x);
    var d, r := Dup(w, x), w.fa[0];
    DupOf(w, x);
    DupKeeps(w, x);
    DupHeldX(w, x);
    UnholdKeeps(d, x);
    AloneIs(w, x);
    ExtendsThen(w, d, Unhold(d, x));
    InvParts(d);
    UnholdFrame(d, x, r);
    ExtendsBytes(d, Unhold(d, x), r);
    DupFrees(w, x);
    NotNil(d, r);
  }

  lemma CopyAppending(w0: Pool, w: Pool, w': Pool, keep: multiset<int>, head: int, tail: int, x: int, bytes: seq<byte>)
    requires Appending(w0, w, keep, head, tail, x, bytes) && x != NIL && w.fa != [] && CanDup(w, x) && Live(w, x) && w.accs[x].linkC > 1
    requires w' == Alone(w, x)
    ensures Appending(w0, w', keep, head, tail, w.fa[0], bytes) && w'.accs[w.fa[0]] == w.accs[x].(linkC := 1) && w'.fb == w.fb
    ensures Lens(w', head) == Lens(w, head) && Lens(w', w.fa[0]) == Lens(w, x)
  {
    hide Inv, Bytes, Lens, Extends, Tailed, Dup, Alone, PathFrom, Unhold, CanDup, Linked;
    var r := w.fa[0];
    AloneFrame(w, x, r);
    AloneExtends(w, x);
    SwapHandles(keep + One(head), x, r);
    LinkedOf(w);
    forall z | z in keep ensures Live(w', z) && Bytes(w', z) == Bytes(w0, z) && Lens(w', z) == Lens(w0, z) {
      assert z in w.held;
      HeldAlive(w, z);
      ExtendsBytes(w, w', z);
    }
    if head != NIL {
      OtherFirst(keep, head, x);
      TailedHead(w, head, tail);
      ExtendsBytes(w, w', head);
      ExclusiveTailed(w, w', head, tail, x, keep + multiset{x});
    } else {
      NoBytes(w);
      NoBytes(w');
    }
  }

  lemma LinkedOf(w: Pool)
    requires Inv(w)
    ensures Linked(w) && |w.path| == |w.accs|
  {
  }

  lemma DupAlive(w: Pool, x: int)
    requires CanDup(w, x)
    ensures Live(w, x)
  {
  }

  lemma AloneSame(w: Pool, x: int)
    requires Live(w, x) && w.accs[x].linkC == 1 && CanDup(w, x)
    ensures Alone(w, x) == w && w.accs[x] == w.accs[x].(linkC := 1)
  {
  }

  lemma DupHeldX(w: Pool, x: int)
    requires CanDup(w, x)
    ensures x in w.held ==> x in Dup(w, x).held
    ensures Dup(w, x).held == w.held + multiset{w.fa[0]} && Live(Dup(w, x), w.fa[0])
  {
  }

  lemma OtherFirst(keep: multiset<int>, head: int, x: int)
    ensures keep + multiset{head} + multiset{x} == (keep + multiset{x}) + multiset{head} && x in keep + multiset{x}
  {
  }

  lemma TailedHead(w: Pool, head: int, tail: int)
    requires Tailed(w, head, tail)
    ensures Live(w, head) && Live(w, tail) && w.accs[tail].next == NIL && tail in PathFrom(w, head) && w.accs[tail].linkC == 1
  {
  }

  // ---------- Taking it off the first packet ----------

  /** Between the chain under construction and the rest of the first packet there is one loose
      accessor. */
  ghost predicate Parting(w0: Pool, w: Pool, keep: multiset<int>, head: int, tail: int, x: int, rest: int, bytes: seq<byte>) {
    && Inv(w) && Preserved(w0, w, keep) && w.held == keep + One(head) + multiset{x} + One(rest)
    && (head != NIL ==> Tailed(w, head, tail)) && (rest != NIL ==> Live(w, rest))
    && Live(w, x) && w.accs[x].linkC == 1 && w.accs[x].next == NIL && PathFrom(w, x) == [x]
    && Bytes(w, head) + Seg(w, x) + Bytes(w, rest) == bytes
  }

  lemma PartTailed(w: Pool, head: int, tail: int, x: int, others: multiset<int>)
    requires Inv(w) && Tailed(w, head, tail) && w.held == others + multiset{head} && x in others && Live(w, x) && w.accs[x].linkC == 1
    ensures |w.path| == |w.accs| && Tailed(Cut(w, x), head, tail)
  {
    hide Inv, Cut, PathFrom, Refs, Seg;
    LinkedOf(w);
    CutSizes(w, x);
    TailNotIn(w, head, tail, others, x);
    OwnPath(w, x);
    HeadIsNot(w, head, tail, others, x);
    CutHeld(w, x);
    CutFrame(w, x, head);
    CutFrame(w, x, tail);
    var n := w.accs[x].next;
    if n != NIL {
      PathHead(w, x);
      Apart(w, head, tail, others, x, n);
    }
    forall z | Live(Cut(w, x), z) && tail in PathFrom(Cut(w, x), z) ensures z in PathFrom(Cut(w, x), head) { CutFrame(w, x, z); }
  }

  lemma CutSizes(w: Pool, x: int)
    requires Live(w, x) && |w.path| == |w.accs|
    ensures |Cut(w, x).accs| == |w.accs|
  {
  }

  lemma OwnPath(w: Pool, x: int)
    requires Inv(w) && Live(w, x)
    ensures x in PathFrom(w, x)
  {
    assert LinkedAt(w, x);
  }

  lemma HoldsOnce(w: Pool, x: int)
    requires Inv(w) && x in w.held && Live(w, x) && w.accs[x].linkC == 1
    ensures Refs(w, x) == {} && w.held[x] == 1
  {
    SingleMeansUnlinked(w, x);
  }

  lemma Part(w0: Pool, w: Pool, keep: multiset<int>, head: int, tail: int, x: int, bytes: seq<byte>)
    requires Appending(w0, w, keep, head, tail, x, bytes) && x != NIL && Live(w, x) && w.accs[x].linkC == 1
    ensures |w.path| == |w.accs| && Parting(w0, Cut(w, x), keep, head, tail, x, w.accs[x].next, bytes)
    ensures Lens(Cut(w, x), head) == Lens(w, head) && Lens(w, x) == [w.accs[x].length] + Lens(Cut(w, x), w.accs[x].next)
  {
    hide Inv, Bytes, Lens, Extends, Tailed, Cut, PathFrom, Linked, Refs, Seg;
    LinkedOf(w);
    AppendingSays(w0, w, keep, head, tail, x, bytes);
    HoldsOnce(w, x);
    var n := w.accs[x].next;
    var w' := Cut(w, x);
    CutKeeps(w, x);
    CutHeld(w, x);
    CutFrame(w, x, x);
    forall z | z in keep ensures Live(w', z) && Bytes(w', z) == Bytes(w0, z) && Lens(w', z) == Lens(w0, z) {
      assert z in w.held;
      HeldAlive(w, z);
      CutBytes(w, x, z);
    }
    StepFacts(w, x);
    if n != NIL { NotOwnLink(w, x); CutBytes(w, x, n); CutFrame(w, x, n); } else { NoBytes(w); NoBytes(w'); }
    if head != NIL {
      OtherFirst(keep, head, x);
      TailedHead(w, head, tail);
      HeadIsNot(w, head, tail, keep + multiset{x}, x);
      CutBytes(w, x, head);
      PartTailed(w, head, tail, x, keep + multiset{x});
    } else {
      NoBytes(w);
      NoBytes(w');
    }
    assert Bytes(w, head) + (Seg(w, x) + Bytes(w, n)) == Bytes(w, head) + Seg(w, x) + Bytes(w, n);
  }

  lemma NotOwnLink(w: Pool, x: int)
    requires Inv(w) && Live(w, x) && w.accs[x].next != NIL
    ensures w.accs[x].next != x && Live(w, w.accs[x].next)
  {
    assert LinkedAt(w, x);
  }

  // ---------- An accessor without bytes ----------

  lemma TailedShrunk(w: Pool, w': Pool, head: int, tail: int)
    requires Inv(w') && Tailed(w, head, tail) && Shrunk(w, w') && head in w'.held && w'.held[head] == 1
    requires forall y | y in w'.held :: y in w.held
    ensures Tailed(w', head, tail)
  {
    HeldAlive(w', head);
    MemberLive(w', head, tail);
  }

  lemma DropEmpty(w0: Pool, w: Pool, w': Pool, keep: multiset<int>, head: int, tail: int, x: int, rest: int, bytes: seq<byte>)
    requires Parting(w0, w, keep, head, tail, x, rest, bytes) && w.accs[x].length == 0 && Freed(w, w', x)
    ensures Appending(w0, w', keep, head, tail, rest, bytes) && Lens(w', head) == Lens(w, head) && Lens(w', rest) == Lens(w, rest)
  {
    hide Inv, Bytes, Lens, Extends, Tailed, PathFrom, Seg, Shrunk;
    StepFacts(w, x);
    NotNil(w, x);
    FreedHeld(w, w', x);
    LessMiddle(keep + One(head), x, One(rest));
    forall z | z in keep ensures Live(w', z) && Bytes(w', z) == Bytes(w0, z) && Lens(w', z) == Lens(w0, z) {
      assert z in w'.held;
      FreedBytes(w, w', x, z);
    }
    NoBytes(w);
    NoBytes(w');
    if rest != NIL { FreedBytes(w, w', x, rest); }
    if head != NIL {
      FreedBytes(w, w', x, head);
      HeldOnce(w, head, tail);
      TailedShrunk(w, w', head, tail);
    }
  }

  lemma LessMiddle(a: multiset<int>, x: int, b: multiset<int>)
    ensures a + multiset{x} + b - multiset{x} == a + b
  {
  }

  lemma HeldOnce(w: Pool, head: int, tail: int)
    requires Tailed(w, head, tail)
    ensures w.held[head] == 1
  {
  }

  // ---------- The first accessor with bytes, and the ones after it ----------

  lemma KeepFirst(w0: Pool, w: Pool, keep: multiset<int>, x: int, rest: int, bytes: seq<byte>)
    requires Parting(w0, w, keep, NIL, NIL, x, rest, bytes)
    ensures Appending(w0, w, keep, x, x, rest, bytes) && Lens(w, x) == [w.accs[x].length]
  {
    hide Inv, Seg, Extends;
    StepFacts(w, x);
    NotNil(w, x);
    assert w.held == keep + multiset{x} + One(rest);
    HoldsOnce(w, x);
    LinkedOf(w);
    forall z | Live(w, z) && x in PathFrom(w, z) ensures z in PathFrom(w, x) { UnlinkedPath(w, z, x); }
    SingleBytes(w, x);
    NoBytes(w);
    hide Bytes, Lens;
    assert [] + Seg(w, x) == Seg(w, x);
  }

  lemma JoinTailed(w: Pool, head: int, tail: int, x: int, others: multiset<int>)
    requires Inv(w) && Tailed(w, head, tail) && w.held == others + multiset{head} && x in others
    requires Live(w, x) && w.accs[x].linkC == 1 && w.accs[x].next == NIL && PathFrom(w, x) == [x]
    ensures Tailed(Join(w, tail, x), head, x)
  {
    hide Inv, Join, Refs, Seg;
    LinkedOf(w);
    HoldsOnce(w, x);
    NotNil(w, x);
    JoinHeld(w, tail, x);
    JoinFrame(w, tail, x, head);
    JoinFrame(w, tail, x, x);
    HeadIsNot(w, head, tail, others, x);
    TailNotIn(w, head, tail, others, x);
    var w' := Join(w, tail, x);
    forall z | Live(w', z) && x in PathFrom(w', z) ensures z in PathFrom(w', head) {
      JoinFrame(w, tail, x, z);
      if tail !in PathFrom(w, z) { UnlinkedPath(w, z, x); }
    }
  }

  lemma KeepNext(w0: Pool, w: Pool, keep: multiset<int>, head: int, tail: int, x: int, rest: int, bytes: seq<byte>)
    requires Parting(w0, w, keep, head, tail, x, rest, bytes) && head != NIL
    ensures Live(w, tail) && Appending(w0, Join(w, tail, x), keep, head, x, rest, bytes)
    ensures Lens(Join(w, tail, x), head) == Lens(w, head) + [w.accs[x].length] && Lens(Join(w, tail, x), rest) == Lens(w, rest)
  {
    hide Inv, Bytes, Lens, Extends, Tailed, Join, Seg, Linked;
    LinkedOf(w);
    NotNil(w, x);
    TailedHead(w, head, tail);
    var others := keep + One(rest) + multiset{x};
    HeadAside(keep, One(rest), head, x);
    TailNotIn(w, head, tail, others, x);
    var w' := Join(w, tail, x);
    JoinKeeps(w, tail, x);
    JoinHeld(w, tail, x);
    forall z | z in keep ensures Live(w', z) && Bytes(w', z) == Bytes(w0, z) && Lens(w', z) == Lens(w0, z) {
      TailNotIn(w, head, tail, others, z);
      JoinBytes(w, tail, x, z);
    }
    JoinBytes(w, tail, x, head);
    SingleBytes(w, x);
    StepFacts(w, x);
    if rest != NIL {
      TailNotIn(w, head, tail, others, rest);
      JoinBytes(w, tail, x, rest);
    } else {
      NoBytes(w);
      NoBytes(w');
    }
    JoinTailed(w, head, tail, x, others);
  }

  lemma HeadAside(keep: multiset<int>, r: multiset<int>, head: int, x: int)
    ensures keep + multiset{head} + multiset{x} + r == (keep + r + multiset{x}) + multiset{head}
    ensures keep + multiset{head} + multiset{x} + r - multiset{x} == keep + multiset{head} + r
  {
  }
}
