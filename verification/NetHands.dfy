/** Operations that use up a handle: what they owe to all other handles.
    A multiset of handles says who is to see the same bytes as before; the handle that the
    operation works on is beside it. */
module NetHands {
  import opened Storage
  import opened NetPool
  import opened NetSteps
  import opened NetLinks
  import opened NetChains

  function One(x: int): multiset<int> {
    if x == NIL then multiset{} else multiset{x}
  }

  /** The handle `a` has been given up; what is still live looks as before. */
  ghost predicate Freed(w0: Pool, w: Pool, a: int) {
    && Inv(w) && Shrunk(w0, w) && w.held == w0.held - One(a)
    && |w.fa| >= |w0.fa| && |w.fb| >= |w0.fb|
    && (if a == NIL then w == w0 else Live(w0, a) && (w0.accs[a].linkC > 1 ==> w == Unhold(w0, a)))
  }

  /** Of the handles that existed in `w0`, those in `rest` show the same bytes; beside them there
      is one handle `x`, which shows `bytes`. */
  ghost predicate Hand(w0: Pool, w: Pool, rest: multiset<int>, x: int, bytes: seq<byte>) {
    Inv(w) && w.held == rest + multiset{x} && Preserved(w0, w, rest) && Live(w, x) && Bytes(w, x) == bytes
  }

  lemma HandStarts(w: Pool, x: int)
    requires Inv(w) && x in w.held
    ensures Hand(w, w, w.held - multiset{x}, x, Bytes(w, x))
  {
    hide Bytes, Lens;
  }

  lemma HeldAlive(w: Pool, x: int)
    requires Inv(w) && x in w.held
    ensures Live(w, x)
  {
  }

  lemma FreedBytes(w1: Pool, w2: Pool, a: int, z: int)
    requires Freed(w1, w2, a) && z in w2.held
    ensures Live(w2, z) && Live(w1, z) && Bytes(w2, z) == Bytes(w1, z) && Lens(w2, z) == Lens(w1, z)
  {
    hide Bytes, Lens, Shrunk;
    HeldAlive(w2, z);
    InvParts(w2);
    ShrunkPreserved(w1, w2, z);
  }

  /** A new handle `y` is made, then the handle `x` is given up. */
  lemma HandOver(w0: Pool, w: Pool, w1: Pool, w2: Pool, rest: multiset<int>, x: int, y: int, bytes: seq<byte>)
    requires Hand(w0, w, rest, x, bytes) && x != NIL && Inv(w1) && Extends(w, w1) && w1.held == w.held + multiset{y}
    requires Freed(w1, w2, x)
    ensures Hand(w0, w2, rest, y, Bytes(w1, y))
  {
    hide Inv, Bytes, Lens, Freed, Extends;
    FreedHeld(w1, w2, x);
    SwapHandles(rest, x, y);
    forall z | z in rest ensures Live(w2, z) && Bytes(w2, z) == Bytes(w0, z) && Lens(w2, z) == Lens(w0, z) {
      assert z in w2.held && z in w.held;
      FreedBytes(w1, w2, x, z);
      HeldAlive(w, z);
      InvParts(w);
      ExtendsBytes(w, w1, z);
    }
    assert y in w2.held;
    FreedBytes(w1, w2, x, y);
  }

  lemma FreedHeld(w1: Pool, w2: Pool, a: int)
    requires Freed(w1, w2, a)
    ensures Inv(w2) && w2.held == w1.held - One(a)
  {
  }

  lemma SwapHandles(rest: multiset<int>, x: int, y: int)
    ensures rest + multiset{x} + multiset{y} - multiset{x} == rest + multiset{y}
  {
  }

  /** An accessor with a single holder belongs to that handle alone. */
  lemma SoleHolder(w: Pool, rest: multiset<int>, x: int, z: int)
    requires Inv(w) && w.held == rest + multiset{x} && Live(w, x) && w.accs[x].linkC == 1
    ensures Refs(w, x) == {} && x !in rest
    ensures z in rest ==> Live(w, z) && z != x && x !in PathFrom(w, z)
  {
    SingleMeansUnlinked(w, x);
    if z in rest {
      assert z in w.held;
      UnlinkedPath(w, z, x);
    }
  }

  /** Hiding the first bytes of an accessor that has a single holder. */
  lemma HandView(w0: Pool, w: Pool, rest: multiset<int>, x: int, bytes: seq<byte>, skip: nat)
    requires Hand(w0, w, rest, x, bytes) && w.accs[x].linkC == 1 && skip <= w.accs[x].length
    ensures skip <= |bytes|
    ensures var w' := SetView(w, x, w.accs[x].offset + skip, w.accs[x].length - skip);
      Hand(w0, w', rest, x, bytes[skip..])
  {
    hide Inv, Bytes, Lens, Seg, SetView, Refs;
    var offset, length := w.accs[x].offset + skip, w.accs[x].length - skip;
    var w' := SetView(w, x, offset, length);
    SetViewSeg(w, x, skip, length);
    SetViewKeeps(w, x, offset, length);
    SetViewRest(w, x, offset, length);
    SetViewFrame(w, x, offset, length, x);
    InvParts(w);
    InvParts(w');
    forall z | z in rest ensures Live(w', z) && Bytes(w', z) == Bytes(w0, z) && Lens(w', z) == Lens(w0, z) {
      SoleHolder(w, rest, x, z);
      ViewElsewhere(w, x, offset, length, z);
    }
    StepFacts(w, x);
    StepFacts(w', x);
    var n := w.accs[x].next;
    if n != NIL {
      NoLoop(w, x);
      ViewElsewhere(w, x, offset, length, n);
    } else {
      NoBytes(w);
      NoBytes(w');
    }
  }

  lemma ViewElsewhere(w: Pool, x: int, offset: nat, length: nat, z: int)
    requires Linked(w) && Live(w, x) && Live(w, z) && x !in PathFrom(w, z)
    ensures Live(SetView(w, x, offset, length), z) && Bytes(SetView(w, x, offset, length), z) == Bytes(w, z)
    ensures Lens(SetView(w, x, offset, length), z) == Lens(w, z)
  {
    hide SetView, Seg;
    var w' := SetView(w, x, offset, length);
    SetViewFrame(w, x, offset, length, z);
    forall y | y in PathFrom(w, z) ensures Seg(w', y) == Seg(w, y) { SetViewFrame(w, x, offset, length, y); }
    BytesSame(w, w', PathFrom(w, z));
  }

  // ---------- Chains that only one handle leads to ----------

  /** The chain of `head` ends in `tail`, and whatever leads to its end is part of it; only its
      first accessor is held from outside, once. */
  ghost predicate Tailed(w: Pool, head: int, tail: int) {
    && Live(w, head) && Live(w, tail) && w.accs[tail].next == NIL && w.accs[tail].linkC == 1
    && tail in PathFrom(w, head) && w.held[head] == 1
    && (forall y | y in PathFrom(w, head) && y != head :: y !in w.held)
    && (forall z | Live(w, z) && tail in PathFrom(w, z) :: z in PathFrom(w, head))
  }

  /** No other handle leads to the end of such a chain. */
  lemma TailNotIn(w: Pool, head: int, tail: int, others: multiset<int>, z: int)
    requires Inv(w) && Tailed(w, head, tail) && w.held == others + multiset{head} && z in others
    ensures Live(w, z) && tail !in PathFrom(w, z) && z != head
  {
    HeldAlive(w, z);
  }

  /** Every member of a chain leads to its end. */
  lemma {:induction false} LeadsToEnd(w: Pool, x: int, y: int, tail: int)
    requires Linked(w) && Live(w, x) && y in PathFrom(w, x) && tail in PathFrom(w, x) && Live(w, tail) && w.accs[tail].next == NIL
    ensures tail in PathFrom(w, y)
    decreases |PathFrom(w, x)|
  {
    assert LinkedAt(w, x);
    if y != x { LeadsToEnd(w, w.accs[x].next, y, tail); }
  }
}
