/** The second half of bf_append: joining, or merging two short accessors into one.
    Merging makes the last accessor of the first packet longer and drops the first
    accessor of the second one; whatever way the bytes got there, the rest of the second
    packet is linked behind it. */
module NetMerge {
  import opened Storage
  import opened NetPool
  import opened NetSteps
  import opened NetLinks
  import opened NetChains
  import opened NetHands
  import opened NetFill
  import opened NetBuf
  import opened NetOps
  import opened NetJoin

  /** The first packet is ready; the handle `second` of the other packet counts from now on. */
  lemma BothReady(w0: Pool, w: Pool, rest: multiset<int>, head: int, tail: int, second: int, b1: seq<byte>, b2: seq<byte>)
    requires Appending(w0, w, rest + multiset{second}, head, tail, NIL, b1) && second != NIL && b2 == Bytes(w0, second)
    ensures Appending(w0, w, rest, head, tail, second, b1 + b2)
  {
    hide Inv, Bytes, Lens, Tailed;
    OtherFirst(rest, head, second);
    NoBytes(w);
    assert Bytes(w, head) + [] == Bytes(w, head);
    assert rest + multiset{second} + One(head) + One(NIL) == rest + One(head) + multiset{second};
    assert second in rest + multiset{second};
  }

  function HoldIf(w: Pool, n: int): Pool {
    if Live(w, n) then Hold(w, n) else w
  }

  lemma HoldIfKeeps(w: Pool, n: int)
    requires Inv(w) && (n == NIL || Live(w, n))
    ensures Inv(HoldIf(w, n)) && Extends(w, HoldIf(w, n)) && HoldIf(w, n).held == w.held + One(n)
    ensures HoldIf(w, n).fa == w.fa && HoldIf(w, n).fb == w.fb
  {
    if Live(w, n) { hide Inv, Extends; HoldKeeps(w, n); HoldHeld(w, n); NotNil(w, n); }
    else { hide Inv; assert w.held + multiset{} == w.held; }
  }

  lemma HoldTailed(w: Pool, head: int, tail: int, others: multiset<int>, second: int)
    requires Inv(w) && Tailed(w, head, tail) && w.held == others + multiset{head} && second in others && Live(w, second)
    ensures Tailed(HoldIf(w, w.accs[second].next), head, tail)
  {
    hide Inv, PathFrom;
    var n := w.accs[second].next;
    var w' := HoldIf(w, n);
    HeadIsNot(w, head, tail, others, second);
    if Live(w, n) {
      NotNil(w, n);
      PathHead(w, second);
      Apart(w, head, tail, others, second, n);
      OwnPath(w, n);
      HoldFrame(w, n, head);
      HoldFrame(w, n, tail);
      OwnPath(w, head);
      HoldHeld(w, n);
      hide Hold;
      forall z | Live(w', z) && tail in PathFrom(w', z) ensures z in PathFrom(w', head) { HoldFrame(w, n, z); }
    }
  }

  lemma HoldFrame(w: Pool, n: int, z: int)
    requires Live(w, n)
    ensures var w' := Hold(w, n);
      && (Live(w', z) <==> Live(w, z)) && PathFrom(w', z) == PathFrom(w, z) && |w'.accs| == |w.accs|
      && (Live(w, z) && z != n ==> w'.accs[z] == w.accs[z])
      && (Live(w, z) ==> w'.accs[z].next == w.accs[z].next)
  {
  }

  /** Leading accessors of the second packet that show nothing are given up. */
  lemma TrimStep(w0: Pool, w: Pool, w': Pool, rest: multiset<int>, head: int, tail: int, second: int, bytes: seq<byte>)
    requires Appending(w0, w, rest, head, tail, second, bytes) && head != NIL && second != NIL && Live(w, second)
    requires w.accs[second].length == 0 && Freed(HoldIf(w, w.accs[second].next), w', second)
    ensures Appending(w0, w', rest, head, tail, w.accs[second].next, bytes)
    ensures Lens(w', head) == Lens(w, head) && Lens(w, second) == [0] + Lens(w', w.accs[second].next)
  {
    hide Inv, Bytes, Lens, Extends, Tailed, PathFrom, Seg, Shrunk, HoldIf, Linked, Freed;
    var n := w.accs[second].next;
    var w1 := HoldIf(w, n);
    LinkedOf(w);
    StepFacts(w, second);
    HoldIfKeeps(w, n);
    OtherFirst(rest, head, second);
    TailedHead(w, head, tail);
    HoldTailed(w, head, tail, rest + multiset{second}, second);
    FreedHeld(w1, w', second);
    LessMiddle(rest + multiset{head}, second, One(n));
    forall z | z in rest ensures Live(w', z) && Bytes(w', z) == Bytes(w0, z) && Lens(w', z) == Lens(w0, z) {
      assert z in w.held && z in w'.held;
      HeldAlive(w, z);
      ExtendsBytes(w, w1, z);
      FreedBytes(w1, w', second, z);
    }
    ExtendsBytes(w, w1, head);
    FreedBytes(w1, w', second, head);
    if n != NIL {
      ExtendsBytes(w, w1, n);
      FreedBytes(w1, w', second, n);
    } else {
      NoBytes(w);
      NoBytes(w');
    }
    assert Seg(w, second) == [];
    FreedShrunk(w1, w', second);
    HeldOnce(w1, head, tail);
    TailedShrunk(w1, w', head, tail);
  }

  lemma FreedShrunk(w: Pool, w': Pool, a: int)
    requires Freed(w, w', a)
    ensures Inv(w') && Shrunk(w, w')
  {
  }

  /** The two packets do not fit into one buffer: link them. */
  lemma LinkThem(w0: Pool, w: Pool, rest: multiset<int>, head: int, tail: int, second: int, bytes: seq<byte>)
    requires Appending(w0, w, rest, head, tail, second, bytes) && head != NIL && second != NIL
    ensures Live(w, tail) && Hand(w0, Join(w, tail, second), rest, head, bytes)
    ensures Lens(Join(w, tail, second), head) == Lens(w, head) + Lens(w, second)
  {
    hide Inv, Bytes, Lens, Extends, Tailed, PathFrom, Join, Linked;
    LinkedOf(w);
    OtherFirst(rest, head, second);
    TailedHead(w, head, tail);
    TailNotIn(w, head, tail, rest + multiset{second}, second);
    JoinKeeps(w, tail, second);
    JoinHeld(w, tail, second);
    MultisetBack(rest + multiset{head}, second);
    forall z | z in rest ensures Live(Join(w, tail, second), z) && Bytes(Join(w, tail, second), z) == Bytes(w0, z) && Lens(Join(w, tail, second), z) == Lens(w0, z) {
      TailNotIn(w, head, tail, rest + multiset{second}, z);
      JoinBytes(w, tail, second, z);
    }
    JoinBytes(w, tail, second, head);
  }

  /** The bytes of the first accessor of the second packet have been merged into the last of the
      first one. */
  ghost predicate Merged(w0: Pool, w: Pool, rest: multiset<int>, head: int, tail: int, second: int, bytes: seq<byte>) {
    && Inv(w) && Preserved(w0, w, rest) && w.held == rest + multiset{head} + multiset{second} && head != NIL && second != NIL
    && Tailed(w, head, tail) && Live(w, second)
    && Bytes(w, head) + Bytes(w, w.accs[second].next) == bytes
  }

  function LinkOn(w: Pool, tail: int, n: int): Pool
    requires Live(w, tail)
  {
    if Live(w, n) then if Live(Hold(w, n), tail) then Join(Hold(w, n), tail, n) else w else w
  }

  lemma LinkOnFacts(w0: Pool, w: Pool, rest: multiset<int>, head: int, tail: int, second: int, bytes: seq<byte>)
    requires Merged(w0, w, rest, head, tail, second, bytes)
    ensures Live(w, tail) && var w1 := LinkOn(w, tail, w.accs[second].next);
      && Inv(w1) && Preserved(w0, w1, rest) && w1.held == rest + multiset{head} + multiset{second}
      && Live(w1, head) && Bytes(w1, head) == bytes && Live(w1, second) && Lens(w1, head) == Lens(w, head) + Lens(w, w.accs[second].next)
  {
    hide Inv, Bytes, Lens, Extends, Tailed, PathFrom, Join, Linked, Hold;
    LinkedOf(w);
    OtherFirst(rest, head, second);
    TailedHead(w, head, tail);
    var n := w.accs[second].next;
    StepFacts(w, second);
    if n != NIL {
      var h := Hold(w, n);
      HoldKeeps(w, n);
      HoldHeld(w, n);
      LinkedOf(h);
      HoldFrame(w, n, tail);
      HoldFrame(w, n, head);
      HoldTailed(w, head, tail, rest + multiset{second}, second);
      HoldFrame(w, n, n);
      HeldSplit(rest, head, second, n);
      TailNotIn(h, head, tail, rest + multiset{second} + multiset{n}, n);
      JoinKeeps(h, tail, n);
      JoinHeld(h, tail, n);
      TailedHead(h, head, tail);
      JoinBytes(h, tail, n, head);
      ExtendsBytes(w, h, head);
      ExtendsBytes(w, h, n);
      TailNotIn(h, head, tail, rest + multiset{second} + multiset{n}, second);
      JoinBytes(h, tail, n, second);
      forall z | z in rest ensures Live(Join(h, tail, n), z) && Bytes(Join(h, tail, n), z) == Bytes(w0, z) && Lens(Join(h, tail, n), z) == Lens(w0, z) {
        assert z in w.held;
        HeldAlive(w, z);
        ExtendsBytes(w, h, z);
        TailNotIn(h, head, tail, rest + multiset{second} + multiset{n}, z);
        JoinBytes(h, tail, n, z);
      }
    } else {
      NoBytes(w);
      assert Bytes(w, head) + [] == Bytes(w, head) && Lens(w, head) + [] == Lens(w, head);
    }
  }

  lemma HeldSplit(rest: multiset<int>, head: int, second: int, n: int)
    ensures rest + multiset{head} + multiset{second} + multiset{n} == rest + multiset{second} + multiset{n} + multiset{head}
    ensures rest + multiset{head} + multiset{second} + multiset{n} - multiset{n} == rest + multiset{head} + multiset{second}
  {
  }

  lemma MergeEnds(w0: Pool, w: Pool, w': Pool, rest: multiset<int>, head: int, tail: int, second: int, bytes: seq<byte>)
    requires Merged(w0, w, rest, head, tail, second, bytes)
    requires Live(w, tail) && Freed(LinkOn(w, tail, w.accs[second].next), w', second)
    ensures Hand(w0, w', rest, head, bytes) && Lens(w', head) == Lens(w, head) + Lens(w, w.accs[second].next)
  {
    hide Inv, Bytes, Lens, Extends, Tailed, PathFrom, LinkOn, Freed;
    LinkOnFacts(w0, w, rest, head, tail, second, bytes);
    var w1 := LinkOn(w, tail, w.accs[second].next);
    FreedHeld(w1, w', second);
    MultisetBack(rest + multiset{head}, second);
    forall z | z in rest ensures Live(w', z) && Bytes(w', z) == Bytes(w0, z) && Lens(w', z) == Lens(w0, z) {
      assert z in w'.held;
      FreedBytes(w1, w', second, z);
    }
    FreedBytes(w1, w', second, head);
  }

  // ---------- A longer last accessor ----------

  /** The last number is larger by n. */
  ghost function LastPlus(s: seq<nat>, n: nat): seq<nat> {
    if s == [] then [] else s[..|s| - 1] + [s[|s| - 1] + n]
  }

  /** Only the end `tail` of chains shows something else, namely `extra` more. */
  lemma {:induction false} EndGrows(w: Pool, w': Pool, tail: int, extra: seq<byte>, z: int)
    requires Linked(w) && Linked(w') && Live(w, z) && Live(w, tail) && w.accs[tail].next == NIL
    requires forall x | Live(w, x) ::
      (Live(w', x) && w'.accs[x].next == w.accs[x].next && Seg(w', x) == (if x == tail then Seg(w, x) + extra else Seg(w, x)))
    ensures Bytes(w', z) == (if tail in PathFrom(w, z) then Bytes(w, z) + extra else Bytes(w, z))
    decreases |PathFrom(w, z)|
  {
    hide Bytes, Lens, Seg, PathFrom;
    BytesStep(w, z);
    BytesStep(w', z);
    assert LinkedAt(w, z);
    var n := w.accs[z].next;
    NoBytes(w);
    NoBytes(w');
    NilPath(w);
    if n != NIL {
      EndGrows(w, w', tail, extra, n);
      OneByOne(Seg(w, z), Bytes(w, n), extra);
    }
  }

  lemma OneByOne(a: seq<byte>, b: seq<byte>, c: seq<byte>)
    ensures a + (b + c) == a + b + c
  {}

  lemma {:induction false} EndGrowsLens(w: Pool, w': Pool, tail: int, extra: seq<byte>, z: int)
    requires Linked(w) && Linked(w') && Live(w, z) && Live(w, tail) && w.accs[tail].next == NIL
    requires forall x | Live(w, x) ::
      (Live(w', x) && w'.accs[x].next == w.accs[x].next && Seg(w', x) == (if x == tail then Seg(w, x) + extra else Seg(w, x)))
    ensures Lens(w, z) != [] && Lens(w', z) == (if tail in PathFrom(w, z) then LastPlus(Lens(w, z), |extra|) else Lens(w, z))
    decreases |PathFrom(w, z)|
  {
    hide Bytes, Lens, Seg, LastPlus, PathFrom;
    BytesStep(w, z);
    BytesStep(w', z);
    assert LinkedAt(w, z);
    var n := w.accs[z].next;
    NoBytes(w);
    NoBytes(w');
    NilPath(w);
    LastPlusStep(|Seg(w, z)|, Lens(w, n), |extra|);
    if n != NIL { EndGrowsLens(w, w', tail, extra, n); }
  }

  lemma LastPlusStep(l: nat, s: seq<nat>, n: nat)
    ensures LastPlus([l] + s, n) == if s == [] then [l + n] else [l] + LastPlus(s, n)
  {}

  /** Chains that do not lead to that end show what they did. */
  lemma EndElse(w: Pool, w': Pool, tail: int, z: int)
    requires Linked(w) && Live(w, z) && tail !in PathFrom(w, z) && PathFrom(w', z) == PathFrom(w, z)
    requires forall x | Live(w, x) && x != tail :: Seg(w', x) == Seg(w, x)
    ensures Bytes(w', z) == Bytes(w, z) && Lens(w', z) == Lens(w, z)
  {
    hide Seg;
    forall y | y in PathFrom(w, z) ensures Seg(w', y) == Seg(w, y) { InPath(w, z, y); }
    BytesSame(w, w', PathFrom(w, z));
  }

  /** The second packet's first accessor fits behind the last one of the first packet, whose buffer
      is not shared: the buffer gets the bytes of both. */
  lemma MergeInPlace(w0: Pool, w: Pool, rest: multiset<int>, head: int, tail: int, second: int, bytes: seq<byte>, data: seq<byte>)
    requires Appending(w0, w, rest, head, tail, second, bytes) && head != NIL && second != NIL
    requires Live(w, tail) && 0 <= w.accs[tail].buffer < |w.bufs| && w.bufs[w.accs[tail].buffer].linkC == 1 && Live(w, second)
    requires w.accs[tail].length + w.accs[second].length <= w.size == |data|
    requires data[..w.accs[tail].length + w.accs[second].length] == Seg(w, tail) + Seg(w, second)
    ensures Merged(w0, Rewrite(w, tail, 0, w.accs[tail].length + w.accs[second].length, data), rest, head, tail, second, bytes)
    ensures MergedLens(w, Rewrite(w, tail, 0, w.accs[tail].length + w.accs[second].length, data), head, second)
  {
    hide Inv, Bytes, Lens, Tailed, PathFrom, Seg, Linked, Counted, Rewrite, Refs, Users;
    LinkedOf(w);
    CountedOf(w);
    OtherFirst(rest, head, second);
    TailedHead(w, head, tail);
    var length := w.accs[tail].length + w.accs[second].length;
    var w' := Rewrite(w, tail, 0, length, data);
    RewriteKeeps(w, tail, 0, length, data);
    LinkedOf(w');
    StepFacts(w, tail);
    StepFacts(w, second);
    forall x | Live(w, x) ensures Live(w', x) && w'.accs[x].next == w.accs[x].next && PathFrom(w', x) == PathFrom(w, x)
      && Seg(w', x) == (if x == tail then Seg(w, x) + Seg(w, second) else Seg(w, x))
    {
      RewriteSets(w, tail, 0, length, data, x);
      RewriteHere(w, tail, length, data, x);
      if x != tail { RewriteSeg(w, tail, 0, length, data, x); }
    }
    RewriteHere(w, tail, length, data, tail);
    MergedFrom(w0, w, w', rest, head, tail, second, bytes);
  }

  /** The last piece of the first packet is longer by the first one of the second packet. */
  ghost predicate MergedLens(w: Pool, w': Pool, head: int, second: int) {
    && Live(w, second) && 0 <= second < |w'.accs| && w'.accs[second].next == w.accs[second].next
    && Lens(w, head) != [] && Lens(w', head) == LastPlus(Lens(w, head), w.accs[second].length)
    && Lens(w, second) == [w.accs[second].length] + Lens(w', w.accs[second].next)
  }

  lemma CountedOf(w: Pool)
    requires Inv(w)
    ensures Counted(w)
  {
  }

  lemma RewriteHere(w: Pool, tail: int, length: nat, data: seq<byte>, x: int)
    requires Live(w, tail) && 0 <= w.accs[tail].buffer < |w.bufs| && Live(w, x) && length <= |data|
    ensures var w' := Rewrite(w, tail, 0, length, data);
      && Live(w', x) && w'.accs[x].next == w.accs[x].next && w'.accs[x].linkC == w.accs[x].linkC
      && w'.held == w.held && w'.path == w.path && |w'.accs| == |w.accs| && (x == tail ==> Seg(w', x) == data[..length])
      && w'.fa == w.fa && w'.fb == w.fb && forall z :: Live(w', z) ==> Live(w, z)
  {
  }

  /** Whatever way the end of the chain got longer. */
  lemma MergedFrom(w0: Pool, w: Pool, w': Pool, rest: multiset<int>, head: int, tail: int, second: int, bytes: seq<byte>)
    requires Appending(w0, w, rest, head, tail, second, bytes) && head != NIL && second != NIL && Live(w, tail)
    requires Inv(w') && w'.held == w.held && Live(w', tail) && w'.accs[tail].linkC == 1
    requires forall x | Live(w, x) ::
      (Live(w', x) && w'.accs[x].next == w.accs[x].next && PathFrom(w', x) == PathFrom(w, x)
       && Seg(w', x) == (if x == tail then Seg(w, x) + Seg(w, second) else Seg(w, x)))
    requires forall z | Live(w', z) :: Live(w, z) || tail !in PathFrom(w', z)
    requires Live(w, second)
    ensures Merged(w0, w', rest, head, tail, second, bytes) && MergedLens(w, w', head, second)
  {
    hide Inv, Bytes, Lens, PathFrom, Seg, Linked, LastPlus;
    LinkedOf(w);
    LinkedOf(w');
    OtherFirst(rest, head, second);
    var n := w.accs[second].next;
    var others := rest + multiset{second};
    TailNotIn(w, head, tail, others, second);
    TailElse(w, second, tail);
    StepFacts(w, second);
    forall z | z in rest ensures Live(w', z) && Bytes(w', z) == Bytes(w0, z) && Lens(w', z) == Lens(w0, z) {
      TailNotIn(w, head, tail, others, z);
      EndElse(w, w', tail, z);
    }
    TailedHead(w, head, tail);
    EndGrows(w, w', tail, Seg(w, second), head);
    EndGrowsLens(w, w', tail, Seg(w, second), head);
    if n != NIL { EndElse(w, w', tail, n); } else { NoBytes(w); NoBytes(w'); }
    assert Bytes(w, head) + (Seg(w, second) + Bytes(w, n)) == Bytes(w, head) + Seg(w, second) + Bytes(w, n);
    assert rest + One(head) + One(second) == rest + multiset{head} + multiset{second};
  }
}
