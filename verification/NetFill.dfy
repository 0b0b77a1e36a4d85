/** Chains of fresh buffers, and copying bytes into them.
    Nobody else shows the buffers of such a chain, so a write into one of its accessors is
    seen through that chain alone. */
module NetFill {
  import opened Storage
  import opened NetPool
  import opened NetSteps
  import opened NetLinks
  import opened NetChains
  import opened NetHands

  /** Each accessor of this chain has one holder, and its buffer one accessor. */
  ghost predicate Writable(w: Pool, head: int) {
    forall y | y in PathFrom(w, head) ::
      Live(w, y) && 0 <= w.accs[y].buffer < |w.bufs| && w.bufs[w.accs[y].buffer].linkC == 1 && w.accs[y].linkC == 1
  }

  // ---------- bf_memreq ----------

  lemma TakeBeside(w: Pool, n: nat)
    requires Inv(w) && w.fb != [] && n <= w.size
    ensures CanTake(w, n) && Beside(w, Take(w, n), w.fb[0]) && |Seg(Take(w, n), w.fb[0])| == n
    ensures Take(w, n).fa == w.fa && |Take(w, n).fb| == |w.fb| - 1
  {
    TakeKeeps(w, n);
    hide Inv, Take, Extends;
    TakeResult(w, n);
    TakeFrame(w, n, w.fb[0]);
    TakenSeg(w, n);
  }

  lemma TakenSeg(w: Pool, n: nat)
    requires Inv(w) && CanTake(w, n)
    ensures |Seg(Take(w, n), w.fb[0])| == n
  {
    InvParts(w);
    TakeResult(w, n);
  }

  lemma TakeWritable(w: Pool, n: nat, head: int)
    requires CanTake(w, n) && Writable(w, head) && (forall y | y in PathFrom(w, head) :: Live(w, y)) && head != w.fb[0]
    ensures Writable(Take(w, n), head) && Writable(Take(w, n), w.fb[0])
  {
    TakeResult(w, n);
    TakeFrame(w, n, head);
    forall y | y in PathFrom(Take(w, n), head)
      ensures Live(Take(w, n), y) && 0 <= Take(w, n).accs[y].buffer < |w.bufs| && Take(w, n).bufs[Take(w, n).accs[y].buffer].linkC == 1
      ensures Take(w, n).accs[y].linkC == 1
    {
      TakeFrame(w, n, y);
    }
  }

  lemma JoinWritable(w: Pool, x: int, y: int, head: int)
    requires Live(w, x) && |w.path| == |w.accs| && w.accs[x].next == NIL && y != NIL && x in PathFrom(w, head)
    requires Writable(w, head) && Writable(w, y)
    ensures Writable(Join(w, x, y), head)
  {
    JoinHeld(w, x, y);
    JoinFrame(w, x, y, head);
    forall z | z in PathFrom(Join(w, x, y), head)
      ensures var w' := Join(w, x, y);
        Live(w', z) && 0 <= w'.accs[z].buffer < |w'.bufs| && w'.bufs[w'.accs[z].buffer].linkC == 1 && w'.accs[z].linkC == 1
    {
      JoinFrame(w, x, y, z);
    }
  }

  // ---------- Writing into a chain ----------

  function Splice(base: seq<byte>, at: nat, block: seq<byte>): (r: seq<byte>)
    requires at + |block| <= |base|
    ensures |r| == |base|
  {
    base[..at] + block + base[at + |block|..]
  }

  /** memcpy into the part of its buffer that accessor `x` shows. */
  function WriteAt(w: Pool, x: int, at: nat, block: seq<byte>): Pool
    requires Live(w, x) && 0 <= w.accs[x].buffer < |w.bufs|
    requires w.accs[x].offset + at + |block| <= |w.bufs[w.accs[x].buffer].data|
  {
    var b := w.accs[x].buffer;
    w.(bufs := w.bufs[b := w.bufs[b].(data := Splice(w.bufs[b].data, w.accs[x].offset + at, block))])
  }

  ghost predicate CanWrite(w: Pool, x: int, at: nat, n: nat) {
    && Live(w, x) && 0 <= w.accs[x].buffer < |w.bufs| && w.bufs[w.accs[x].buffer].linkC == 1
    && w.accs[x].offset + w.accs[x].length <= |w.bufs[w.accs[x].buffer].data| && at + n <= w.accs[x].length
  }

  lemma WriteKeeps(w: Pool, x: int, at: nat, block: seq<byte>)
    requires Inv(w) && CanWrite(w, x, at, |block|)
    ensures Inv(WriteAt(w, x, at, block))
  {
    var b := w.accs[x].buffer;
    assert |w.bufs[b].data| == w.size;
    RewriteKeeps(w, x, w.accs[x].offset, w.accs[x].length, Splice(w.bufs[b].data, w.accs[x].offset + at, block));
    assert w.accs[x := w.accs[x].(offset := w.accs[x].offset, length := w.accs[x].length)] == w.accs;
  }

  lemma WriteSeg(w: Pool, x: int, at: nat, block: seq<byte>, z: int)
    requires Inv(w) && CanWrite(w, x, at, |block|) && Live(w, z)
    ensures |Seg(w, x)| == w.accs[x].length
    ensures Seg(WriteAt(w, x, at, block), z) == if z == x then Splice(Seg(w, x), at, block) else Seg(w, z)
  {
    if z != x { OnlyUser(w, x, z); }
  }

  lemma WriteFrame(w: Pool, x: int, at: nat, block: seq<byte>)
    requires CanWrite(w, x, at, |block|)
    ensures var w' := WriteAt(w, x, at, block);
      && w' == w.(bufs := w'.bufs) && |w'.bufs| == |w.bufs|
      && (forall z :: PathFrom(w', z) == PathFrom(w, z) && (Live(w', z) <==> Live(w, z)))
      && (forall b | 0 <= b < |w.bufs| :: w'.bufs[b].linkC == w.bufs[b].linkC)
  {
  }

  /** What a write does to a chain that shows the accessor. */
  lemma {:induction false} WriteBytes(w: Pool, x: int, at: nat, block: seq<byte>, z: int)
    requires Inv(w) && CanWrite(w, x, at, |block|) && Live(w, z)
    ensures |Bytes(WriteAt(w, x, at, block), z)| == |Bytes(w, z)|
    ensures x !in PathFrom(w, z) ==> Bytes(WriteAt(w, x, at, block), z) == Bytes(w, z)
    ensures x in PathFrom(w, z) ==>
      && |Bytes(w, x)| <= |Bytes(w, z)| && at + |block| <= |Bytes(w, x)|
      && Bytes(WriteAt(w, x, at, block), z) == Splice(Bytes(w, z), |Bytes(w, z)| - |Bytes(w, x)| + at, block)
    decreases |PathFrom(w, z)|
  {
    hide Inv, WriteAt, Seg, Bytes, Lens, Splice;
    var w' := WriteAt(w, x, at, block);
    WriteKeeps(w, x, at, block);
    WriteFrame(w, x, at, block);
    WriteSeg(w, x, at, block, z);
    StepFacts(w, z);
    StepFacts(w', z);
    StepFacts(w, x);
    var n := w.accs[z].next;
    PathStep(w, z);
    if n != NIL { WriteBytes(w, x, at, block, n); } else { NoBytes(w); NoBytes(w'); }
    SpliceHead(Seg(w, z), Bytes(w, n), at, block);
    if x in PathFrom(w, n) && at + |block| <= |Bytes(w, x)| <= |Bytes(w, n)| {
      SpliceTail(Seg(w, z), Bytes(w, n), |Bytes(w, n)| - |Bytes(w, x)| + at, block);
    }
  }

  lemma PathStep(w: Pool, z: int)
    requires Inv(w) && Live(w, z)
    ensures PathFrom(w, z) == [z] + PathFrom(w, w.accs[z].next) && z !in PathFrom(w, w.accs[z].next)
    ensures forall x :: x in PathFrom(w, z) <==> x == z || x in PathFrom(w, w.accs[z].next)
    ensures w.accs[z].next == NIL ==> PathFrom(w, w.accs[z].next) == []
  {
    assert LinkedAt(w, z);
    NoLoop(w, z);
  }

  lemma SpliceHead(p: seq<byte>, q: seq<byte>, at: nat, block: seq<byte>)
    ensures at + |block| <= |p| ==> Splice(p, at, block) + q == Splice(p + q, at, block)
  {
    if at + |block| <= |p| {
      assert (p + q)[at + |block|..] == p[at + |block|..] + q;
    }
  }

  lemma SpliceTail(p: seq<byte>, q: seq<byte>, at: nat, block: seq<byte>)
    requires at + |block| <= |q|
    ensures p + Splice(q, at, block) == Splice(p + q, |p| + at, block)
  {
    assert (p + q)[..|p| + at] == p + q[..at];
  }
}
