/** The packet buffer operations of the TCP/IP server, in place: the pool and its start,
    duplicating, freeing and cutting. */
module NetBuf {
  import opened Storage
  import opened NetPool
  import opened NetSteps
  import opened NetLinks
  import opened NetChains
  import opened NetHands

  class BufPool {
    const size: nat
    var accs: seq<Acc>
    var bufs: seq<Buf>
    var accFree: int
    var bufFree: int
    // Who holds what outside, what is on the free lists, and the chain of every accessor.
    ghost var held: multiset<int>
    ghost var fa: seq<int>
    ghost var fb: seq<int>
    ghost var path: seq<seq<int>>

    ghost function Model(): Pool
      reads this
    {
      Pool(accs, bufs, accFree, bufFree, size, held, fa, fb, path)
    }

    ghost predicate Valid()
      reads this
    {
      size > 0 && Inv(Model())
    }

    /** bf_init: all accessors on the free list, then one moved to the buffer free list for each
        buffer. */
    constructor (accNr: nat, bufNr: nat, size: nat)
      requires bufNr <= accNr && size > 0
      ensures Valid() && this.size == size && held == multiset{} && |accs| == accNr && |bufs| == bufNr
      ensures |fa| == accNr - bufNr && |fb| == bufNr
    {
      this.size := size;
      accs, bufs, path := [], [], [];
      accFree, bufFree := NIL, NIL;
      held, fa, fb := multiset{}, [], [];
      new;
      hide FreeOk, BufsOk;
      NothingYet(Model());
      var i := 0;
      while i < accNr
        invariant i <= accNr && this.size == size && Idle(Model()) && |accs| == i && |fa| == i && fb == [] && bufs == []
      {
        OneMore(Model());
        fa := [i] + fa;
        path := path + [[]];
        accs := accs + [Acc(0, 0, 0, NIL, accFree)];
        accFree := i;
        i := i + 1;
      }
      i := 0;
      while i < bufNr
        invariant i <= bufNr && this.size == size && Idle(Model()) && |accs| == accNr && |fa| == accNr - i && |fb| == i && |bufs| == i
      {
        FirstIdle(Model());
        OneBuffer(Model());
        var acc := accFree;
        accFree := accs[acc].next;
        bufs := bufs + [Buf(0, Blank(size))];
        accs := accs[acc := Acc(0, accs[acc].offset, accs[acc].length, i, bufFree)];
        bufFree := acc;
        fb := [acc] + fb;
        fa := fa[1..];
        i := i + 1;
      }
      IdleInv(Model());
    }

    /** Let the bookkeeping of the proof follow a step of the arrays. */
    ghost method Follow(w: Pool)
      modifies `held, `fa, `fb, `path
      ensures held == w.held && fa == w.fa && fb == w.fb && path == w.path
    {
      held, fa, fb, path := w.held, w.fa, w.fb, w.path;
    }

    /** bf_dupacc: a second accessor for the bytes from `a` on. */
    method DupAcc(a: int) returns (x: int)
      requires Valid() && Live(Model(), a) && fa != []
      modifies this
      ensures CanDup(old(Model()), a) && Model() == Dup(old(Model()), a) && x == old(fa)[0]
      ensures Valid() && Extends(old(Model()), Model()) && Bytes(Model(), x) == Bytes(old(Model()), a)
    {
      hide Inv, Extends, Bytes, Lens;
      ghost var w := Model();
      DupKeeps(w, a);
      FirstFree(w);
      x := accFree;
      accFree := accs[x].next;
      var acc := accs[a];
      accs := accs[x := acc.(linkC := 1)];
      if acc.next != NIL { accs := accs[acc.next := accs[acc.next].(linkC := accs[acc.next].linkC + 1)]; }
      bufs := bufs[acc.buffer := bufs[acc.buffer].(linkC := bufs[acc.buffer].linkC + 1)];
      Follow(Dup(w, a));
    }

    /** bf_afree: give up a handle, and everything that only it led to. */
    method AFree(a: int)
      requires Valid() && (a != NIL ==> a in held)
      modifies this
      ensures Valid() && Freed(old(Model()), Model(), a)
    {
      hide Inv, Freeing, Freed, Reclaim;
      var acc := a;
      ghost var w0 := Model();
      FreeingStarts(w0, a);
      while acc != NIL
        invariant size > 0 && Freeing(w0, Model(), a, acc)
        decreases |PathFrom(Model(), acc)|, acc != NIL
      {
        ghost var w := Model();
        FreeingStep(w0, w, a, acc);
        if accs[acc].linkC - 1 > 0 {
          accs := accs[acc := accs[acc].(linkC := accs[acc].linkC - 1)];
          Follow(Unhold(w, acc));
          return;
        }
        acc := Retire(acc);
      }
      FreeingEnds(w0, Model(), a);
    }

    /** The part of bf_afree for an accessor whose last handle goes: put it on a free list. */
    method Retire(acc: int) returns (nextAcc: int)
      requires Live(Model(), acc) && 0 <= accs[acc].buffer < |bufs| && bufs[accs[acc].buffer].linkC > 0
      modifies this
      ensures Model() == Reclaim(old(Model()), acc) && nextAcc == old(accs)[acc].next
    {
      hide Reclaim;
      ghost var w := Model();
      ReclaimFields(w, acc);
      accs := accs[acc := accs[acc].(linkC := 0)];
      var buf := accs[acc].buffer;
      bufs := bufs[buf := bufs[buf].(linkC := bufs[buf].linkC - 1)];
      nextAcc := accs[acc].next;
      if bufs[buf].linkC > 0 {
        accs := accs[acc := accs[acc].(buffer := NIL, next := accFree)];
        accFree := acc;
      } else {
        accs := accs[acc := accs[acc].(next := bufFree)];
        bufFree := acc;
      }
      Follow(Reclaim(w, acc));
    }

    /** bf_bufsize: the number of bytes of a chain. */
    method BufSize(a: int) returns (n: nat)
      requires Valid() && (a != NIL ==> Live(Model(), a))
      ensures n == |Bytes(Model(), a)|
    {
      hide Inv, Bytes, Lens, Seg;
      n := 0;
      var acc := a;
      NoBytes(Model());
      while acc != NIL
        invariant (acc != NIL ==> Live(Model(), acc)) && n + |Bytes(Model(), acc)| == |Bytes(Model(), a)|
        decreases |PathFrom(Model(), acc)|, acc != NIL
      {
        StepFacts(Model(), acc);
        n := n + accs[acc].length;
        acc := accs[acc].next;
      }
    }

    /** Duplicate an accessor and give up the copy's link: bf_dupacc, then bf_afree of acc_next.
        The link is cleared before the rest of the chain is given up, not after. */
    method CopyAcc(a: int) returns (x: int)
      requires Valid() && Live(Model(), a) && fa != []
      modifies this
      ensures CanDup(old(Model()), a) && Model() == Lone(old(Model()), a) && x == old(fa)[0]
      ensures Valid() && Beside(old(Model()), Model(), x) && Seg(Model(), x) == Seg(old(Model()), a)
      ensures accs[x] == old(accs)[a].(linkC := 1, next := NIL) && |fa| == |old(fa)| - 1 && fb == old(fb)
    {
      hide Inv, Extends, Bytes, Lens, Dup, Cut, Freed, Beside, Seg, Unhold;
      ghost var w := Model();
      LoneBeside(w, a);
      CutUnhold(w, a);
      x := DupAcc(a);
      ghost var d := Model();
      var rest := accs[x].next;
      accs := accs[x := accs[x].(next := NIL)];
      CutIs(d, x);
      Follow(Cut(d, x));
      assert Model() == Cut(d, x);
      AFree(rest);
      FreedMeans(Cut(d, x), Model(), rest);
    }

    /** Link the end of a chain to another one. */
    method Link(x: int, y: int)
      requires Live(Model(), x)
      modifies this
      ensures Model() == Join(old(Model()), x, y) && fa == old(fa) && fb == old(fb)
    {
      ghost var w := Model();
      accs := accs[x := accs[x].(next := y)];
      Follow(Join(w, x, y));
    }

    /** bf_cut: the bytes from `offset` on, `length` of them, without touching the chain itself. */
    method CutOut(data0: int, offset0: nat, length0: nat) returns (head: int)
      requires Valid() && (if data0 == NIL then offset0 == 0 && length0 == 0 else Live(Model(), data0))
      requires length0 > 0 ==> offset0 + length0 <= |Bytes(Model(), data0)|
      requires |fa| >= |PathFrom(Model(), data0)|
      modifies this
      ensures Valid()
      ensures data0 == NIL ==> head == NIL && Model() == old(Model())
      ensures data0 != NIL ==> CutResult(old(Model()), Model(), head, data0, offset0, length0)
      ensures fb == old(fb) && |fa| + |PathFrom(old(Model()), data0)| >= |old(fa)|
    {
      hide Inv, Bytes, Lens, Seg, Extends, Lone, Beside, Grown, Join, SetView;
      var data := data0;
      var offset: nat := offset0;
      var length: nat := length0;
      if data == NIL && offset == 0 && length == 0 { return NIL; }
      ghost var w0 := Model();
      StepFacts(w0, data);
      if length == 0 {
        head := CopyAcc(data);
        ghost var w1 := Model();
        BesideSays(w0, w1, head);
        BesideView(w0, w1, head, 0, 0);
        accs := accs[head := accs[head].(length := 0)];
        SetViewIs(w1, head, w1.accs[head].offset, 0);
        BesideGrown(w0, Model(), head);
        GrownResult(w0, Model(), head);
        return;
      }
      NoBytes(w0);
      while data != NIL && offset >= accs[data].length
        invariant Model() == w0 && (data != NIL ==> Live(w0, data)) && offset + length <= |Bytes(w0, data)|
        invariant Bytes(w0, data)[offset..offset + length] == Bytes(w0, data0)[offset0..offset0 + length0]
        invariant |PathFrom(w0, data)| <= |fa|
        decreases |PathFrom(w0, data)|
      {
        SkipStep(w0, data, offset, length);
        offset := offset - accs[data].length;
        data := accs[data].next;
      }
      FirstOf(w0, data, offset, length);
      var next := accs[data].next;
      head, length := CutFirst(data, offset, length);
      var _ := CutRest(w0, head, head, next, length);
      GrownResult(w0, Model(), head);
    }

    /** The head of what bf_cut returns: part of one accessor. */
    method CutFirst(data: int, offset: nat, length0: nat) returns (head: int, length: nat)
      requires Valid() && Live(Model(), data) && fa != [] && offset < accs[data].length && length0 > 0
      modifies this
      ensures Valid() && Grown(old(Model()), Model(), head, head) && |fa| == |old(fa)| - 1 && fb == old(fb)
      ensures length == length0 - TakeOf(old(Model()), data, offset, length0) && |Seg(old(Model()), data)| == old(accs)[data].length
      ensures Bytes(Model(), head) == Seg(old(Model()), data)[offset..offset + TakeOf(old(Model()), data, offset, length0)]
    {
      hide Inv, Bytes, Lens, Seg, Extends, Lone, Beside, Grown, SetView;
      ghost var w0 := Model();
      ghost var take := TakeOf(w0, data, offset, length0);
      head := CopyAcc(data);
      ghost var w1 := Model();
      BesideSays(w0, w1, head);
      BesideView(w0, w1, head, offset, take);
      length := length0;
      accs := accs[head := accs[head].(offset := accs[head].offset + offset, length := accs[head].length - offset)];
      if length >= accs[head].length {
        length := length - accs[head].length;
      } else {
        accs := accs[head := accs[head].(length := length)];
        length := 0;
      }
      SetViewIs(w1, head, w1.accs[head].offset + offset, take);
      assert Model() == SetView(w1, head, w1.accs[head].offset + offset, take);
      BesideGrown(w0, Model(), head);
    }

    /** The rest of what bf_cut returns: copies of whole accessors, and of part of one. */
    method CutRest(ghost w0: Pool, head: int, tail0: int, data0: int, length0: nat) returns (tail: int)
      requires Valid() && Grown(w0, Model(), head, tail0) && (data0 == NIL || Live(w0, data0)) && length0 <= |Bytes(w0, data0)|
      requires |fa| >= |PathFrom(w0, data0)|
      modifies this
      ensures Valid() && Grown(w0, Model(), head, tail) && fb == old(fb) && |fa| + |PathFrom(w0, data0)| >= |old(fa)|
      ensures Bytes(Model(), head) == Bytes(old(Model()), head) + Bytes(w0, data0)[..length0]
    {
      hide Inv, Bytes, Lens, Seg, Extends, Lone, Beside, Grown, Join, SetView;
      var data := data0;
      var length: nat := length0;
      tail := tail0;
      NoBytes(w0);
      ghost var done := Bytes(Model(), head);
      GrownSays(w0, Model(), head, tail);
      while data != NIL && length != 0 && length >= accs[data].length
        invariant Valid() && Grown(w0, Model(), head, tail) && Live(Model(), tail) && fb == old(fb)
        invariant |fa| + |PathFrom(w0, data0)| == |old(fa)| + |PathFrom(w0, data)|
        invariant (data == NIL || (Live(w0, data) && Live(Model(), data) && accs[data].length == w0.accs[data].length))
        invariant length <= |Bytes(w0, data)| && |fa| >= |PathFrom(w0, data)|
        invariant done + Bytes(w0, data0)[..length0] == Bytes(Model(), head) + Bytes(w0, data)[..length]
        decreases |PathFrom(w0, data)|, data != NIL
      {
        ghost var w := Model();
        StepFacts(w0, data);
        SeenBy(w0, w, head, tail, data);
        var x := CopyAcc(data);
        GrowStep(w0, w, Model(), head, tail, x);
        CutStep(w0, data, length, Bytes(w, head));
        Link(tail, x);
        tail := x;
        GrownSays(w0, Model(), head, tail);
        var l := accs[data].length;
        data := accs[data].next;
        length := length - l;
      }
      if length != 0 {
        ghost var w := Model();
        StepFacts(w0, data);
        SeenBy(w0, w, head, tail, data);
        var x := CopyAcc(data);
        ghost var w1 := Model();
        BesideSays(w, w1, x);
        BesideView(w, w1, x, 0, length);
        accs := accs[x := accs[x].(length := length)];
        SetViewIs(w1, x, w1.accs[x].offset, length);
        GrowStep(w0, w, Model(), head, tail, x);
        Link(tail, x);
        tail := x;
        GrownSays(w0, Model(), head, tail);
      }
    }
  }

  /** How much of a wanted stretch the first accessor has. */
  function TakeOf(w: Pool, data: int, offset: nat, length: nat): nat
    requires Live(w, data) && offset <= w.accs[data].length
  {
    if length < w.accs[data].length - offset then length else w.accs[data].length - offset
  }

  lemma FirstOf(w: Pool, data: int, offset: nat, length: nat)
    requires Inv(w) && Live(w, data) && offset < w.accs[data].length && offset + length <= |Bytes(w, data)|
    ensures var take, next := TakeOf(w, data, offset, length), w.accs[data].next;
      && |Seg(w, data)| == w.accs[data].length && (next == NIL || Live(w, next)) && length - take <= |Bytes(w, next)|
      && |PathFrom(w, next)| == |PathFrom(w, data)| - 1
      && Bytes(w, data)[offset..offset + length] == Seg(w, data)[offset..offset + take] + Bytes(w, next)[..length - take]
  {
    hide Bytes, Lens, Seg;
    StepFacts(w, data);
  }

  lemma CutStep(w: Pool, data: int, length: nat, done: seq<byte>)
    requires Inv(w) && Live(w, data) && w.accs[data].length <= length <= |Bytes(w, data)|
    ensures var l, next := w.accs[data].length, w.accs[data].next;
      && length - l <= |Bytes(w, next)| && (next == NIL || Live(w, next)) && |PathFrom(w, next)| == |PathFrom(w, data)| - 1
      && done + Bytes(w, data)[..length] == done + Seg(w, data) + Bytes(w, next)[..length - l]
  {
    hide Bytes, Lens, Seg;
    StepFacts(w, data);
    assert Bytes(w, data)[..length] == Seg(w, data) + Bytes(w, w.accs[data].next)[..length - w.accs[data].length];
  }

  lemma GrownSays(w0: Pool, w: Pool, head: int, tail: int)
    requires Grown(w0, w, head, tail)
    ensures Inv(w0) && Inv(w) && Live(w, tail) && Extends(w0, w)
    ensures forall y | Live(w0, y) :: Live(w, y) && w.accs[y].(linkC := 0) == w0.accs[y].(linkC := 0)
  {
  }

  lemma SeenBy(w0: Pool, w: Pool, head: int, tail: int, y: int)
    requires Grown(w0, w, head, tail) && Live(w0, y)
    ensures Live(w, y) && w.accs[y].(linkC := 0) == w0.accs[y].(linkC := 0) && Seg(w, y) == Seg(w0, y)
  {
  }

  lemma BesideSays(w: Pool, w1: Pool, x: int)
    requires Beside(w, w1, x)
    ensures Inv(w1) && Live(w1, x) && !Live(w, x)
  {
  }

  lemma BesideGrown(w: Pool, w1: Pool, x: int)
    requires Inv(w) && Beside(w, w1, x)
    ensures Inv(w1) && Grown(w, w1, x, x) && Bytes(w1, x) == Seg(w1, x)
  {
    hide Inv, Extends, Seg, Bytes, Lens;
    GrowFirst(w, w1, x);
  }

  lemma GrownResult(w0: Pool, w: Pool, head: int)
    requires exists tail :: Grown(w0, w, head, tail)
    ensures Extends(w0, w) && Live(w, head) && !Live(w0, head) && w.held == w0.held + multiset{head}
  {
    hide Inv, Extends;
    var tail :| Grown(w0, w, head, tail);
  }

  lemma SetViewIs(w: Pool, x: int, offset: nat, length: nat)
    requires Live(w, x)
    ensures SetView(w, x, offset, length) == w.(accs := w.accs[x := w.accs[x].(offset := offset, length := length)])
  {
  }

  lemma CutIs(d: Pool, x: int)
    requires Live(d, x) && |d.path| == |d.accs|
    ensures var c := Cut(d, x); c == d.(accs := d.accs[x := d.accs[x].(next := NIL)], path := c.path, held := c.held)
  {
  }

  lemma FreedMeans(w0: Pool, w: Pool, a: int)
    requires Freed(w0, w, a)
    ensures if a == NIL then w == w0 else Live(w0, a) && (w0.accs[a].linkC > 1 ==> w == Unhold(w0, a))
  {
  }

  /** `head` shows the wanted part of the chain of `data`; everything else is as it was. */
  ghost predicate CutResult(w0: Pool, w: Pool, head: int, data: int, offset: nat, length: nat) {
    && Extends(w0, w) && Live(w, head) && !Live(w0, head) && w.held == w0.held + multiset{head}
    && (length > 0 ==> offset + length <= |Bytes(w0, data)|)
    && Bytes(w, head) == (if length == 0 then [] else Bytes(w0, data)[offset..offset + length])
  }

  // ---------- bf_init ----------

  function Blank(n: nat): (s: seq<byte>)
    ensures |s| == n
  {
    seq(n, _ => 0)
  }

  /** Nothing is in use. */
  ghost predicate Idle(w: Pool) {
    && Sane(w) && FreeOk(w) && BufsOk(w) && w.held == multiset{}
    && (forall x :: 0 <= x < |w.accs| ==> w.accs[x].linkC == 0) && (forall b :: 0 <= b < |w.bufs| ==> w.bufs[b].linkC == 0)
  }

  lemma NothingYet(w: Pool)
    requires w.accs == [] && w.bufs == [] && w.path == [] && w.fa == [] && w.fb == [] && w.held == multiset{}
    requires w.accFree == NIL && w.bufFree == NIL
    ensures Idle(w)
  {
  }

  lemma IdleInv(w: Pool)
    requires Idle(w)
    ensures Inv(w)
  {
    hide FreeOk, BufsOk;
    forall b | 0 <= b < |w.bufs| ensures |Users(w, b)| == 0 { assert Users(w, b) == {}; }
  }

  lemma {:induction false} ListGrows(a: seq<Acc>, b: seq<Acc>, head: int, list: seq<int>)
    requires IsList(a, head, list) && |a| <= |b| && forall x | 0 <= x < |a| :: b[x].next == a[x].next
    ensures IsList(b, head, list)
    decreases list
  {
    if list != [] { ListGrows(a, b, a[head].next, list[1..]); }
  }

  lemma OneMore(w: Pool)
    requires Idle(w) && w.fb == [] && w.bufs == []
    ensures Idle(w.(accs := w.accs + [Acc(0, 0, 0, NIL, w.accFree)], accFree := |w.accs|, fa := [|w.accs|] + w.fa, path := w.path + [[]]))
  {
    var n := |w.accs|;
    var w' := w.(accs := w.accs + [Acc(0, 0, 0, NIL, w.accFree)], accFree := n, fa := [n] + w.fa, path := w.path + [[]]);
    ListRange(w.accs, w.accFree, w.fa);
    ListGrows(w.accs, w'.accs, w.accFree, w.fa);
    assert w'.fa[1..] == w.fa && w'.fa + w'.fb == [] + ([n] + w.fa) && w.fa + w.fb == [] + w.fa;
    InsertNoDup([], w.fa, n);
    hide IsList;
    assert BufsOk(w') && Sane(w');
    forall x | 0 <= x < |w'.accs| ensures Live(w', x) <==> !Free(w', x) {
      if x < n { assert Live(w, x) <==> !Free(w, x); }
    }
  }

  lemma FirstIdle(w: Pool)
    requires Idle(w) && w.fa != []
    ensures w.accFree == w.fa[0] && 0 <= w.accFree < |w.accs|
  {
  }

  function WithBuffer(w: Pool): Pool
    requires w.fa != [] && 0 <= w.fa[0] < |w.accs|
  {
    var x := w.fa[0];
    w.(bufs := w.bufs + [Buf(0, Blank(w.size))],
       accs := w.accs[x := Acc(0, w.accs[x].offset, w.accs[x].length, |w.bufs|, w.bufFree)],
       accFree := w.accs[x].next, bufFree := x, fb := [x] + w.fb, fa := w.fa[1..])
  }

  lemma OneBuffer(w: Pool)
    requires Idle(w) && w.fa != []
    ensures 0 <= w.fa[0] < |w.accs| && Idle(WithBuffer(w))
  {
    var x := w.fa[0];
    var w' := WithBuffer(w);
    assert Sane(w');
    OneBufferFree(w);
    hide FreeOk, IsList;
    forall y, b ensures SpareAt(w', y, b) <==> SpareAt(w, y, b) || (y == x && b == |w.bufs|) {
      if y in w.fb { FreeBufDead(w, y); }
    }
    forall y | y in w'.fb ensures 0 <= y < |w'.accs| && SpareAt(w', y, w'.accs[y].buffer) {
      if y in w.fb { FreeBufDead(w, y); }
    }
    forall b | 0 <= b < |w'.bufs| && w'.bufs[b].linkC == 0 ensures exists y :: SpareAt(w', y, b) {
      if b < |w.bufs| {
        var y :| SpareAt(w, y, b);
        assert SpareAt(w', y, b);
      } else {
        assert SpareAt(w', x, b);
      }
    }
  }

  lemma OneBufferFree(w: Pool)
    requires FreeOk(w) && w.fa != [] && 0 <= w.fa[0] < |w.accs| && !Live(w, w.fa[0])
    ensures FreeOk(WithBuffer(w))
  {
    var x := w.fa[0];
    var w' := WithBuffer(w);
    assert w.fa + w.fb == [x] + (w'.fa + w.fb) && w'.fb[1..] == w.fb;
    assert forall i :: 0 <= i < |w'.fa + w.fb| ==> (w'.fa + w.fb)[i] == (w.fa + w.fb)[i + 1];
    ListRange(w.accs, w.accFree, w.fa);
    ListRange(w.accs, w.bufFree, w.fb);
    NotTwice(w.fa, w.fb);
    InsertNoDup(w'.fa, w.fb, x);
    ListFrame(w.accs, w'.accs, w'.accFree, w'.fa);
    ListFrame(w.accs, w'.accs, w.bufFree, w.fb);
    forall y | 0 <= y < |w'.accs| ensures Live(w', y) <==> !Free(w', y) {
      assert Live(w, y) <==> !Free(w, y);
      assert y in w.fa <==> y == x || y in w'.fa;
    }
  }

  lemma NotTwice(p: seq<int>, q: seq<int>)
    requires NoDup(p + q) && p != []
    ensures p[0] !in p[1..] && p[0] !in q && NoDup(p[1..] + q)
  {
    var s, t := p + q, p[1..] + q;
    assert forall i :: 0 <= i < |t| ==> t[i] == s[i + 1];
    assert s[0] == p[0];
    forall i | 0 <= i < |p[1..]| ensures p[1..][i] != p[0] { assert t[i] == p[1..][i]; }
    forall i | 0 <= i < |q| ensures q[i] != p[0] { assert t[|p| - 1 + i] == q[i]; }
  }

  // ---------- bf_afree ----------

  /** On the way there, `acc` is a handle still to be given up. */
  ghost predicate Freeing(w0: Pool, w: Pool, a: int, acc: int) {
    && Inv(w) && Shrunk(w0, w) && (acc != NIL ==> acc in w.held)
    && w.held == w0.held - One(a) + One(acc)
    && |w.fa| >= |w0.fa| && |w.fb| >= |w0.fb|
    && (if a == NIL then acc == NIL && w == w0 else Live(w0, a) && (w0.accs[a].linkC > 1 ==> acc == a && w == w0))
  }

  lemma FreeingStarts(w0: Pool, a: int)
    requires Inv(w0) && (a != NIL ==> a in w0.held)
    ensures Freeing(w0, w0, a, a)
  {
    hide Inv;
    ShrunkRefl(w0);
    if a != NIL { HandleLive(w0, a); }
  }

  lemma FreeingStep(w0: Pool, w: Pool, a: int, acc: int)
    requires Freeing(w0, w, a, acc) && acc != NIL
    ensures Live(w, acc) && 0 <= w.accs[acc].buffer < |w.bufs| && w.bufs[w.accs[acc].buffer].linkC > 0
    ensures w.accs[acc].linkC > 1 ==> Inv(Unhold(w, acc)) && Freed(w0, Unhold(w, acc), a)
    ensures w.accs[acc].linkC <= 1 ==> Freeing(w0, Reclaim(w, acc), a, w.accs[acc].next)
    ensures |PathFrom(w, w.accs[acc].next)| < |PathFrom(w, acc)|
    ensures PathFrom(Reclaim(w, acc), w.accs[acc].next) == PathFrom(w, w.accs[acc].next)
  {
    hide Inv, Shrunk, Reclaim;
    HandleLive(w, acc);
    InvParts(w);
    BufferUsed(w, acc);
    ReclaimPath(w, acc);
    ReclaimFields(w, acc);
    if w.accs[acc].linkC > 1 { FreeingStops(w0, w, a, acc); } else { FreeingGoes(w0, w, a, acc); }
  }

  lemma FreeingStops(w0: Pool, w: Pool, a: int, acc: int)
    requires Freeing(w0, w, a, acc) && acc != NIL && Live(w, acc) && w.accs[acc].linkC > 1
    ensures Inv(Unhold(w, acc)) && Freed(w0, Unhold(w, acc), a)
  {
    hide Inv, Shrunk;
    UnholdKeeps(w, acc);
    UnholdShrunk(w, acc);
    ShrunkThen(w0, w, Unhold(w, acc));
    MultisetLess(w0.held - One(a), acc);
  }

  lemma MultisetLess(m: multiset<int>, x: int)
    ensures m + multiset{x} - multiset{x} == m
  {
  }

  lemma FreeingGoes(w0: Pool, w: Pool, a: int, acc: int)
    requires Freeing(w0, w, a, acc) && acc != NIL && Live(w, acc) && w.accs[acc].linkC <= 1
    requires 0 <= w.accs[acc].buffer < |w.bufs| && w.bufs[w.accs[acc].buffer].linkC > 0
    ensures Freeing(w0, Reclaim(w, acc), a, w.accs[acc].next)
  {
    hide Inv, Shrunk, Reclaim;
    ReclaimFields(w, acc);
    ReclaimKeeps(w, acc);
    ReclaimShrunk(w, acc);
    ShrunkThen(w0, w, Reclaim(w, acc));
    NextHeld(w, acc);
    MultisetLess(w0.held - One(a), acc);
  }

  lemma NextHeld(w: Pool, acc: int)
    requires Live(w, acc) && 0 <= w.accs[acc].buffer < |w.bufs| && w.bufs[w.accs[acc].buffer].linkC > 0
    ensures w.accs[acc].next != NIL ==> w.accs[acc].next in Reclaim(w, acc).held
  {
  }

  lemma FreeingEnds(w0: Pool, w: Pool, a: int)
    requires Freeing(w0, w, a, NIL)
    ensures Inv(w) && Freed(w0, w, a)
  {
    hide Inv, Shrunk;
  }

  lemma FirstFree(w: Pool)
    requires Inv(w) && w.fa != []
    ensures w.accFree == w.fa[0] && 0 <= w.accFree < |w.accs|
  {
  }

  lemma HandleLive(w: Pool, a: int)
    requires Inv(w) && a in w.held
    ensures Live(w, a) && LinkedAt(w, a) && (w.accs[a].next != NIL ==> Live(w, w.accs[a].next)) && a != NIL
  {
    assert LinkedAt(w, a);
  }

  lemma ShrunkRefl(w: Pool)
    ensures Shrunk(w, w)
  {
  }

  lemma UnholdShrunk(w: Pool, a: int)
    requires Live(w, a) && w.accs[a].linkC > 1
    ensures Shrunk(w, Unhold(w, a))
  {
  }

  lemma ReclaimFields(w: Pool, a: int)
    requires Live(w, a) && 0 <= w.accs[a].buffer < |w.bufs| && w.bufs[w.accs[a].buffer].linkC > 0
    ensures var w', acc, b := Reclaim(w, a), w.accs[a], w.accs[a].buffer;
      && w'.held == w.held - multiset{a} + (if acc.next == NIL then multiset{} else multiset{acc.next})
      && w'.bufs == w.bufs[b := w.bufs[b].(linkC := w.bufs[b].linkC - 1)]
      && w'.path == w.path && w'.size == w.size && |w'.fa| >= |w.fa| && |w'.fb| >= |w.fb|
      && (w.bufs[b].linkC > 1 ==> w'.accs == w.accs[a := Acc(0, acc.offset, acc.length, NIL, w.accFree)] && w'.accFree == a && w'.bufFree == w.bufFree)
      && (w.bufs[b].linkC <= 1 ==> w'.accs == w.accs[a := acc.(linkC := 0, next := w.bufFree)] && w'.bufFree == a && w'.accFree == w.accFree)
  {
  }

  lemma ReclaimPath(w: Pool, a: int)
    requires Inv(w) && Live(w, a)
    ensures |PathFrom(w, w.accs[a].next)| < |PathFrom(w, a)|
  {
    assert LinkedAt(w, a);
  }
}
