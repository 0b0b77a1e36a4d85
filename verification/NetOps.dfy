/** bf_delhead: what is left of a packet.
    The accessors before the wanted bytes are given up, and the first one that stays is
    made exclusive before its view is changed. */
module NetOps {
  import opened Storage
  import opened NetPool
  import opened NetSteps
  import opened NetLinks
  import opened NetChains
  import opened NetHands
  import opened NetBuf

  /** Add a holder: acc_linkC++. */
  method AddHolder(p: BufPool, x: int)
    requires Live(p.Model(), x)
    modifies p
    ensures p.Model() == Hold(old(p.Model()), x)
  {
    ghost var w := p.Model();
    p.accs := p.accs[x := p.accs[x].(linkC := p.accs[x].linkC + 1)];
    p.Follow(Hold(w, x));
  }

  /** A handle of the same bytes whose accessor has no other holder: the accessor itself, or a
      copy of it. */
  function Alone(w: Pool, x: int): Pool
    requires Live(w, x) && (w.accs[x].linkC != 1 ==> CanDup(w, x))
  {
    if w.accs[x].linkC == 1 then w else if Live(Dup(w, x), x) then Unhold(Dup(w, x), x) else w
  }

  method Exclusive(p: BufPool, x: int) returns (r: int)
    requires p.Valid() && x in p.held && Live(p.Model(), x) && p.fa != []
    modifies p
    ensures p.Valid() && CanDup(old(p.Model()), x) && p.Model() == Alone(old(p.Model()), x)
    ensures r == if old(p.accs)[x].linkC == 1 then x else old(p.fa)[0]
  {
    hide Inv, Extends, Bytes, Lens, Dup, Unhold, Freed;
    ghost var w := p.Model();
    DupAble(w, x);
    r := x;
    if p.accs[x].linkC != 1 {
      DupOf(w, x);
      r := p.DupAcc(x);
      ghost var w1 := p.Model();
      p.AFree(x);
      FreedMeans(w1, p.Model(), x);
    }
  }

  lemma HandExclusive(w0: Pool, w: Pool, w': Pool, rest: multiset<int>, x: int, r: int, bytes: seq<byte>)
    requires Hand(w0, w, rest, x, bytes) && w.fa != [] && CanDup(w, x) && w' == Alone(w, x) && Inv(w')
    requires r == if w.accs[x].linkC == 1 then x else w.fa[0]
    ensures Hand(w0, w', rest, r, bytes) && w'.accs[r] == w.accs[x].(linkC := 1)
  {
    hide Inv, Extends, Bytes, Lens, Dup, Shrunk;
    if w.accs[x].linkC != 1 {
      DupKeeps(w, x);
      DupOf(w, x);
      UnholdShrunk(Dup(w, x), x);
      UnholdFrame(Dup(w, x), x, r);
      NotNil(w, x);
      HandOver(w0, w, Dup(w, x), w', rest, x, r, bytes);
    }
  }

  lemma NotNil(w: Pool, x: int)
    requires Live(w, x)
    ensures x != NIL
  {
  }

  /** The first half of bf_delhead: go to the accessor in which the wanted bytes start, and
      give up the ones before it. */
  method Discard(p: BufPool, data: int, offset0: nat) returns (cur: int, offset: nat)
    requires p.Valid() && data in p.held && offset0 < |Bytes(p.Model(), data)|
    modifies p
    ensures p.Valid() && 0 <= cur < |p.accs| && offset < p.accs[cur].length && |p.fa| >= |old(p.fa)|
    ensures offset <= |Bytes(p.Model(), cur)| && Bytes(p.Model(), cur)[offset..] == Bytes(old(p.Model()), data)[offset0..]
    ensures Hand(old(p.Model()), p.Model(), old(p.held) - multiset{data}, cur, Bytes(p.Model(), cur))
  {
    hide Inv, Bytes, Lens, Hand, Freed, Hold, Extends;
    ghost var w0 := p.Model();
    HeldAlive(w0, data);
    cur, offset := data, offset0;
    StepFacts(w0, data);
    while offset >= p.accs[cur].length
      invariant p.Model() == w0 && Live(w0, cur) && offset < |Bytes(w0, cur)|
      invariant Bytes(w0, cur)[offset..] == Bytes(w0, data)[offset0..]
      decreases |PathFrom(w0, cur)|
    {
      SkipStep(w0, cur, offset, |Bytes(w0, cur)| - offset);
      ToEnd(w0, cur, offset);
      offset := offset - p.accs[cur].length;
      cur := p.accs[cur].next;
      NoBytes(w0);
    }
    HandStarts(w0, data);
    if cur != data {
      HoldKeeps(w0, cur);
      HoldHeld(w0, cur);
      AddHolder(p, cur);
      ghost var w1 := p.Model();
      p.AFree(data);
      Discarded(w0, w1, p.Model(), data, cur);
    }
  }

  lemma Discarded(w0: Pool, w1: Pool, w2: Pool, data: int, cur: int)
    requires Inv(w0) && data in w0.held && Live(w0, cur) && w1 == Hold(w0, cur) && Inv(w1) && Extends(w0, w1) && Freed(w1, w2, data)
    ensures Hand(w0, w2, w0.held - multiset{data}, cur, Bytes(w2, cur)) && Bytes(w2, cur) == Bytes(w0, cur) && Inv(w2)
    ensures Live(w2, cur) && w2.accs[cur].length == w0.accs[cur].length && |w2.fa| >= |w0.fa|
  {
    hide Inv, Bytes, Lens, Hand, Extends;
    HandStarts(w0, data);
    HoldHeld(w0, cur);
    InvParts(w0);
    ExtendsBytes(w0, w1, cur);
    HeldAlive(w0, data);
    NotNil(w0, data);
    HandOver(w0, w0, w1, w2, w0.held - multiset{data}, data, cur, Bytes(w0, data));
    HandSays(w0, w2, w0.held - multiset{data}, cur, Bytes(w1, cur));
  }

  /** bf_delhead: drop the first `offset0` bytes; the handle `data` is used up. */
  method DelHead(p: BufPool, data: int, offset0: nat) returns (r: int)
    requires p.Valid() && data in p.held && offset0 < |Bytes(p.Model(), data)| && p.fa != []
    modifies p
    ensures p.Valid() && Hand(old(p.Model()), p.Model(), old(p.held) - multiset{data}, r, Bytes(old(p.Model()), data)[offset0..])
  {
    hide Inv, Bytes, Lens, Hand, Freed, Alone, SetView;
    ghost var w0 := p.Model();
    ghost var rest := p.held - multiset{data};
    var cur, offset := Discard(p, data, offset0);
    ghost var w := p.Model();
    ghost var bytes := Bytes(w, cur);
    HandSays(w0, w, rest, cur, bytes);
    r := Exclusive(p, cur);
    ghost var w2 := p.Model();
    HandExclusive(w0, w, w2, rest, cur, r, bytes);
    HandSays(w0, w2, rest, r, bytes);
    HandView(w0, w2, rest, r, bytes, offset);
    SetViewIs(w2, r, w2.accs[r].offset + offset, w2.accs[r].length - offset);
    p.accs := p.accs[r := p.accs[r].(offset := p.accs[r].offset + offset, length := p.accs[r].length - offset)];
    assert p.Model() == SetView(w2, r, w2.accs[r].offset + offset, w2.accs[r].length - offset);
    HandSays(w0, p.Model(), rest, r, bytes[offset..]);
  }

  lemma ToEnd(w: Pool, cur: int, offset: nat)
    requires Inv(w) && Live(w, cur) && w.accs[cur].length <= offset < |Bytes(w, cur)|
    ensures |Bytes(w, w.accs[cur].next)| == |Bytes(w, cur)| - w.accs[cur].length
    ensures Bytes(w, cur)[offset..] == Bytes(w, w.accs[cur].next)[offset - w.accs[cur].length..]
  {
    hide Inv, Bytes, Lens, Seg;
    StepFacts(w, cur);
  }

  lemma HoldHeld(w: Pool, x: int)
    requires Live(w, x)
    ensures Hold(w, x).held == w.held + multiset{x} && Hold(w, x).fa == w.fa && Hold(w, x).fb == w.fb
  {
  }

  lemma HandSays(w0: Pool, w: Pool, rest: multiset<int>, x: int, bytes: seq<byte>)
    requires Hand(w0, w, rest, x, bytes)
    ensures Inv(w) && Live(w, x) && x in w.held && Bytes(w, x) == bytes && w.held == rest + multiset{x}
    ensures w.accs[x].length <= |bytes|
  {
    StepFacts(w, x);
  }

  lemma DupOf(w: Pool, a: int)
    requires CanDup(w, a)
    ensures Dup(w, a).held == w.held + multiset{w.fa[0]} && w.fa[0] != a
    ensures Live(Dup(w, a), a) && Dup(w, a).accs[a].linkC >= w.accs[a].linkC && Dup(w, a).accs[w.fa[0]] == w.accs[a].(linkC := 1)
  {
    DupFrame(w, a, a);
  }
}
