/** bf_append: the first packet is made the caller's own, the second one trimmed, and then the
    two are linked, merged in the last buffer, or merged into a fresh one. All other handles
    show what they showed. */
module NetAppend {
  import opened Storage
  import opened NetPool
  import opened NetSteps
  import opened NetLinks
  import opened NetChains
  import opened NetHands
  import opened NetFill
  import opened NetBuf
  import opened NetOps
  import opened NetPack
  import opened NetJoin
  import opened NetMerge

  // ---------- Exchanging two accessors ----------

  function Swap(w: Pool, x: int, y: int): Pool
    requires 0 <= x < |w.accs| && 0 <= y < |w.accs|
  {
    w.(accs := w.accs[x := w.accs[y]][y := w.accs[x]])
  }

  ghost predicate CanSwap(w: Pool, x: int, y: int) {
    && Live(w, x) && Live(w, y) && x != y && w.accs[x].linkC == 1 && w.accs[y].linkC == 1
    && w.accs[x].next == NIL && w.accs[y].next == NIL
  }

  lemma SwapFrame(w: Pool, x: int, y: int, z: int)
    requires CanSwap(w, x, y)
    ensures var w' := Swap(w, x, y);
      && (Live(w', z) <==> Live(w, z)) && PathFrom(w', z) == PathFrom(w, z) && Refs(w', z) == Refs(w, z)
      && (0 <= z < |w.accs| ==> w'.accs[z].linkC == w.accs[z].linkC && w'.accs[z].next == w.accs[z].next)
      && (z != x && z != y ==> Seg(w', z) == Seg(w, z)) && (z != x && z != y && 0 <= z < |w.accs| ==> w'.accs[z] == w.accs[z])
      && Seg(w', x) == Seg(w, y) && w'.accs[x] == w.accs[y] && w'.accs[y] == w.accs[x] && |w'.accs| == |w.accs|
  {
  }

  lemma SwapUsers(w: Pool, x: int, y: int, b: int)
    requires CanSwap(w, x, y)
    ensures |Users(Swap(w, x, y), b)| == |Users(w, b)|
  {
    hide Users, Swap;
    var mine, yours := w.accs[x].buffer, w.accs[y].buffer;
    var u, u' := Users(w, b), Users(Swap(w, x, y), b);
    forall z ensures z in u' <==> (if z == x then yours == b else if z == y then mine == b else z in u) { SwapUser(w, x, y, b, z); }
    SwapUser(w, x, y, b, x);
    SwapUser(w, x, y, b, y);
    if mine == yours || (b != mine && b != yours) { assert u' == u; }
    else if b == mine { Exchange(u, u', x, y); }
    else { Exchange(u, u', y, x); }
  }

  lemma SwapUser(w: Pool, x: int, y: int, b: int, z: int)
    requires CanSwap(w, x, y)
    ensures z in Users(Swap(w, x, y), b) <==>
      (if z == x then w.accs[y].buffer == b else if z == y then w.accs[x].buffer == b else z in Users(w, b))
    ensures x in Users(w, b) <==> w.accs[x].buffer == b
    ensures y in Users(w, b) <==> w.accs[y].buffer == b
  {
  }

  lemma Exchange(u: set<int>, u': set<int>, x: int, y: int)
    requires x in u && y !in u && forall z :: z in u' <==> z == y || (z != x && z in u)
    ensures |u'| == |u|
  {
    var v := u - {x} + {y};
    assert forall z :: z in u' <==> z in v;
    assert u' == v;
  }

  lemma SwapKeeps(w: Pool, x: int, y: int)
    requires Inv(w) && CanSwap(w, x, y)
    ensures Inv(Swap(w, x, y))
  {
    hide Refs, Users, LinkedAt, FreeOk, BufsOk, Counted;
    SwapFree(w, x, y);
    SwapLinked(w, x, y);
    SwapCounted(w, x, y);
    assert Sane(Swap(w, x, y));
  }

  lemma SwapCounted(w: Pool, x: int, y: int)
    requires Inv(w) && CanSwap(w, x, y)
    ensures Counted(Swap(w, x, y))
  {
    hide FreeOk, BufsOk, Refs, Users, LinkedAt, Linked;
    var w' := Swap(w, x, y);
    forall z | Live(w', z) ensures w'.accs[z].linkC == w'.held[z] + |Refs(w', z)| { SwapFrame(w, x, y, z); }
    forall z | z in w'.held ensures Live(w', z) { SwapFrame(w, x, y, z); }
    forall b | 0 <= b < |w'.bufs| ensures w'.bufs[b].linkC == |Users(w', b)| { SwapUsers(w, x, y, b); }
  }

  lemma SwapLinked(w: Pool, x: int, y: int)
    requires Inv(w) && CanSwap(w, x, y)
    ensures var w' := Swap(w, x, y); forall z :: Live(w', z) ==> LinkedAt(w', z)
  {
    hide FreeOk, BufsOk, Refs, Users, Counted;
    var w' := Swap(w, x, y);
    forall z | Live(w', z) ensures LinkedAt(w', z) {
      SwapFrame(w, x, y, z);
      assert LinkedAt(w, z) && LinkedAt(w, x) && LinkedAt(w, y);
      SwapFrame(w, x, y, w.accs[z].next);
    }
  }

  lemma SwapFree(w: Pool, x: int, y: int)
    requires FreeOk(w) && BufsOk(w) && CanSwap(w, x, y)
    ensures FreeOk(Swap(w, x, y)) && BufsOk(Swap(w, x, y))
  {
    var w' := Swap(w, x, y);
    assert !Free(w, x) && !Free(w, y);
    ListRange(w.accs, w.accFree, w.fa);
    ListRange(w.accs, w.bufFree, w.fb);
    ListFrame(w.accs, w'.accs, w.accFree, w.fa);
    ListFrame(w.accs, w'.accs, w.bufFree, w.fb);
    forall z | 0 <= z < |w'.accs| ensures Live(w', z) <==> !Free(w', z) { assert Live(w, z) <==> !Free(w, z); }
    forall z, b ensures SpareAt(w', z, b) <==> SpareAt(w, z, b) {}
  }

  /** What is live depends on the handles and their chains alone. */
  lemma SameLive(w: Pool, w': Pool, x: int)
    requires Inv(w) && Inv(w') && w'.held == w.held && Live(w, x)
    requires forall h | h in w.held :: PathFrom(w', h) == PathFrom(w, h)
    ensures Live(w', x)
  {
    hide PathFrom, Inv;
    LiveIffReachable(w, x);
    var h :| h in w.held && x in PathFrom(w, h);
    HeldAlive(w', h);
    MemberLive(w', h, x);
  }

  // ---------- A merged accessor in a buffer of its own ----------

  lemma MergeFresh(w0: Pool, w: Pool, w2: Pool, w4: Pool, rest: multiset<int>, head: int, tail: int, second: int, fresh_: int, bytes: seq<byte>)
    requires Appending(w0, w, rest, head, tail, second, bytes) && head != NIL && second != NIL && Live(w, tail) && Live(w, second)
    requires Inv(w2) && Extends(w, w2) && w2.held == w.held + multiset{fresh_} && !Live(w, fresh_) && PathFrom(w2, fresh_) == [fresh_]
    requires CanSwap(w2, tail, fresh_) && Seg(w2, fresh_) == Seg(w, tail) + Seg(w, second)
    requires Freed(Swap(w2, tail, fresh_), w4, fresh_)
    ensures Merged(w0, w4, rest, head, tail, second, bytes) && MergedLens(w, w4, head, second)
  {
    hide Inv, Bytes, Lens, Tailed, PathFrom, Seg, Linked, Extends, Freed, Swap, Appending, Refs, Shrunk;
    AppendingSays(w0, w, rest, head, tail, second, bytes);
    LinkedOf(w);
    var w3 := Swap(w2, tail, fresh_);
    SwapKeeps(w2, tail, fresh_);
    NotNil(w2, fresh_);
    FreedHeld(w3, w4, fresh_);
    SwapHeld(w2, tail, fresh_);
    MultisetBack(w.held, fresh_);
    assert w4.held == w.held;
    FreedShrunk(w3, w4, fresh_);
    forall z ensures PathFrom(w4, z) == PathFrom(w3, z) { ShrunkPath(w3, w4, z); }
    forall z | Live(w, z) ensures Live(w2, z) && PathFrom(w4, z) == PathFrom(w, z) {
      SwapFrame(w2, tail, fresh_, z);
      ExtendsView(w, w2, z);
    }
    forall h | h in w.held ensures PathFrom(w4, h) == PathFrom(w, h) { HeldAlive(w, h); }
    forall x | Live(w, x)
      ensures Live(w4, x) && w4.accs[x].next == w.accs[x].next && PathFrom(w4, x) == PathFrom(w, x)
        && Seg(w4, x) == (if x == tail then Seg(w, x) + Seg(w, second) else Seg(w, x))
    {
      SameLive(w, w4, x);
      ShrunkView(w3, w4, x);
      SwapFrame(w2, tail, fresh_, x);
      ExtendsView(w, w2, x);
    }
    ShrunkView(w3, w4, tail);
    SwapFrame(w2, tail, fresh_, tail);
    forall z | Live(w4, z) ensures Live(w, z) { SameLive(w4, w, z); }
    MergedFrom(w0, w, w4, rest, head, tail, second, bytes);
  }

  lemma SwapHeld(w: Pool, x: int, y: int)
    requires CanSwap(w, x, y)
    ensures Swap(w, x, y).held == w.held && Swap(w, x, y).path == w.path
  {
  }

  lemma ShrunkPath(w: Pool, w': Pool, z: int)
    requires Shrunk(w, w')
    ensures PathFrom(w', z) == PathFrom(w, z)
  {
  }

  lemma ShrunkView(w: Pool, w': Pool, z: int)
    requires Shrunk(w, w') && Live(w', z)
    ensures Live(w, z) && w'.accs[z].next == w.accs[z].next && Seg(w', z) == Seg(w, z) && 0 < w'.accs[z].linkC <= w.accs[z].linkC
  {
  }

  lemma ExtendsView(w: Pool, w': Pool, z: int)
    requires Extends(w, w') && Live(w, z)
    ensures Live(w', z) && PathFrom(w', z) == PathFrom(w, z) && Seg(w', z) == Seg(w, z) && w'.accs[z].next == w.accs[z].next
  {
  }

  // ---------- The first packet ----------

  /** What taking an accessor over does to the rest of the chain. */
  lemma TakenOver(w: Pool, x: int)
    requires Inv(w) && Live(w, x) && w.fa != [] && x in w.held
    ensures CanDup(w, x) && var w1 := Alone(w, x);
      var r := if w.accs[x].linkC == 1 then x else w.fa[0];
      && Inv(w1) && Live(w1, r) && w1.accs[r] == w.accs[x].(linkC := 1) && |w1.path| == |w1.accs|
      && |PathFrom(Cut(w1, r), w.accs[x].next)| == |PathFrom(w, x)| - 1 && |Cut(w1, r).fa| >= |w.fa| - 1 && Cut(w1, r).fb == w.fb
  {
    DupAble(w, x);
    hide Inv, Alone, PathFrom, Cut, Dup, Linked;
    StepFacts(w, x);
    var n := w.accs[x].next;
    if w.accs[x].linkC == 1 {
      AloneSame(w, x);
      LinkedOf(w);
      CutFrees(w, x);
      CutNext(w, x);
    } else {
      HeldTwice(w, x);
      AloneFrame(w, x, n);
      AloneFrame(w, x, w.fa[0]);
      AloneExtends(w, x);
      AloneList(w, x);
      LinkedOf(Alone(w, x));
      CutFrees(Alone(w, x), w.fa[0]);
      CutNext(Alone(w, x), w.fa[0]);
      if n == NIL { NilPath(w); NilPath(Alone(w, x)); }
    }
  }

  lemma HeldTwice(w: Pool, x: int)
    requires Live(w, x) && w.accs[x].linkC != 1
    ensures w.accs[x].linkC > 1
  {
  }

  lemma AloneList(w: Pool, x: int)
    requires CanDup(w, x) && w.accs[x].linkC > 1
    ensures Alone(w, x).fa == w.fa || Alone(w, x).fa == w.fa[1..]
  {
  }

  /** Cutting changes no other chain. */
  lemma CutNext(w: Pool, x: int)
    requires Inv(w) && Live(w, x) && |w.path| == |w.accs|
    ensures PathFrom(Cut(w, x), w.accs[x].next) == PathFrom(w, w.accs[x].next)
  {
    assert LinkedAt(w, x);
    if w.accs[x].next == x { NoLoop(w, x); OwnPath(w, x); }
  }

  /** The first loop of bf_append: make every accessor of the first packet the caller's own and
      drop those without bytes.  Each link is cleared when its accessor is taken, not later. */
  method TakeOver(p: BufPool, first: int) returns (head: int, tail: int)
    requires p.Valid() && first in p.held && |p.fa| >= |PathFrom(p.Model(), first)|
    modifies p
    ensures p.Valid() && |p.fb| >= |old(p.fb)|
    ensures Appending(old(p.Model()), p.Model(), old(p.held) - multiset{first}, head, tail, NIL, Bytes(old(p.Model()), first))
    ensures Lens(p.Model(), head) == NonZero(Lens(old(p.Model()), first)) && (head == NIL <==> Lens(p.Model(), head) == [])
  {
    hide Inv, Bytes, Lens, Appending, Parting, Freed, PathFrom, Alone, Cut, Join, TakenSoFar;
    ghost var w0 := p.Model();
    ghost var keep := p.held - multiset{first};
    ghost var bytes := Bytes(w0, first);
    AppendingStarts(w0, first);
    TakenStarts(w0, first);
    head, tail := NIL, NIL;
    var data := first;
    while data != NIL
      invariant p.Valid() && Appending(w0, p.Model(), keep, head, tail, data, bytes) && (head == NIL ==> tail == NIL)
      invariant |p.fa| >= |PathFrom(p.Model(), data)| && |p.fb| >= |old(p.fb)|
      invariant TakenSoFar(w0, first, p.Model(), head, data)
      decreases |PathFrom(p.Model(), data)|, data != NIL
    {
      head, tail, data := TakeOne(p, head, tail, data, w0, first, keep, bytes);
    }
    TakenEnds(w0, first, p.Model(), head);
  }

  /** One turn of that loop. */
  method TakeOne(p: BufPool, head0: int, tail0: int, data0: int, ghost w0: Pool, ghost first: int, ghost keep: multiset<int>, ghost bytes: seq<byte>)
    returns (head: int, tail: int, data: int)
    requires p.Valid() && Appending(w0, p.Model(), keep, head0, tail0, data0, bytes) && (head0 == NIL ==> tail0 == NIL)
    requires data0 != NIL && |p.fa| >= |PathFrom(p.Model(), data0)| && TakenSoFar(w0, first, p.Model(), head0, data0)
    modifies p
    ensures p.Valid() && Appending(w0, p.Model(), keep, head, tail, data, bytes) && (head == NIL ==> tail == NIL)
    ensures |p.fa| >= |PathFrom(p.Model(), data)| && |p.fb| >= |old(p.fb)| && TakenSoFar(w0, first, p.Model(), head, data)
    ensures |PathFrom(p.Model(), data)| < |PathFrom(old(p.Model()), data0)|
  {
    hide Inv, Bytes, Lens, Appending, Parting, Freed, PathFrom, Alone, Cut, Join, TakenSoFar;
    head, tail := head0, tail0;
    ghost var w := p.Model();
    AppendingSays(w0, w, keep, head, tail, data0, bytes);
    PathNonEmpty(w, data0);
    TakenOver(w, data0);
    var curr := Exclusive(p, data0);
    ghost var w1 := p.Model();
    ExclusiveAppending(w0, w, w1, keep, head, tail, data0, curr, bytes);
    NotNil(w1, curr);
    Part(w0, w1, keep, head, tail, curr, bytes);
    data := p.accs[curr].next;
    p.accs := p.accs[curr := p.accs[curr].(next := NIL)];
    CutIs(w1, curr);
    p.Follow(Cut(w1, curr));
    ghost var w2 := p.Model();
    assert w2 == Cut(w1, curr);
    PartingSays(w0, w2, keep, head, tail, curr, data, bytes);
    if p.accs[curr].length == 0 {
      p.AFree(curr);
      DropEmpty(w0, w2, p.Model(), keep, head, tail, curr, data, bytes);
      FreedRoom(w2, p.Model(), curr, data);
      TakenDrop(w0, first, w, p.Model(), head, data0, data);
      return;
    }
    if head == NIL {
      KeepFirst(w0, w2, keep, curr, data, bytes);
      NoneYet(w0, first, w, data0);
      head := curr;
    } else {
      KeepNext(w0, w2, keep, head, tail, curr, data, bytes);
      JoinRoom(w0, w2, keep, head, tail, curr, data, bytes);
      p.Link(tail, curr);
      AppendingSays(w0, p.Model(), keep, head, curr, data, bytes);
    }
    tail := curr;
    TakenKeep(w0, first, w, p.Model(), head0, head, data0, data, w2.accs[curr].length);
  }

  /** The pieces taken over so far and the ones still to come, without empty ones. */
  ghost predicate TakenSoFar(w0: Pool, first: int, w: Pool, head: int, data: int) {
    Lens(w, head) + NonZero(Lens(w, data)) == NonZero(Lens(w0, first)) && (head == NIL <==> Lens(w, head) == [])
  }

  lemma NoneYet(w0: Pool, first: int, w: Pool, data: int)
    requires TakenSoFar(w0, first, w, NIL, data)
    ensures Lens(w, NIL) == []
  {}

  lemma TakenStarts(w: Pool, first: int)
    ensures TakenSoFar(w, first, w, NIL, first)
  {
    NoBytes(w);
  }

  lemma TakenDrop(w0: Pool, first: int, w: Pool, w': Pool, head: int, data: int, rest: int)
    requires TakenSoFar(w0, first, w, head, data) && Lens(w', head) == Lens(w, head) && Lens(w, data) == [0] + Lens(w', rest)
    ensures TakenSoFar(w0, first, w', head, rest)
  {
    hide Lens, NonZero;
    NonZeroStep(0, Lens(w', rest));
  }

  lemma TakenKeep(w0: Pool, first: int, w: Pool, w': Pool, head: int, head': int, data: int, rest: int, l: nat)
    requires TakenSoFar(w0, first, w, head, data) && l > 0 && head' != NIL
    requires Lens(w', head') == Lens(w, head) + [l] && Lens(w, data) == [l] + Lens(w', rest)
    ensures TakenSoFar(w0, first, w', head', rest)
  {
    hide Lens, NonZero;
    NonZeroStep(l, Lens(w', rest));
    InBetween(Lens(w, head), l, NonZero(Lens(w', rest)));
  }

  lemma InBetween(a: seq<nat>, l: nat, b: seq<nat>)
    ensures a + ([l] + b) == a + [l] + b
  {}

  lemma TakenEnds(w0: Pool, first: int, w: Pool, head: int)
    requires TakenSoFar(w0, first, w, head, NIL)
    ensures Lens(w, head) == NonZero(Lens(w0, first)) && (head == NIL <==> Lens(w, head) == [])
  {
    NoBytes(w);
    assert Lens(w, head) + [] == Lens(w, head);
  }

  /** The numbers that are not 0, in order. */
  ghost function NonZero(s: seq<nat>): seq<nat> {
    if s == [] then [] else if s[0] == 0 then NonZero(s[1..]) else [s[0]] + NonZero(s[1..])
  }

  lemma NonZeroStep(l: nat, s: seq<nat>)
    ensures NonZero([l] + s) == if l == 0 then NonZero(s) else [l] + NonZero(s)
  {
    assert ([l] + s)[1..] == s;
  }

  lemma PathNonEmpty(w: Pool, x: int)
    requires Inv(w) && Live(w, x)
    ensures |PathFrom(w, x)| >= 1
  {
    OwnPath(w, x);
  }

  lemma PartingSays(w0: Pool, w: Pool, keep: multiset<int>, head: int, tail: int, x: int, rest: int, bytes: seq<byte>)
    requires Parting(w0, w, keep, head, tail, x, rest, bytes)
    ensures Inv(w) && Live(w, x) && x in w.held
  {
  }

  lemma FreedRoom(w: Pool, w': Pool, a: int, z: int)
    requires Freed(w, w', a)
    ensures Inv(w') && PathFrom(w', z) == PathFrom(w, z) && |w'.fa| >= |w.fa| && |w'.fb| >= |w.fb|
  {
  }

  lemma JoinRoom(w0: Pool, w: Pool, keep: multiset<int>, head: int, tail: int, x: int, rest: int, bytes: seq<byte>)
    requires Parting(w0, w, keep, head, tail, x, rest, bytes) && head != NIL && Live(w, tail)
    ensures PathFrom(Join(w, tail, x), rest) == PathFrom(w, rest)
    ensures Join(w, tail, x).fa == w.fa && Join(w, tail, x).fb == w.fb
  {
    hide Inv, Bytes, Lens, Join, Refs, Seg, Preserved;
    LinkedOf(w);
    NotNil(w, x);
    TailedHead(w, head, tail);
    JoinHeld(w, tail, x);
    HeadAside(keep, One(rest), head, x);
    JoinFrame(w, tail, x, rest);
    if rest != NIL { TailNotIn(w, head, tail, keep + One(rest) + multiset{x}, rest); } else { NilPath(w); }
  }

  // ---------- Two short accessors ----------

  /** Where the copying into the fresh chain is. */
  ghost predicate NewAt(w: Pool, head: int, to: int, toOff: nat, left: nat) {
    left > 0 ==> to in PathFrom(w, head) && Live(w, to) && toOff <= w.accs[to].length && |Bytes(w, to)| == left + toOff
  }

  lemma NewNext(w0: Pool, w: Pool, head: int, tail: int, all: seq<byte>, done: nat, to: int, left: nat)
    requires Copying(w0, w, head, tail, all, done) && Live(w, to) && NewAt(w, head, to, w.accs[to].length, left) && left > 0
    ensures NewAt(w, head, w.accs[to].next, 0, left) && |PathFrom(w, w.accs[to].next)| < |PathFrom(w, to)|
  {
    hide Inv, Bytes, Lens;
    FreshValid(w0, w, head, tail, |all|);
    NextInPath(w, head, to);
    NoBytes(w);
  }

  lemma NewSays(w0: Pool, w: Pool, head: int, tail: int, all: seq<byte>, done: nat, x: int, to: int, toOff: nat, left: nat)
    requires Copying(w0, w, head, tail, all, done) && NewAt(w, head, to, toOff, left) && left > 0 && Live(w0, x) && Inv(w0)
    ensures Inv(w) && Live(w, to) && toOff <= w.accs[to].length && Live(w, x) && w.accs[x].length == w0.accs[x].length
    ensures Extends(w0, w) && |Seg(w0, x)| == w0.accs[x].length
  {
    hide Bytes, Lens;
    FreshValid(w0, w, head, tail, |all|);
    CopyOutIs(w0, w, x, 0, 0);
  }

  /** One of the two copy loops of bf_append: the bytes of accessor `x` go into the fresh chain. */
  method CopySeg(p: BufPool, x: int, head: int, to0: int, toOff0: nat, ghost tail: int, ghost all: seq<byte>, ghost done0: nat, ghost w0: Pool)
    returns (to: int, toOff: nat)
    requires p.Valid() && Inv(w0) && Live(w0, x) && Live(p.Model(), x) && p.accs[x].length == w0.accs[x].length
    requires Copying(w0, p.Model(), head, tail, all, done0)
    requires NewAt(p.Model(), head, to0, toOff0, |all| - done0)
    requires done0 + w0.accs[x].length <= |all| && all[done0..done0 + w0.accs[x].length] == Seg(w0, x)
    modifies p`bufs
    ensures p.Valid() && Copying(w0, p.Model(), head, tail, all, done0 + w0.accs[x].length)
    ensures NewAt(p.Model(), head, to, toOff, |all| - (done0 + w0.accs[x].length))
  {
    hide Inv, Bytes, Lens, Seg, Copying, Extends, WriteAt, CanWrite, NewAt, CopyOut;
    to, toOff := to0, toOff0;
    var offsetOld: nat := 0;
    var size: nat := p.accs[x].length;
    while size > 0
      invariant p.Valid() && offsetOld + size == w0.accs[x].length
      invariant Copying(w0, p.Model(), head, tail, all, done0 + offsetOld) && NewAt(p.Model(), head, to, toOff, |all| - (done0 + offsetOld))
      decreases size, |PathFrom(p.Model(), to)|
    {
      ghost var w := p.Model();
      NewSays(w0, w, head, tail, all, done0 + offsetOld, x, to, toOff, |all| - (done0 + offsetOld));
      if toOff == p.accs[to].length {
        NewNext(w0, w, head, tail, all, done0 + offsetOld, to, |all| - (done0 + offsetOld));
        toOff := 0;
        to := p.accs[to].next;
        continue;
      }
      var blockSizeOld := p.accs[x].length - offsetOld;
      var blockSize: nat := p.accs[to].length - toOff;
      if blockSize > blockSizeOld { blockSize := blockSizeOld; }
      CopyOutIs(w0, w, x, offsetOld, blockSize);
      var src := p.accs[x].offset + offsetOld;
      var block := p.bufs[p.accs[x].buffer].data[src..src + blockSize];
      OutIs(w, x, offsetOld, blockSize, block);
      SegCopied(w0, w, head, tail, all, done0, x, offsetOld, to, toOff, block);
      CopyIn(p, to, toOff, block);
      toOff := toOff + blockSize;
      offsetOld := offsetOld + blockSize;
      size := size - blockSize;
    }
  }

  lemma SliceOfSlice(all: seq<byte>, from: nat, l: nat, off: nat, n: nat)
    requires from + l <= |all| && off + n <= l
    ensures all[from..from + l][off..off + n] == all[from + off..from + off + n]
  {
    var s, t := all[from..from + l][off..off + n], all[from + off..from + off + n];
    forall i | 0 <= i < n ensures s[i] == t[i] {}
  }

  lemma SegCopied(w0: Pool, w: Pool, head: int, tail: int, all: seq<byte>, done0: nat, x: int, off: nat, to: int, toOff: nat, block: seq<byte>)
    requires Live(w0, x) && |Seg(w0, x)| == w0.accs[x].length && off + |block| <= w0.accs[x].length && |block| > 0
    requires done0 + w0.accs[x].length <= |all| && all[done0..done0 + w0.accs[x].length] == Seg(w0, x)
    requires Copying(w0, w, head, tail, all, done0 + off) && NewAt(w, head, to, toOff, |all| - (done0 + off))
    requires block == Seg(w0, x)[off..off + |block|] && Live(w, to) && toOff + |block| <= w.accs[to].length
    ensures CanWrite(w, to, toOff, |block|) && var w' := WriteAt(w, to, toOff, block);
      Inv(w') && Copying(w0, w', head, tail, all, done0 + off + |block|) && NewAt(w', head, to, toOff + |block|, |all| - (done0 + off + |block|))
  {
    hide Inv, Bytes, Lens, Seg, Copying, WriteAt, CanWrite;
    SliceOfSlice(all, done0, w0.accs[x].length, off, |block|);
    CopyStep(w0, w, head, tail, all, done0 + off, to, toOff, block);
    WriteLives(w, to, toOff, block);
  }

  /** The last branch of bf_append: both accessors together get a fresh buffer, which takes the
      place of the first one's. */
  method MergeInto(p: BufPool, tail: int, second: int, ghost rest: multiset<int>, ghost head: int, ghost bytes: seq<byte>, ghost w0: Pool)
    requires p.Valid() && Appending(w0, p.Model(), rest, head, tail, second, bytes) && head != NIL && second != NIL
    requires Live(p.Model(), tail) && Live(p.Model(), second) && p.fb != []
    requires 0 < p.accs[tail].length + p.accs[second].length <= p.size
    modifies p
    ensures p.Valid() && Merged(w0, p.Model(), rest, head, tail, second, bytes) && Live(p.Model(), tail) && Live(p.Model(), second)
    ensures p.accs[second].next == old(p.accs)[second].next && MergedLens(old(p.Model()), p.Model(), head, second)
  {
    hide Inv, Bytes, Lens, MergedLens, Seg, Copying, Appending, Fresh, Freed, Extends, Merged, NewAt, Take, Swap, PathFrom;
    ghost var w := p.Model();
    ghost var all := Seg(w, tail) + Seg(w, second);
    StepFacts(w, tail);
    StepFacts(w, second);
    var n := p.accs[tail].length + p.accs[second].length;
    OneIsEnough(n, p.size, |p.fb|);
    TakeAbleInv(w, n);
    TakeFrame(w, n, tail);
    TakeFrame(w, n, second);
    TakeResult(w, n);
    var fresh_;
    ghost var t;
    fresh_, t := MemReq(p, n);
    ghost var w1 := p.Model();
    SegStarts(w, w1, fresh_, all);
    var to, toOff := CopySeg(p, tail, fresh_, fresh_, 0, fresh_, all, 0, w);
    to, toOff := CopySeg(p, second, fresh_, to, toOff, fresh_, all, p.accs[tail].length, w);
    ghost var w2 := p.Model();
    SamePath(w1, w2, fresh_);
    SegEnds(w, w2, fresh_, all);
    TailSole(w0, w, rest, head, tail, second, bytes);
    SwapReady(w, w1, w2, tail, fresh_, n);
    p.accs := p.accs[tail := p.accs[fresh_]][fresh_ := p.accs[tail]];
    SwapIs(w2, tail, fresh_);
    SwapKeeps(w2, tail, fresh_);
    SwapHeld(w2, tail, fresh_);
    p.AFree(fresh_);
    MergeFresh(w0, w, w2, p.Model(), rest, head, tail, second, fresh_, bytes);
    MergedSays(w0, p.Model(), rest, head, tail, second, bytes);
    SecondSame(w, w2, p.Model(), tail, fresh_, second);
  }

  lemma OneIsEnough(n: nat, size: nat, bufs: nat)
    requires n <= size && bufs > 0
    ensures n <= bufs * size
  {
    assert bufs * size == (bufs - 1) * size + size;
  }

  lemma TakeAbleInv(w: Pool, n: nat)
    requires Inv(w) && w.fb != [] && n <= w.size
    ensures CanTake(w, n)
  {
    TakeAble(w, n);
  }

  lemma SegStarts(w: Pool, w1: Pool, head: int, all: seq<byte>)
    requires Inv(w) && Fresh(w, w1, head, head, |all|) && PathFrom(w1, head) == [head]
    ensures Copying(w, w1, head, head, all, 0) && NewAt(w1, head, head, 0, |all|)
  {
    hide Inv, Bytes, Lens;
    FreshValid(w, w1, head, head, |all|);
  }

  lemma SegEnds(w: Pool, w2: Pool, head: int, all: seq<byte>)
    requires Copying(w, w2, head, head, all, |all|) && PathFrom(w2, head) == [head]
    ensures Inv(w2) && Seg(w2, head) == all && Extends(w, w2) && w2.held == w.held + multiset{head} && !Live(w, head) && Live(w2, head)
    ensures head in w2.held
  {
    hide Inv, Bytes, Lens, Seg;
    CopyingEnds(w, w2, head, head, all);
    FreshValid(w, w2, head, head, |all|);
    SingleBytes(w2, head);
  }

  lemma TailSole(w0: Pool, w: Pool, rest: multiset<int>, head: int, tail: int, second: int, bytes: seq<byte>)
    requires Appending(w0, w, rest, head, tail, second, bytes) && head != NIL
    ensures Live(w, tail) && w.accs[tail].linkC == 1 && w.accs[tail].next == NIL
  {
  }

  lemma SwapReady(w: Pool, w1: Pool, w2: Pool, tail: int, fresh_: int, n: nat)
    requires CanTake(w, n) && w1 == Take(w, n) && w2.accs == w1.accs && fresh_ == w.fb[0]
    requires Live(w, tail) && w.accs[tail].linkC == 1 && w.accs[tail].next == NIL
    ensures CanSwap(w2, tail, fresh_)
  {
  }

  lemma SwapIs(w: Pool, x: int, y: int)
    requires CanSwap(w, x, y)
    ensures Swap(w, x, y) == w.(accs := w.accs[x := w.accs[y]][y := w.accs[x]])
  {
  }

  lemma MergedSays(w0: Pool, w: Pool, rest: multiset<int>, head: int, tail: int, second: int, bytes: seq<byte>)
    requires Merged(w0, w, rest, head, tail, second, bytes)
    ensures Inv(w) && Live(w, tail) && Live(w, second) && second in w.held && second != NIL
    ensures w.accs[second].next != NIL ==> Live(w, w.accs[second].next)
  {
    assert LinkedAt(w, second);
  }

  lemma SecondSame(w: Pool, w2: Pool, w4: Pool, tail: int, fresh_: int, second: int)
    requires Extends(w, w2) && CanSwap(w2, tail, fresh_) && Freed(Swap(w2, tail, fresh_), w4, fresh_)
    requires Live(w, second) && Live(w4, second) && w2.accs[tail].next == NIL && w2.accs[fresh_].next == NIL && !Live(w, fresh_)
    ensures w4.accs[second].next == w.accs[second].next
  {
    hide Inv, Swap, Extends, Shrunk;
    ExtendsView(w, w2, second);
    SwapFrame(w2, tail, fresh_, second);
    ShrunkView(Swap(w2, tail, fresh_), w4, second);
  }

  lemma SamePath(w: Pool, w': Pool, x: int)
    requires w'.path == w.path
    ensures PathFrom(w', x) == PathFrom(w, x)
  {
  }

  // ---------- bf_append ----------

  /** The second loop of bf_append: skip leading accessors of the second packet without bytes. */
  method TrimSecond(p: BufPool, head: int, tail: int, second0: int, ghost rest: multiset<int>, ghost bytes: seq<byte>, ghost w0: Pool)
    returns (second: int)
    requires p.Valid() && Appending(w0, p.Model(), rest, head, tail, second0, bytes) && head != NIL
    modifies p
    ensures p.Valid() && Appending(w0, p.Model(), rest, head, tail, second, bytes) && |p.fb| >= |old(p.fb)|
    ensures second != NIL ==> Live(p.Model(), second) && p.accs[second].length > 0
    ensures Lens(p.Model(), head) == Lens(old(p.Model()), head) && Lens(p.Model(), second) == Leading(Lens(old(p.Model()), second0))
    ensures if second == NIL then Lens(p.Model(), second) == [] else Lens(p.Model(), second) != [] && Lens(p.Model(), second)[0] == p.accs[second].length
  {
    hide Inv, Bytes, Lens, Appending, Freed, PathFrom, HoldIf;
    ghost var before := p.Model();
    second := second0;
    AppendingSays(w0, p.Model(), rest, head, tail, second, bytes);
    while second != NIL && p.accs[second].length == 0
      invariant p.Valid() && Appending(w0, p.Model(), rest, head, tail, second, bytes) && |p.fb| >= |old(p.fb)|
      invariant second != NIL ==> Live(p.Model(), second) && second in p.held
      invariant Lens(p.Model(), head) == Lens(before, head) && Leading(Lens(p.Model(), second)) == Leading(Lens(before, second0))
      decreases |PathFrom(p.Model(), second)|, second != NIL
    {
      var curr := second;
      ghost var w := p.Model();
      StepFacts(w, curr);
      second := p.accs[second].next;
      HoldIfKeeps(w, second);
      HoldIfIs(w, second);
      if second != NIL { AddHolder(p, second); }
      ghost var w1 := p.Model();
      StillHeld(w, w1, curr, second);
      p.AFree(curr);
      TrimStep(w0, w, p.Model(), rest, head, tail, curr, bytes);
      FreedRoom(w1, p.Model(), curr, second);
      AppendingSays(w0, p.Model(), rest, head, tail, second, bytes);
      LeadingStep(0, Lens(p.Model(), second));
    }
    NoBytes(p.Model());
    if second != NIL {
      AppendingSays(w0, p.Model(), rest, head, tail, second, bytes);
      StepFacts(p.Model(), second);
      LeadingStep(p.accs[second].length, Lens(p.Model(), p.accs[second].next));
    }
  }

  /** The numbers from the first one on that is not 0. */
  ghost function Leading(s: seq<nat>): seq<nat> {
    if s != [] && s[0] == 0 then Leading(s[1..]) else s
  }

  lemma LeadingStep(l: nat, s: seq<nat>)
    ensures Leading([l] + s) == if l == 0 then Leading(s) else [l] + s
  {
    assert ([l] + s)[1..] == s;
  }

  lemma HoldIfIs(w: Pool, n: int)
    requires n == NIL || Live(w, n)
    ensures HoldIf(w, n) == (if n == NIL then w else Hold(w, n)) && PathFrom(HoldIf(w, n), n) == PathFrom(w, n)
  {
    if n != NIL { NotNil(w, n); }
  }

  lemma StillHeld(w: Pool, w1: Pool, curr: int, n: int)
    requires curr in w.held && w1.held == w.held + One(n)
    ensures curr in w1.held
  {
  }

  /** bf_append: one packet with the bytes of both; the two handles are used up. */
  method Append(p: BufPool, first: int, second0: int) returns (r: int)
    requires p.Valid() && (first != NIL ==> first in p.held) && (second0 != NIL ==> second0 in p.held - One(first))
    requires |p.fa| >= |PathFrom(p.Model(), first)| && |p.fb| > 0
    modifies p
    ensures p.Valid()
    ensures first == NIL ==> r == second0 && p.Model() == old(p.Model())
    ensures second0 == NIL ==> r == first && p.Model() == old(p.Model())
    ensures first != NIL && second0 != NIL ==>
      Hand(old(p.Model()), p.Model(), old(p.held) - multiset{first} - multiset{second0}, r,
           Bytes(old(p.Model()), first) + Bytes(old(p.Model()), second0))
    ensures first != NIL && second0 != NIL ==>
      Appended(Lens(old(p.Model()), first), Lens(old(p.Model()), second0), p.size, Lens(p.Model(), r))
  {
    hide Inv, Bytes, Lens, Appending, Hand, PathFrom, Join, NonZero, Leading, JoinedLens;
    if first == NIL { return second0; }
    if second0 == NIL { return first; }
    ghost var w0 := p.Model();
    ghost var rest := p.held - multiset{first} - multiset{second0};
    ghost var b1, b2 := Bytes(w0, first), Bytes(w0, second0);
    KeepSplit(p.held, first, second0);
    var head, tail := TakeOver(p, first);
    AppendingLens(w0, p.Model(), w0.held - multiset{first}, head, tail, NIL, b1, second0);
    BothReady(w0, p.Model(), rest, head, tail, second0, b1, b2);
    if head == NIL {
      OnlySecond(w0, p.Model(), rest, tail, second0, b1 + b2);
      return second0;
    }
    var second := TrimSecond(p, head, tail, second0, rest, b1 + b2, w0);
    if second == NIL {
      OnlyFirst(w0, p.Model(), rest, head, tail, b1 + b2);
      return head;
    }
    AppendingSays(w0, p.Model(), rest, head, tail, second, b1 + b2);
    EndLens(w0, p.Model(), rest, head, tail, second, b1 + b2);
    if p.accs[tail].length + p.accs[second].length > p.size {
      LinkThem(w0, p.Model(), rest, head, tail, second, b1 + b2);
      p.Link(tail, second);
      HandSays(w0, p.Model(), rest, head, b1 + b2);
      return head;
    }
    ghost var w := p.Model();
    MergeTail(p, head, tail, second, rest, b1 + b2, w0);
    JoinedSays(Lens(w, head), Lens(w, second), Lens(p.Model(), head));
    return head;
  }

  lemma JoinedSays(a: seq<nat>, b: seq<nat>, c: seq<nat>)
    requires JoinedLens(a, b, c)
    ensures a != [] && b != [] && c == a[..|a| - 1] + [a[|a| - 1] + b[0]] + b[1..]
  {}

  /** The last piece of a chain is that of its end. */
  lemma {:induction false} LastIs(w: Pool, z: int, tail: int)
    requires Inv(w) && Live(w, z) && tail in PathFrom(w, z) && Live(w, tail) && w.accs[tail].next == NIL
    ensures Lens(w, z) != [] && Lens(w, z)[|Lens(w, z)| - 1] == w.accs[tail].length
    decreases |PathFrom(w, z)|
  {
    hide Lens, Inv, PathFrom, Seg;
    StepFacts(w, z);
    NoBytes(w);
    LinkedOf(w);
    assert LinkedAt(w, z);
    if z != tail {
      NilPath(w);
      LastIs(w, w.accs[z].next, tail);
    }
  }

  lemma EndLens(w0: Pool, w: Pool, rest: multiset<int>, head: int, tail: int, second: int, bytes: seq<byte>)
    requires Appending(w0, w, rest, head, tail, second, bytes) && head != NIL
    ensures Live(w, tail) && Lens(w, head) != [] && Lens(w, head)[|Lens(w, head)| - 1] == w.accs[tail].length
  {
    hide Inv, Lens;
    LastIs(w, head, tail);
  }

  /** The pieces of two packets appended: those of the first that show anything, and those of the second
      from the first on that does; where the two meet, two pieces that fit into one buffer become one.
      If the first packet shows nothing, the second is left as it is. */
  ghost predicate Appended(a: seq<nat>, b: seq<nat>, size: nat, c: seq<nat>) {
    var x, y := NonZero(a), Leading(b);
    if x == [] then c == b
    else if y == [] then c == x
    else if x[|x| - 1] + y[0] > size then c == x + y
    else c == x[..|x| - 1] + [x[|x| - 1] + y[0]] + y[1..]
  }

  lemma KeepSplit(held: multiset<int>, first: int, second: int)
    requires first in held && second in held - multiset{first}
    ensures held - multiset{first} == held - multiset{first} - multiset{second} + multiset{second}
  {
  }

  lemma OnlySecond(w0: Pool, w: Pool, rest: multiset<int>, tail: int, second: int, bytes: seq<byte>)
    requires Appending(w0, w, rest, NIL, tail, second, bytes) && second != NIL
    ensures Hand(w0, w, rest, second, bytes)
  {
    hide Inv;
    NoBytes(w);
    hide Bytes, Lens;
    assert [] + Bytes(w, second) == Bytes(w, second);
    assert rest + One(NIL) + One(second) == rest + multiset{second};
  }

  lemma OnlyFirst(w0: Pool, w: Pool, rest: multiset<int>, head: int, tail: int, bytes: seq<byte>)
    requires Appending(w0, w, rest, head, tail, NIL, bytes) && head != NIL
    ensures Hand(w0, w, rest, head, bytes)
  {
    hide Inv;
    NoBytes(w);
    hide Bytes, Lens;
    assert Bytes(w, head) + [] == Bytes(w, head);
    assert rest + One(head) + One(NIL) == rest + multiset{head};
  }

  /** The branches of bf_append for two accessors that fit into one buffer. */
  method MergeTail(p: BufPool, head: int, tail: int, second: int, ghost rest: multiset<int>, ghost bytes: seq<byte>, ghost w0: Pool)
    requires p.Valid() && Appending(w0, p.Model(), rest, head, tail, second, bytes) && head != NIL && second != NIL
    requires Live(p.Model(), tail) && Live(p.Model(), second) && p.fb != [] && p.accs[second].length > 0
    requires p.accs[tail].length + p.accs[second].length <= p.size
    modifies p
    ensures p.Valid() && Hand(w0, p.Model(), rest, head, bytes)
    ensures JoinedLens(Lens(old(p.Model()), head), Lens(old(p.Model()), second), Lens(p.Model(), head))
  {
    hide Inv, Bytes, Lens, Appending, Hand, PathFrom, Join, Merged, Freed, LinkOn, Hold, MergedLens, JoinedLens;
    ghost var before := p.Model();
    TailBuffer(p.Model(), tail);
    if p.bufs[p.accs[tail].buffer].linkC == 1 {
      MergeHere(p, head, tail, second, rest, bytes, w0);
    } else {
      MergeInto(p, tail, second, rest, head, bytes, w0);
    }
    ghost var w := p.Model();
    MergedSays(w0, w, rest, head, tail, second, bytes);
    LinkOnFacts(w0, w, rest, head, tail, second, bytes);
    var n := p.accs[second].next;
    LinkOnIs(w0, w, rest, head, tail, second, bytes);
    p.accs := p.accs[tail := p.accs[tail].(next := n)];
    if n != NIL { p.accs := p.accs[n := p.accs[n].(linkC := p.accs[n].linkC + 1)]; }
    p.Follow(LinkOn(w, tail, n));
    assert p.Model() == LinkOn(w, tail, n);
    p.AFree(second);
    MergeEnds(w0, w, p.Model(), rest, head, tail, second, bytes);
    HandSays(w0, p.Model(), rest, head, bytes);
    MergedOnce(before, w, p.Model(), head, second);
  }

  /** Two packets of these pieces, the last and the first of them made one. */
  ghost predicate JoinedLens(a: seq<nat>, b: seq<nat>, c: seq<nat>) {
    a != [] && b != [] && c == a[..|a| - 1] + [a[|a| - 1] + b[0]] + b[1..]
  }

  lemma MergedOnce(w: Pool, w': Pool, w'': Pool, head: int, second: int)
    requires MergedLens(w, w', head, second) && Lens(w'', head) == Lens(w', head) + Lens(w', w'.accs[second].next)
    ensures JoinedLens(Lens(w, head), Lens(w, second), Lens(w'', head))
  {
    hide Lens;
  }

  lemma TailBuffer(w: Pool, x: int)
    requires Inv(w) && Live(w, x)
    ensures 0 <= w.accs[x].buffer < |w.bufs| && w.accs[x].offset + w.accs[x].length <= w.size == |w.bufs[w.accs[x].buffer].data|
  {
    assert LinkedAt(w, x);
  }

  lemma LinkOnIs(w0: Pool, w: Pool, rest: multiset<int>, head: int, tail: int, second: int, bytes: seq<byte>)
    requires Merged(w0, w, rest, head, tail, second, bytes) && Live(w, tail) && Live(w, second)
    ensures var n := w.accs[second].next;
      var accs := w.accs[tail := w.accs[tail].(next := n)];
      && (n == NIL || 0 <= n < |accs|) && tail != n
      && LinkOn(w, tail, n).accs == (if n == NIL then accs else accs[n := accs[n].(linkC := accs[n].linkC + 1)])
      && LinkOn(w, tail, n) == w.(accs := LinkOn(w, tail, n).accs, held := LinkOn(w, tail, n).held, path := LinkOn(w, tail, n).path)
  {
    hide Inv, Bytes, Lens, Preserved, PathFrom;
    TailedHead(w, head, tail);
    OtherFirst(rest, head, second);
    TailNotIn(w, head, tail, rest + multiset{second}, second);
    TailElse(w, second, tail);
    var n := w.accs[second].next;
    if n != NIL { PathHeadLive(w, second); HoldFrame(w, n, tail); NotNil(w, n); }
    else { assert w.accs[tail := w.accs[tail].(next := n)] == w.accs; }
  }

  lemma PathHeadLive(w: Pool, x: int)
    requires Inv(w) && Live(w, x) && w.accs[x].next != NIL
    ensures Live(w, w.accs[x].next)
  {
    assert LinkedAt(w, x);
  }

  /** The in-place branch: move the bytes to the front of the buffer, put the others behind them. */
  method MergeHere(p: BufPool, head: int, tail: int, second: int, ghost rest: multiset<int>, ghost bytes: seq<byte>, ghost w0: Pool)
    requires p.Valid() && Appending(w0, p.Model(), rest, head, tail, second, bytes) && head != NIL && second != NIL
    requires Live(p.Model(), tail) && Live(p.Model(), second)
    requires 0 <= p.accs[tail].buffer < |p.bufs| && p.bufs[p.accs[tail].buffer].linkC == 1
    requires p.accs[tail].length + p.accs[second].length <= p.size
    modifies p
    ensures p.Valid() && Merged(w0, p.Model(), rest, head, tail, second, bytes) && MergedLens(old(p.Model()), p.Model(), head, second)
  {
    hide Inv, Bytes, Lens, MergedLens, Appending, PathFrom, Merged, Splice;
    ghost var w := p.Model();
    TailBuffer(w, tail);
    TailBuffer(w, second);
    TailElsewhere(w0, w, rest, head, tail, second, bytes);
    var b := p.accs[tail].buffer;
    var data := p.bufs[b].data;
    var mine := data[p.accs[tail].offset..p.accs[tail].offset + p.accs[tail].length];
    if p.accs[tail].offset != 0 {
      data := Splice(data, 0, mine);
      p.accs := p.accs[tail := p.accs[tail].(offset := 0)];
    }
    var src := p.accs[second].offset;
    var yours := p.bufs[p.accs[second].buffer].data[src..src + p.accs[second].length];
    FrontSplice(w.bufs[b].data, w.accs[tail].offset, mine, yours);
    data := Splice(data, |mine|, yours);
    p.bufs := p.bufs[b := p.bufs[b].(data := data)];
    p.accs := p.accs[tail := p.accs[tail].(length := p.accs[tail].length + p.accs[second].length)];
    MergeInPlace(w0, w, rest, head, tail, second, bytes, data);
    assert p.Model() == Rewrite(w, tail, 0, w.accs[tail].length + w.accs[second].length, data);
    MergedSays(w0, p.Model(), rest, head, tail, second, bytes);
  }

  lemma TailElsewhere(w0: Pool, w: Pool, rest: multiset<int>, head: int, tail: int, second: int, bytes: seq<byte>)
    requires Appending(w0, w, rest, head, tail, second, bytes) && head != NIL && second != NIL
    ensures Live(w, tail) && tail != second
  {
    hide Inv, Bytes, Lens, Preserved;
    AppendingSays(w0, w, rest, head, tail, second, bytes);
    OtherFirst(rest, head, second);
    TailNotIn(w, head, tail, rest + multiset{second}, second);
    OwnPath(w, second);
  }

  lemma FrontSplice(data: seq<byte>, offset: nat, mine: seq<byte>, yours: seq<byte>)
    requires offset + |mine| <= |data| && mine == data[offset..offset + |mine|] && |mine| + |yours| <= |data|
    ensures Splice(if offset != 0 then Splice(data, 0, mine) else data, |mine|, yours)[..|mine| + |yours|] == mine + yours
  {
    var front := if offset != 0 then Splice(data, 0, mine) else data;
    assert front[..|mine|] == mine;
    assert Splice(front, |mine|, yours)[..|mine| + |yours|] == front[..|mine|] + yours;
  }
}
