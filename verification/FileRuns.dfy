module FileRuns {
  /** Any sequence of reads and writes on the files of a device answers as byte sequences would. */

  import opened Storage
  import opened BlockMap
  import opened Zones
  import opened FileContent
  import opened Files
  import opened FileEnds
  import opened FileOps

  datatype Request = Read(ip: nat, pos: nat, count: nat) | Write(ip: nat, pos: nat, data: seq<byte>, append: bool)
  datatype Reply = Bytes(bytes: seq<byte>) | Count(r: Code, n: nat)

  /** The files of a device as plain byte sequences. */
  type Texts = seq<seq<byte>>

  /** Every file holds the given bytes; the rest of its last block is zero and no later zone is mapped. */
  ghost predicate Shows(g: Geo, fs: Fs, texts: Texts) {
    && Shape(g, fs) && |texts| == |fs.inos|
    && forall i: nat | i < |texts| :: FileState(g, fs, i, fs.inos[i].size) && Content(g, fs, i, fs.inos[i].size) == texts[i]
  }

  /** Every file ends in a zone it has, or in the first block of a zone. */
  ghost predicate InOrder(g: Geo, fs: Fs) {
    forall i: nat | i < |fs.inos| :: FileOk(g, fs, i)
  }

  predicate TooBig(q: Request, maxSize: nat)
    requires q.Write?
  {
    q.data != [] && |q.data| <= maxSize < q.pos + |q.data|
  }

  function StartOf(texts: Texts, q: Request): nat
    requires q.Write? && q.ip < |texts|
  {
    if q.append then |texts[q.ip]| else q.pos
  }

  /** The bytes a request was told it has written. */
  function Taken(q: Request, reply: Reply): seq<byte>
    requires q.Write?
  {
    if reply.Count? && reply.n <= |q.data| then q.data[..reply.n] else q.data
  }

  predicate NoEffect(q: Request, maxSize: nat) {
    q.Read? || q.data == [] || TooBig(q, maxSize)
  }

  /** What a request with this reply did to the files, if the file written was taken to hold `base`. */
  function After(texts: Texts, q: Request, reply: Reply, base: seq<byte>, maxSize: nat): (r: Texts)
    requires q.ip < |texts|
    ensures |r| == |texts|
  {
    if NoEffect(q, maxSize) then texts else texts[q.ip := Written(base, StartOf(texts, q), Taken(q, reply))]
  }

  /** A file is taken to hold what it holds, but for the bytes of its last zone when it is written right
      at an end that is not in the first block of a zone. */
  predicate BaseOk(g: Geo, texts: Texts, q: Request, reply: Reply, base: seq<byte>, maxSize: nat)
    requires g.bs > 0 && g.spz > 0 && q.ip < |texts|
  {
    var text := texts[q.ip];
    && |base| == |text|
    && (NoEffect(q, maxSize) || Taken(q, reply) == [] || StartOf(texts, q) != |text| || OffOf(g, |text|) == 0 ==> base == text)
    && forall p: nat | p < |text| && ZnOf(g, p) != ZnOf(g, |text|) :: base[p] == text[p]
  }

  /** A read gets the bytes of the file as far as it goes.  A write is told that all has been written,
      or, if the device fills up, how much of it. */
  predicate Right(texts: Texts, q: Request, reply: Reply, maxSize: nat)
    requires q.ip < |texts|
  {
    if q.Read? then reply == Bytes(Slice(texts[q.ip], q.pos, q.count))
    else if q.data == [] then reply == Count(OK, 0)
    else if TooBig(q, maxSize) then reply == Count(EFBIG, 0)
    else reply == Count(OK, |q.data|) || (reply.Count? && reply.r == ENOSPC && reply.n < |q.data|)
  }

  /** A write beyond the end that finds no space at once, and was not to start in the first block of
      a zone. */
  predicate OpensEnd(g: Geo, texts: Texts, q: Request, reply: Reply)
    requires g.bs > 0 && g.spz > 0 && q.ip < |texts|
  {
    q.Write? && reply == Count(ENOSPC, 0) && StartOf(texts, q) > |texts[q.ip]| && OffOf(g, StartOf(texts, q)) != 0
  }

  /** The check for a file that grows too big looks at the file position even if O_APPEND then
      replaces it, and does not work for more bytes than any file can have: in these cases there
      has to be room. */
  predicate HasRoom(g: Geo, texts: Texts, q: Request, maxSize: nat)
    requires g.bs > 0 && g.spz > 0 && q.ip < |texts|
  {
    q.Write? && (q.append || |q.data| > maxSize) ==> InLimit(g, StartOf(texts, q) + |q.data|)
  }

  // ---------- One request ----------

  lemma OtherFile(g: Geo, a: Fs, b: Fs, i: nat, j: nat)
    requires Shape(g, a) && OthersUntouched(g, a, b, i) && j < |a.inos| && j != i && FileState(g, a, j, a.inos[j].size)
    ensures j < |b.inos| && FileState(g, b, j, b.inos[j].size) && (FileOk(g, b, j) <==> FileOk(g, a, j))
    ensures Content(g, b, j, b.inos[j].size) == Content(g, a, j, a.inos[j].size)
  {
    hide Content, Untouched;
    UntouchedState(g, a, b, j, a.inos[j].size);
    UntouchedEnd(g, a, b, j, a.inos[j].size);
  }

  /** A write shows in the file written and in no other. */
  lemma WriteShows(g: Geo, a: Fs, b: Fs, chunk: nat, texts: Texts, i: nat, start: nat, data: seq<byte>)
    requires Shows(g, a, texts) && i < |texts| && WriteResult(g, a, b, chunk, i, start, data)
    ensures InLimit(g, a.inos[i].size) && Shows(g, b, texts[i := Written(TakenFor(g, a, chunk, i, start, data), start, data)])
  {
    hide Content, OthersUntouched, Written, ZeroTail, NothingBeyond, FileOk, TakenFor;
    WriteResultSays(g, a, b, chunk, i, start, data);
    forall j: nat | j < |texts| && j != i
      ensures FileState(g, b, j, b.inos[j].size) && Content(g, b, j, b.inos[j].size) == texts[j]
    {
      OtherFile(g, a, b, i, j);
    }
  }

  /** A write leaves all files in order, unless it finds no space for even one byte beyond the end. */
  lemma WriteOrder(g: Geo, a: Fs, b: Fs, chunk: nat, i: nat, start: nat, data: seq<byte>)
    requires Shape(g, a) && i < |a.inos| && InOrder(g, a) && WriteResult(g, a, b, chunk, i, start, data)
    ensures Shape(g, b) && (InOrder(g, b) <==> !(data == [] && start > a.inos[i].size && OffOf(g, start) != 0))
  {
    hide Content, OthersUntouched, Written, ZeroTail, NothingBeyond, FileState, EndMapped, TakenFor;
    WriteResultSays(g, a, b, chunk, i, start, data);
    assert FileOk(g, a, i);
    forall j: nat | j < |a.inos| && j != i ensures FileOk(g, b, j) {
      assert FileOk(g, a, j);
      hide FileOk;
      OtherFile(g, a, b, i, j);
    }
  }

  lemma WriteResultSays(g: Geo, a: Fs, b: Fs, chunk: nat, i: nat, start: nat, data: seq<byte>)
    requires WriteResult(g, a, b, chunk, i, start, data)
    ensures |b.inos| == |a.inos| && Shape(g, b) && Shape(g, a) && i < |a.inos| && FileState(g, b, i, b.inos[i].size)
    ensures FileState(g, a, i, a.inos[i].size)
  {
    hide Content, Written, FileOk, EndMapped, Untouched, ZeroTail, NothingBeyond, TakenFor;
  }

  lemma ShowsSays(g: Geo, fs: Fs, texts: Texts, i: nat)
    requires Shows(g, fs, texts) && i < |texts|
    ensures Shape(g, fs) && |texts| == |fs.inos| && FileState(g, fs, i, fs.inos[i].size)
    ensures Content(g, fs, i, fs.inos[i].size) == texts[i] && |texts[i]| == fs.inos[i].size
  {
    hide FileState, EndMapped;
    StateSays(g, fs, i, fs.inos[i].size);
    ContentSays(g, fs, i, fs.inos[i].size);
  }

  /** What a file is taken to hold, for a caller who knows what it holds. */
  lemma TakenBase(g: Geo, a: Fs, chunk: nat, texts: Texts, q: Request, reply: Reply, maxSize: nat)
    requires chunk > 0 && Shows(g, a, texts) && q.ip < |texts| && !NoEffect(q, maxSize)
    ensures Shape(g, a) && q.ip < |a.inos| && InLimit(g, a.inos[q.ip].size)
    ensures var base := TakenFor(g, a, chunk, q.ip, StartOf(texts, q), Taken(q, reply));
      && BaseOk(g, texts, q, reply, base, maxSize)
      && (base == texts[q.ip] <==> Taken(q, reply) == [] || EndsClean(g, a, chunk, q.ip, StartOf(texts, q)))
  {
    hide Content, Exposed, FileState, BlankBelow, Picked, EndMapped, Taken, ZnOf;
    ShowsSays(g, a, texts, q.ip);
    StateSays(g, a, q.ip, a.inos[q.ip].size);
    var size := a.inos[q.ip].size;
    ContentSays(g, a, q.ip, size);
    if !EndMapped(g, a, q.ip, size) {
      var z := Picked(g, a, chunk, q.ip);
      OpenEnd(g, a, q.ip, size);
      ExposedRight(g, a, q.ip, z);
      ExposedSays(g, a, q.ip, z, size);
      forall p: nat | p < size && ZnOf(g, p) != ZnOf(g, size)
        ensures Exposed(g, a, q.ip, z, size)[p] == Content(g, a, q.ip, size)[p]
      {
        ExposedBefore(g, a, q.ip, z, p);
      }
    }
  }

  lemma OrderClean(g: Geo, a: Fs, chunk: nat, i: nat, start: nat)
    requires Shape(g, a) && InOrder(g, a) && chunk > 0 && i < |a.inos|
    ensures EndsClean(g, a, chunk, i, start)
  {
    hide EndMapped, FileState, BlankBelow;
    assert FileOk(g, a, i);
  }

  /** Serving one request. */
  method ServeOne(fs: FileSys, q: Request, maxSize: nat, ghost texts: Texts) returns (reply: Reply, ghost base: seq<byte>)
    requires fs.Valid({}) && Shows(fs.g, fs.Model(), texts) && InLimit(fs.g, maxSize) && q.ip < |texts|
    requires fs.g.bs > 0 && fs.g.spz > 0 && HasRoom(fs.g, texts, q, maxSize)
    modifies fs
    ensures fs.Valid({}) && fs.g.bs > 0 && fs.g.spz > 0
    ensures Right(texts, q, reply, maxSize) && BaseOk(fs.g, texts, q, reply, base, maxSize)
    ensures Shows(fs.g, fs.Model(), After(texts, q, reply, base, maxSize))
    ensures Shape(fs.g, old(fs.Model())) && q.ip < |old(fs.inos)|
    ensures base == texts[q.ip] <==> NoEffect(q, maxSize) || Taken(q, reply) == [] || EndsClean(fs.g, old(fs.Model()), fs.chunk, q.ip, StartOf(texts, q))
    ensures InOrder(fs.g, old(fs.Model())) ==> base == texts[q.ip] && (InOrder(fs.g, fs.Model()) <==> !OpensEnd(fs.g, texts, q, reply))
  {
    hide Tidy, Content, FileState, EndMapped, WriteResult, Written, Slice, Shows, InOrder, InLimit, BaseOk, EndsClean, TakenFor, OffOf;
    ghost var a := fs.Model();
    ShowsSays(fs.g, a, texts, q.ip);
    base := texts[q.ip];
    match q
    case Read(ip, pos, count) =>
      var bytes, _ := ReadFile(fs, ip, pos, count);
      reply := Bytes(bytes);
      BaseIs(fs.g, texts, q, reply, maxSize);
    case Write(ip, pos, data, append) =>
      var r, n, _ := WriteFile(fs, ip, pos, data, append, maxSize);
      reply := Count(r, n);
      if data != [] && r != EFBIG {
        ghost var start := StartOf(texts, q);
        WriteShows(fs.g, a, fs.Model(), fs.chunk, texts, ip, start, data[..n]);
        TakenBase(fs.g, a, fs.chunk, texts, q, reply, maxSize);
        base := TakenFor(fs.g, a, fs.chunk, ip, start, data[..n]);
        if InOrder(fs.g, a) {
          WriteOrder(fs.g, a, fs.Model(), fs.chunk, ip, start, data[..n]);
          OrderClean(fs.g, a, fs.chunk, ip, start);
        }
      } else {
        BaseIs(fs.g, texts, q, reply, maxSize);
      }
  }

  lemma BaseIs(g: Geo, texts: Texts, q: Request, reply: Reply, maxSize: nat)
    requires g.bs > 0 && g.spz > 0 && q.ip < |texts|
    ensures BaseOk(g, texts, q, reply, texts[q.ip], maxSize)
  {
  }

  // ---------- Any sequence of requests ----------

  predicate Known(texts: Texts, qs: seq<Request>) {
    forall k :: 0 <= k < |qs| ==> qs[k].ip < |texts|
  }

  /** The files after the first `k` requests. */
  function TextsAt(texts: Texts, qs: seq<Request>, replies: seq<Reply>, bases: seq<seq<byte>>, maxSize: nat, k: nat): (r: Texts)
    requires k <= |qs| && k <= |replies| && k <= |bases| && Known(texts, qs)
    ensures |r| == |texts|
  {
    if k == 0 then texts
    else After(TextsAt(texts, qs, replies, bases, maxSize, k - 1), qs[k - 1], replies[k - 1], bases[k - 1], maxSize)
  }

  predicate Fit(texts: Texts, qs: seq<Request>, replies: seq<Reply>, bases: seq<seq<byte>>) {
    |replies| == |bases| <= |qs| && Known(texts, qs)
  }

  /** Every reply is right for the files as they were by then. */
  predicate AllRight(g: Geo, texts: Texts, qs: seq<Request>, replies: seq<Reply>, bases: seq<seq<byte>>, maxSize: nat)
    requires g.bs > 0 && g.spz > 0 && Fit(texts, qs, replies, bases)
  {
    forall k :: 0 <= k < |replies| ==>
      var now := TextsAt(texts, qs, replies, bases, maxSize, k);
      Right(now, qs[k], replies[k], maxSize) && BaseOk(g, now, qs[k], replies[k], bases[k], maxSize)
  }

  /** Every file was taken to hold what it held. */
  predicate AllAsHeld(texts: Texts, qs: seq<Request>, replies: seq<Reply>, bases: seq<seq<byte>>, maxSize: nat)
    requires Fit(texts, qs, replies, bases)
  {
    forall k :: 0 <= k < |replies| ==> bases[k] == TextsAt(texts, qs, replies, bases, maxSize, k)[qs[k].ip]
  }

  predicate NeverOpensEnd(g: Geo, texts: Texts, qs: seq<Request>, replies: seq<Reply>, bases: seq<seq<byte>>, maxSize: nat)
    requires g.bs > 0 && g.spz > 0 && Fit(texts, qs, replies, bases)
  {
    forall k :: 0 <= k < |replies| ==> !OpensEnd(g, TextsAt(texts, qs, replies, bases, maxSize, k), qs[k], replies[k])
  }

  lemma {:induction false} TextsAtGrows(texts: Texts, qs: seq<Request>, replies: seq<Reply>, bases: seq<seq<byte>>,
                                        more: seq<Reply>, moreBases: seq<seq<byte>>, maxSize: nat, k: nat)
    requires k <= |qs| && k <= |replies| && k <= |bases| && Known(texts, qs)
    ensures TextsAt(texts, qs, replies + more, bases + moreBases, maxSize, k) == TextsAt(texts, qs, replies, bases, maxSize, k)
  {
    hide After;
    if k > 0 { TextsAtGrows(texts, qs, replies, bases, more, moreBases, maxSize, k - 1); }
  }

  lemma OneMore(g: Geo, texts: Texts, qs: seq<Request>, replies: seq<Reply>, bases: seq<seq<byte>>, reply: Reply, base: seq<byte>, maxSize: nat)
    requires g.bs > 0 && g.spz > 0 && Fit(texts, qs, replies, bases) && |replies| < |qs| && AllRight(g, texts, qs, replies, bases, maxSize)
    requires Right(TextsAt(texts, qs, replies, bases, maxSize, |replies|), qs[|replies|], reply, maxSize)
    requires BaseOk(g, TextsAt(texts, qs, replies, bases, maxSize, |replies|), qs[|replies|], reply, base, maxSize)
    ensures AllRight(g, texts, qs, replies + [reply], bases + [base], maxSize)
    ensures TextsAt(texts, qs, replies + [reply], bases + [base], maxSize, |replies| + 1) ==
            After(TextsAt(texts, qs, replies, bases, maxSize, |replies|), qs[|replies|], reply, base, maxSize)
    ensures NeverOpensEnd(g, texts, qs, replies + [reply], bases + [base], maxSize) ==>
      NeverOpensEnd(g, texts, qs, replies, bases, maxSize) &&
      !OpensEnd(g, TextsAt(texts, qs, replies, bases, maxSize, |replies|), qs[|replies|], reply)
    ensures AllAsHeld(texts, qs, replies, bases, maxSize) && base == TextsAt(texts, qs, replies, bases, maxSize, |replies|)[qs[|replies|].ip] ==>
      AllAsHeld(texts, qs, replies + [reply], bases + [base], maxSize)
  {
    hide TextsAt, Right, After, OpensEnd, BaseOk;
    var next, nextBases, n := replies + [reply], bases + [base], |replies|;
    forall k: nat | k <= n ensures TextsAt(texts, qs, next, nextBases, maxSize, k) == TextsAt(texts, qs, replies, bases, maxSize, k) {
      TextsAtGrows(texts, qs, replies, bases, [reply], [base], maxSize, k);
    }
    TextsAtNext(texts, qs, next, nextBases, maxSize, n);
    forall k: nat | k < n ensures next[k] == replies[k] && nextBases[k] == bases[k] {}
    if NeverOpensEnd(g, texts, qs, next, nextBases, maxSize) {
      forall k: nat | k < n ensures !OpensEnd(g, TextsAt(texts, qs, replies, bases, maxSize, k), qs[k], replies[k]) {
        assert !OpensEnd(g, TextsAt(texts, qs, next, nextBases, maxSize, k), qs[k], next[k]);
      }
      assert !OpensEnd(g, TextsAt(texts, qs, next, nextBases, maxSize, n), qs[n], next[n]);
    }
  }

  lemma TextsAtNext(texts: Texts, qs: seq<Request>, replies: seq<Reply>, bases: seq<seq<byte>>, maxSize: nat, k: nat)
    requires k < |qs| && k < |replies| && k < |bases| && Known(texts, qs)
    ensures TextsAt(texts, qs, replies, bases, maxSize, k + 1) ==
            After(TextsAt(texts, qs, replies, bases, maxSize, k), qs[k], replies[k], bases[k], maxSize)
  {
  }

  /** Serving any sequence of requests, through a full device and after: every reply is right, and at
      the end every file shows what its writes were told they had written, over what it was taken to
      hold.  Only want of room where the size check does not work ends the service early.  Files get
      out of order by nothing but a write beyond the end of which no byte finds space, and unless
      there is such a write, every file is taken to hold what it holds. */
  method Serve(fs: FileSys, qs: seq<Request>, maxSize: nat, ghost texts: Texts) returns (replies: seq<Reply>, ghost bases: seq<seq<byte>>)
    requires fs.Valid({}) && Shows(fs.g, fs.Model(), texts) && InLimit(fs.g, maxSize) && Known(texts, qs)
    modifies fs
    ensures fs.Valid({}) && Fit(texts, qs, replies, bases) && AllRight(fs.g, texts, qs, replies, bases, maxSize)
    ensures Shows(fs.g, fs.Model(), TextsAt(texts, qs, replies, bases, maxSize, |replies|))
    ensures |replies| < |qs| ==> !HasRoom(fs.g, TextsAt(texts, qs, replies, bases, maxSize, |replies|), qs[|replies|], maxSize)
    ensures InOrder(fs.g, old(fs.Model())) && NeverOpensEnd(fs.g, texts, qs, replies, bases, maxSize) ==>
      InOrder(fs.g, fs.Model()) && AllAsHeld(texts, qs, replies, bases, maxSize)
  {
    hide Tidy, Shows, After, Right, TextsAt, AllRight, NeverOpensEnd, OpensEnd, InOrder, InLimit, BaseOk, AllAsHeld, EndsClean;
    var g := fs.g;
    TidyShape(g, fs.Model(), {});
    replies, bases := [], [];
    ghost var ordered := InOrder(g, fs.Model());
    NoneYet(g, texts, qs, maxSize);
    while |replies| < |qs|
      invariant fs.Valid({}) && Fit(texts, qs, replies, bases) && AllRight(g, texts, qs, replies, bases, maxSize)
      invariant Shows(g, fs.Model(), TextsAt(texts, qs, replies, bases, maxSize, |replies|))
      invariant ordered && NeverOpensEnd(g, texts, qs, replies, bases, maxSize) ==>
        InOrder(g, fs.Model()) && AllAsHeld(texts, qs, replies, bases, maxSize)
      decreases |qs| - |replies|
    {
      var q := qs[|replies|];
      ghost var now := TextsAt(texts, qs, replies, bases, maxSize, |replies|);
      ShowsSays(g, fs.Model(), now, q.ip);
      if q.Write? && (q.append || |q.data| > maxSize) && !InLimit(g, (if q.append then fs.inos[q.ip].size else q.pos) + |q.data|) { return; }
      var reply;
      ghost var base;
      reply, base := ServeOne(fs, q, maxSize, now);
      OneMore(g, texts, qs, replies, bases, reply, base, maxSize);
      replies, bases := replies + [reply], bases + [base];
    }
  }

  lemma NoneYet(g: Geo, texts: Texts, qs: seq<Request>, maxSize: nat)
    requires g.bs > 0 && g.spz > 0 && Known(texts, qs)
    ensures TextsAt(texts, qs, [], [], maxSize, 0) == texts && AllRight(g, texts, qs, [], [], maxSize) && AllAsHeld(texts, qs, [], [], maxSize)
  {
  }

  /** As long as the device is not full and files are taken to hold what they hold, there is but one
      right reply, so the service answers as any other service of byte sequences would. */
  lemma {:induction false} OneAnswer(g: Geo, texts: Texts, qs: seq<Request>, r0: seq<Reply>, b0: seq<seq<byte>>,
                                     r1: seq<Reply>, b1: seq<seq<byte>>, maxSize: nat, k: nat)
    requires g.bs > 0 && g.spz > 0 && Fit(texts, qs, r0, b0) && Fit(texts, qs, r1, b1) && k <= |r0| && k <= |r1|
    requires AllRight(g, texts, qs, r0, b0, maxSize) && AllRight(g, texts, qs, r1, b1, maxSize)
    requires AllAsHeld(texts, qs, r0, b0, maxSize) && AllAsHeld(texts, qs, r1, b1, maxSize)
    requires forall j :: 0 <= j < k && r0[j].Count? ==> r0[j].r != ENOSPC
    requires forall j :: 0 <= j < k && r1[j].Count? ==> r1[j].r != ENOSPC
    ensures r0[..k] == r1[..k] && TextsAt(texts, qs, r0, b0, maxSize, k) == TextsAt(texts, qs, r1, b1, maxSize, k)
  {
    hide Right, After, TextsAt, BaseOk;
    if k > 0 {
      OneAnswer(g, texts, qs, r0, b0, r1, b1, maxSize, k - 1);
      OneRight(TextsAt(texts, qs, r0, b0, maxSize, k - 1), qs[k - 1], r0[k - 1], r1[k - 1], maxSize);
      assert r0[..k] == r0[..k - 1] + [r0[k - 1]] && r1[..k] == r1[..k - 1] + [r1[k - 1]];
      TextsAtNext(texts, qs, r0, b0, maxSize, k - 1);
      TextsAtNext(texts, qs, r1, b1, maxSize, k - 1);
    } else {
      NoneYet(g, texts, qs, maxSize);
      TextsAtGrows(texts, qs, [], [], r0, b0, maxSize, 0);
      TextsAtGrows(texts, qs, [], [], r1, b1, maxSize, 0);
      assert [] + r0 == r0 && [] + r1 == r1 && [] + b0 == b0 && [] + b1 == b1;
    }
  }

  lemma OneRight(texts: Texts, q: Request, a: Reply, b: Reply, maxSize: nat)
    requires q.ip < |texts| && Right(texts, q, a, maxSize) && Right(texts, q, b, maxSize)
    requires (a.Count? ==> a.r != ENOSPC) && (b.Count? ==> b.r != ENOSPC)
    ensures a == b
  {
    hide Slice;
  }

  /** With one block in a zone every file that shows its bytes is in order. */
  lemma SmallZonesOrder(g: Geo, fs: Fs, texts: Texts)
    requires Shows(g, fs, texts) && g.spz == 1
    ensures InOrder(g, fs)
  {
    hide Content, FileState, EndMapped;
    forall i: nat | i < |fs.inos| ensures FileOk(g, fs, i) { SmallZonesEnd(g, fs, i, fs.inos[i].size); }
  }

  /** A device with nothing in it: whatever its blocks hold, every file is empty. */
  lemma FreshDevice(g: Geo, fs: Fs)
    requires Shape(g, fs) && forall k :: 0 < k < |fs.bits| ==> !fs.bits[k]
    requires forall i :: 0 <= i < |fs.inos| ==> fs.inos[i].size == 0
    requires forall i, k :: 0 <= i < |fs.inos| && 0 <= k < g.ndz + 2 ==> fs.inos[i].zone[k] == 0
    ensures Tidy(g, fs, {}) && Shows(g, fs, seq(|fs.inos|, _ => [])) && InOrder(g, fs)
  {
    forall i, s | ValidOwner(g, fs, i, s) ensures Own(g, fs, i, s) == 0 {
      match s
      case Data(Double(j, x)) => assert Under(g, fs.store, fs.inos[i].zone[g.ndz + 1], j) == 0;
      case _ =>
    }
    forall z | LegalZone(g, z) ensures !fs.bits[BitOf(g, z)] {}
    hide Quot, Limit;
    forall i: nat | i < |fs.inos| ensures FileOk(g, fs, i) && Content(g, fs, i, 0) == [] {
      assert ZeroTail(g, fs, i, 0) by { QuotIs(0, 0, 0, g.bs); }
      assert EndMapped(g, fs, i, 0) by { QuotIs(0, 0, 0, g.bs); QuotIs(0, 0, 0, g.spz); }
      forall zn | 0 <= zn < Limit(g) ensures ZoneOf(g, fs.store, fs.inos[i].zone, zn) == 0 {
        assert ValidOwner(g, fs, i, Data(PosOf(g, zn)));
        assert Own(g, fs, i, Data(PosOf(g, zn))) == 0;
      }
    }
  }
}
