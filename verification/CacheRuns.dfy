module CacheRuns {
  /** Whole runs of the cache, from buf_pool on: a block reads as the bytes last written to it. */

  import opened Storage
  import opened CacheSpec
  import opened CacheInvisible
  import opened CachePrefetch

  datatype Op =
    | GetBlock(k: Key, mode: Mode)
    | PutBlock(i: int, oneShot: bool, writeImmed: bool)
    | Modify(i: int, data: Block)
    | FlushAll(dev: nat)
    | DoSync
    | Invalidated(dev: nat)
    | Rahead(k: Key, ahead: int, delivered: nat)

  /** What the callers keep to: a buffer obtained with NO_READ is filled before the cache
      is called again, only held buffers are written and released, some buffer is free
      when one is needed, and invalidate comes after do_sync. */
  ghost predicate Legal(c: Cache, op: Op) {
    match op
    case GetBlock(k, mode) => c.blank == NIL && CanGet(c, k)
    case PutBlock(i, _, _) => c.blank == NIL && 0 <= i < |c.cells| && c.cells[i].count > 0
    case Modify(i, _) => (c.blank == NIL || c.blank == i) && 0 <= i < |c.cells| && c.cells[i].count > 0
    case FlushAll(dev) => c.blank == NIL && dev != NO_DEV
    case DoSync => c.blank == NIL
    case Invalidated(dev) => c.blank == NIL && dev != NO_DEV && AllClean(c, |c.cells|)
    case Rahead(k, _, _) => c.blank == NIL && CanGet(c, k) && k.dev != NO_DEV
  }

  ghost function Step(c: Cache, op: Op): Cache
    requires Inv(c) && Legal(c, op)
  {
    match op
    case GetBlock(k, mode) => Get(c, k, mode).0
    case PutBlock(i, oneShot, writeImmed) => Put(c, i, oneShot, writeImmed)
    case Modify(i, data) => Write(c, i, data)
    case FlushAll(dev) => Flush(c, dev)
    case DoSync => Sync(c, |c.cells|)
    case Invalidated(dev) => Invalidate(c, dev)
    case Rahead(k, ahead, delivered) => ReadAhead(c, k, ahead, delivered).0
  }

  /** The bytes of `k` after a step, given the bytes before it: only a holder's write
      to the buffer of `k` counts. */
  function After(c: Cache, op: Op, k: Key, bytes: Block): Block {
    match op
    case Modify(i, data) => if 0 <= i < |c.cells| && c.cells[i].Id() == k then data else bytes
    case _ => bytes
  }

  /** Every step keeps the structure of the cache and does to its contents just what the
      holder asked for. */
  lemma StepMeaning(c: Cache, op: Op, k: Key)
    requires Inv(c) && Legal(c, op) && Kept(c, k)
    ensures var d := Step(c, op);
      Inv(d) && Kept(d, k) && Content(d, k) == After(c, op, k, Content(c, k))
  {
    match op
    case GetBlock(j, mode) =>
      GetKeeps(c, j, mode);
      UseInvisible(c, Step(c, op), k);
    case PutBlock(i, oneShot, writeImmed) =>
      PutKeeps(c, i, oneShot, writeImmed);
      UseInvisible(c, Step(c, op), k);
    case Modify(i, data) => WriteChangesOne(c, i, data);
    case FlushAll(dev) =>
      FlushInv(c, dev);
      UseInvisible(c, Step(c, op), k);
    case DoSync =>
      SyncKeeps(c, |c.cells|);
      UseInvisible(c, Step(c, op), k);
    case Invalidated(dev) =>
      InvalidateMeaning(c, dev);
      InvalidateInvisible(c, dev);
    case Rahead(j, ahead, delivered) =>
      ReadAheadKeeps(c, j, ahead, delivered);
      UseInvisible(c, Step(c, op), k);
  }

  lemma UseInvisible(c: Cache, d: Cache, k: Key)
    requires Invisible(c, d) && Kept(c, k)
    ensures Inv(d) && Kept(d, k) && Content(d, k) == Content(c, k)
  {
  }

  ghost predicate LegalRun(c: Cache, ops: seq<Op>)
    requires Inv(c)
    decreases |ops|
  {
    ops == [] || (Legal(c, ops[0]) && (StepInv(c, ops[0]); LegalRun(Step(c, ops[0]), ops[1..])))
  }

  lemma StepInv(c: Cache, op: Op)
    requires Inv(c) && Legal(c, op)
    ensures Inv(Step(c, op))
  {
    match op
    case GetBlock(j, mode) => GetKeeps(c, j, mode);
    case PutBlock(i, oneShot, writeImmed) => PutKeeps(c, i, oneShot, writeImmed);
    case Modify(i, data) => WriteChangesOne(c, i, data);
    case FlushAll(dev) => FlushInv(c, dev);
    case DoSync => SyncKeeps(c, |c.cells|);
    case Invalidated(dev) => InvalidateMeaning(c, dev);
    case Rahead(j, ahead, delivered) => ReadAheadKeeps(c, j, ahead, delivered);
  }

  ghost function Run(c: Cache, ops: seq<Op>): (d: Cache)
    requires Inv(c) && LegalRun(c, ops)
    ensures Inv(d)
    decreases |ops|
  {
    if ops == [] then c else StepInv(c, ops[0]); Run(Step(c, ops[0]), ops[1..])
  }

  /** The bytes last written to `k` by the holders of buffers during the run. */
  ghost function LastWritten(c: Cache, ops: seq<Op>, k: Key, bytes: Block): Block
    requires Inv(c) && LegalRun(c, ops)
    decreases |ops|
  {
    if ops == [] then bytes
    else StepInv(c, ops[0]); LastWritten(Step(c, ops[0]), ops[1..], k, After(c, ops[0], k, bytes))
  }

  lemma {:induction false} RunMeaning(c: Cache, ops: seq<Op>, k: Key)
    requires Inv(c) && LegalRun(c, ops) && Kept(c, k)
    ensures Kept(Run(c, ops), k)
    ensures Content(Run(c, ops), k) == LastWritten(c, ops, k, Content(c, k))
    decreases |ops|
  {
    hide Inv, Step, Legal, After, Content;
    if ops != [] {
      StepInv(c, ops[0]);
      StepMeaning(c, ops[0], k);
      RunMeaning(Step(c, ops[0]), ops[1..], k);
    }
  }

  // ---------- From the start ----------

  /** buf_pool and init_cache2. */
  function Initial(cells: seq<Cell>, disk: map<Key, Block>, tags: seq<Key>, size2: nat): Cache {
    Cache(cells, Indices(|cells|), disk, tags, 0, if size2 > |tags| then |tags| else size2, NIL)
  }

  /** Nothing is cached and nobody holds a buffer. */
  predicate Fresh(cells: seq<Cell>, tags: seq<Key>) {
    && (forall i :: 0 <= i < |cells| ==> cells[i].dev == NO_DEV && cells[i].blk == 0 && cells[i].count == 0)
    && (forall b :: 0 <= b < |tags| ==> tags[b].dev == NO_DEV)
  }

  lemma InitialInv(cells: seq<Cell>, disk: map<Key, Block>, tags: seq<Key>, size2: nat)
    requires Fresh(cells, tags)
    ensures Inv(Initial(cells, disk, tags, size2))
    ensures forall k: Key {:trigger Content(Initial(cells, disk, tags, size2), k)} ::
      k.dev != NO_DEV ==> Content(Initial(cells, disk, tags, size2), k) == OnDisk(disk, k)
  {
    var c := Initial(cells, disk, tags, size2);
    forall i | 0 <= i < |cells| ensures i in c.lru { assert c.lru[i] == i; }
  }

  /** Cache transparency: after any run that starts with an empty cache over any disk,
      get_block returns for a block of a file device the bytes last written to it, or
      what the disk held if there are none. */
  lemma CacheTransparent(cells: seq<Cell>, disk: map<Key, Block>, tags: seq<Key>, size2: nat, ops: seq<Op>, k: Key)
    requires Fresh(cells, tags) && k.dev != NO_DEV && (k.dev == DEV_RAM ==> size2 == 0)
    requires var c := Initial(cells, disk, tags, size2); Inv(c) && LegalRun(c, ops)
    requires Legal(Run(Initial(cells, disk, tags, size2), ops), GetBlock(k, Normal))
    ensures var c := Initial(cells, disk, tags, size2);
      var (d, i) := Get(Run(c, ops), k, Normal);
      d.cells[i].Id() == k && d.cells[i].data == LastWritten(c, ops, k, OnDisk(disk, k))
  {
    hide Get, Coherent, FreeList, Content, Run, LegalRun, LastWritten;
    var c := Initial(cells, disk, tags, size2);
    InitialInv(cells, disk, tags, size2);
    assert Content(c, k) == OnDisk(disk, k);
    RunMeaning(c, ops, k);
    var e := Run(c, ops);
    GetKeeps(e, k, Normal);
    UseInvisible(e, Get(e, k, Normal).0, k);
  }
}
