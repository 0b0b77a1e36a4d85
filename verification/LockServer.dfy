module LockServer {
  /** The lock table in place: fcntl with F_GETLK, F_SETLK and F_SETLKW, and the waiting processes. */

  import opened Storage
  import opened Locks

  datatype Request = GetLk | SetLk | SetLkW
  datatype Type = ReadType | WriteType | UnlockType | OtherType
  datatype Whence = SeekSet | SeekCur | SeekEnd | OtherWhence
  datatype Answer = OK | EINVAL | EBADF | EAGAIN | ENOLCK | SUSPEND | Blocker(s: Slot) | NoBlocker

  /** fcntl with a locking request: the caller's process id, the flock structure, the mode of the
      descriptor, and the file. */
  datatype Call = Call(pid: int, req: Request, ltype: Type, readable: bool, writable: bool, regular: bool,
                       whence: Whence, start: Offset, len: Offset, ino: nat)

  /** Where the descriptor stands, and the size of the file, when a call is served. */
  datatype Place = Place(pos: Offset, size: Offset)

  /** A process as far as locks are concerned: what it asked for when it was suspended. */
  datatype Waiter = Waiter(suspended: bool, revived: bool, range: Range, call: Call)

  function KindOf(ltype: Type): Kind {
    if ltype == ReadType then ReadLock else WriteLock
  }

  /** A slot as it is when the program starts. */
  const FREE := Slot(Unused, 0, 0, 0, 0)

  // ---------- Positions are unsigned and 32 bits wide ----------

  type Offset = x: int | 0 <= x < OFF

  const OFF: int := 0x1_0000_0000

  /** MAX_FILE_POS. */
  const MAX_FILE_POS: int := OFF - 1

  function Wrap(x: int): (r: int)
    ensures 0 <= r < OFF
    ensures 0 <= x < OFF ==> r == x
  {
    x % OFF
  }

  /** An off_t, seen as a long. */
  function Signed(x: int): int {
    if x < 0x8000_0000 then x else x - OFF
  }

  datatype Region = Region(first: int, last: int) | BadRegion

  /** The first and last byte that a request is about. */
  function RegionOf(base: int, start: int, len: int): (r: Region) {
    if Signed(start) > 0 && Wrap(base + start) < base then BadRegion
    else if Signed(start) < 0 && Wrap(base + start) > base then BadRegion
    else
      var first := Wrap(base + start);
      var last := if len == 0 then MAX_FILE_POS else Wrap(first + len - 1);
      if last < first then BadRegion else Region(first, last)
  }

  /** Nothing is lost by the 32 bits: a request names the bytes it should, or is refused because
      they are not all positions; a length of 0 means the rest of the file. */
  lemma RegionMeaning(base: int, start: int, len: int)
    requires 0 <= base < OFF && 0 <= start < OFF && 0 <= len < OFF
    ensures
      var first := base + Signed(start);
      var last := if len == 0 then MAX_FILE_POS else first + len - 1;
      RegionOf(base, start, len) == (if 0 <= first && last < OFF && first < OFF then Region(first, last) else BadRegion)
  {
    var first := base + Signed(start);
    if first >= OFF {
      assert Wrap(base + start) == first - OFF;
    } else if first < 0 {
      assert Wrap(base + start) == first + OFF;
    } else {
      assert Wrap(base + start) == first;
      if len > 0 && first + len - 1 >= OFF { assert Wrap(first + len - 1) == first + len - 1 - OFF; }
    }
  }

  class LockTable {
    // file_lock, nr_locks, and the processes after INIT as far as they wait for locks.
    var slots: seq<Slot>
    var nrLocks: int
    var waiters: seq<Waiter>

    /** Safe locks, a right count; whoever waits asked for a range of bytes with F_SETLKW. */
    ghost predicate Valid()
      reads this
    {
      Safe(slots) && nrLocks == Used(slots) && forall p :: 0 <= p < |waiters| ==> Waits(waiters[p])
    }

    /** Whoever waits for a lock and is not being revived is kept from it by one. */
    ghost predicate NoLostWakeup()
      reads this
    {
      NoneLost(slots, waiters)
    }

    constructor (lockNr: nat, procNr: nat)
      ensures Valid() && NoLostWakeup() && |slots| == lockNr && |waiters| == procNr && nrLocks == 0
      ensures (forall i :: 0 <= i < lockNr ==> slots[i] == FREE) && forall p :: 0 <= p < procNr ==> !waiters[p].suspended
    {
      slots := seq(lockNr, _ => FREE);
      nrLocks := 0;
      waiters := seq(procNr, _ => Waiter(false, false, Range(0, 0, 0), Call(0, GetLk, OtherType, false, false, false, SeekSet, 0, 0, 0)));
      new;
      NoneUsed(slots);
    }

    /** lock_revive: every process that waits for a lock is to try again. */
    method LockRevive()
      modifies this`waiters
      ensures Revived(old(waiters), waiters, true)
    {
      var p := 0;
      while p < |waiters|
        invariant 0 <= p <= |waiters| == |old(waiters)|
        invariant forall q :: 0 <= q < |waiters| ==>
          waiters[q] == if q < p && old(waiters)[q].suspended then old(waiters)[q].(revived := true) else old(waiters)[q]
      {
        if waiters[p].suspended {
          waiters := waiters[p := waiters[p].(revived := true)];
        }
        p := p + 1;
      }
    }

    /** The loop of lock_op for F_UNLCK.  No slot's process is looked at: the locks of all
        processes on the range are cleared.  It runs out of slots exactly if RunsOut says so beforehand,
        and then exactly the slots before the one that cannot be split have given up the range. */
    method Unlock(r: Range) returns (full: bool, unlocking: bool)
      requires Valid() && r.first <= r.last
      modifies this`slots, this`nrLocks
      ensures Valid() && |slots| == |old(slots)|
      ensures full <==> RunsOut(old(slots), r)
      ensures !full ==> Cleared(old(slots), slots, r)
      ensures unlocking <==> exists i :: 0 <= i < |slots| && Overlaps(old(slots)[i], r)
      ensures !unlocking ==> slots == old(slots)
      ensures full ==> ClearedUpTo(old(slots), slots, r, Short(old(slots), r, 0)) && Safe(slots)
      ensures full ==> forall i :: 0 <= i < |slots| ==> slots[i].kind != Unused
    {
      hide Clearing, Cleared, ClearedUpTo, Used, Safe, Covers, Spare, Short, RunsOut;
      ghost var t0 := slots;
      full, unlocking := false, false;
      var i := 0;
      ClearingStarts(t0, r);
      ClearingSays(t0, slots, r, i);
      SpareStarts(t0, r);
      while i < |slots|
        invariant 0 <= i <= |slots| == |t0| && nrLocks == Used(slots) && Clearing(t0, slots, r, i) && Safe(slots)
        invariant nrLocks + Spare(t0, r, i) == |t0| && Short(t0, r, i) == Short(t0, r, 0)
        invariant unlocking <==> exists j :: 0 <= j < i && Overlaps(t0[j], r)
        invariant !unlocking ==> slots == t0
      {
        var s := slots[i];
        SlotAsBefore(t0, slots, r, i);
        SpareNext(t0, r, i);
        if !Overlaps(s, r) {
          ClearSkip(t0, slots, r, i);
          i := i + 1;
          continue;
        }
        unlocking := true;
        if r.first <= s.first && r.last >= s.last {
          ReplaceSlot(t0, r, i, s.(kind := Unused));
          nrLocks := nrLocks - 1;
        } else if r.first <= s.first {
          ReplaceSlot(t0, r, i, s.(first := r.last + 1));
        } else if r.last >= s.last {
          ReplaceSlot(t0, r, i, s.(last := r.first - 1));
        } else {
          UsedFull(slots);
          if nrLocks == |slots| {
            full := true;
            ClearingExact(t0, slots, r, i);
            ShortIs(t0, r);
            return;
          }
          SplitSlot(t0, r, i);
        }
        i := i + 1;
      }
      ClearingEnds(t0, slots, r);
      ShortIs(t0, r);
    }

    /** A lock that reaches beyond the range on both sides becomes two, with an unused slot for the
        upper part. */
    method SplitSlot(ghost t0: seq<Slot>, r: Range, i: nat)
      requires Clearing(t0, slots, r, i) && Safe(slots) && i < |slots| && Splits(slots[i], r) && r.first <= r.last
      requires nrLocks == Used(slots) && nrLocks < |slots|
      modifies this`slots, this`nrLocks
      ensures |slots| == |old(slots)| && Clearing(t0, slots, r, i + 1) && Safe(slots)
      ensures nrLocks == old(nrLocks) + 1 == Used(slots)
    {
      hide Clearing, Used, Safe, Covers;
      var s := slots[i];
      UsedFull(slots);
      var e := FreeSlot();
      var upper := s.(first := r.last + 1);
      ClearSave(t0, slots, r, i, e, upper);
      UsedUpdate(slots, e, upper);
      slots := slots[e := upper];
      SplitCovers(slots, i, e, s, r);
      ReplaceSlot(t0, r, i, s.(last := r.first - 1));
      nrLocks := nrLocks + 1;
    }

    /** The first unused slot. */
    method FreeSlot() returns (e: nat)
      requires exists i :: 0 <= i < |slots| && slots[i].kind == Unused
      ensures e < |slots| && slots[e].kind == Unused
    {
      e := 0;
      while slots[e].kind != Unused
        invariant e < |slots| && exists i :: e <= i < |slots| && slots[i].kind == Unused
        decreases |slots| - e
      {
        e := e + 1;
      }
    }

    /** A slot shrinks to what is left of it. */
    method ReplaceSlot(ghost t0: seq<Slot>, r: Range, i: nat, s: Slot)
      requires Clearing(t0, slots, r, i) && i < |slots| && slots[i].kind != Unused && !Overlaps(s, r)
      requires s.kind != Unused ==> s.first <= s.last && PartOf(s, slots[i])
      requires forall ino, x, k, p :: Holds(slots[i], ino, x, k, p) && k != Unused && !(ino == r.ino && r.first <= x <= r.last) ==>
        (Holds(s, ino, x, k, p) || exists j :: 0 <= j < |slots| && j != i && Holds(slots[j], ino, x, k, p))
      modifies this`slots
      ensures slots == old(slots)[i := s] && Clearing(t0, slots, r, i + 1) && Safe(slots)
      ensures Used(slots) == Used(old(slots)) - (if s.kind == Unused then 1 else 0)
    {
      hide Clearing, Used, Covers, Safe;
      ClearStep(t0, slots, r, i, s);
      ClearingSays(t0, slots[i := s], r, i + 1);
      UsedUpdate(slots, i, s);
      slots := slots[i := s];
    }

    /** The loop of lock_op for F_GETLK, F_SETLK and F_SETLKW: the first lock in the way, if any, and if
        there is none, the first unused slot. */
    method FindBlocker(r: Range, kind: Kind, pid: int) returns (i: int, empty: int)
      requires kind != Unused
      ensures i == NIL <==> !Conflict(slots, r, kind, pid)
      ensures i != NIL ==> FirstBlocker(slots, r, kind, pid, i)
      ensures i == NIL ==> empty == if FirstUnused(slots, 0) < |slots| then FirstUnused(slots, 0) else NIL
    {
      hide FirstUnused;
      i, empty := 0, NIL;
      while i < |slots|
        invariant 0 <= i <= |slots| && forall j :: 0 <= j < i ==> !Blocks(slots[j], r, kind, pid)
        invariant if empty == NIL then FirstUnused(slots, 0) == FirstUnused(slots, i) else empty == FirstUnused(slots, 0) < |slots|
      {
        var s := slots[i];
        FirstUnusedNext(slots, i);
        if s.kind == Unused {
          if empty == NIL { empty := i; }
          i := i + 1;
          continue;
        }
        if s.ino != r.ino || r.last < s.first || r.first > s.last || (kind == ReadLock && s.kind == ReadLock) || s.pid == pid {
          i := i + 1;
          continue;
        }
        return;
      }
      i := NIL;
    }

    /** lock_op: fcntl with one of the locking requests, by process slot `p`. */
    method LockOp(p: nat, call: Call, at: Place) returns (a: Answer)
      requires Valid() && p < |waiters| && !waiters[p].suspended
      modifies this
      ensures Valid() && |waiters| == |old(waiters)| && |slots| == |old(slots)|
      ensures Served(old(slots), slots, old(waiters), waiters, p, call, at, a)
      ensures !Malformed(call) && !WrongMode(call) ==>
        var first := (if call.whence == SeekCur then at.pos else if call.whence == SeekEnd then at.size else 0)
                     + (if call.start < 0x8000_0000 then call.start else call.start - 0x1_0000_0000);
        var last := if call.len == 0 then 0xFFFF_FFFF else first + call.len - 1;
        if call.whence == OtherWhence || first < 0 || first > 0xFFFF_FFFF || last > 0xFFFF_FFFF
        then a == EINVAL && slots == old(slots) && waiters == old(waiters)
        else if call.ltype == UnlockType
        then ClearOutcome(old(slots), slots, old(waiters), waiters, Range(call.ino, first, last), a)
        else SetOutcome(old(slots), slots, old(waiters), waiters, p, call, Range(call.ino, first, last), a)
      ensures old(NoLostWakeup()) ==> (NoLostWakeup() <==> !Loses(old(slots), old(waiters), call, at))
    {
      hide Safe, Covers, Used, Cleared, ClearedUpTo, Conflict, Added, RunsOut, Short, FirstUnused, NoneLost, WakeupsKept;
      if call.ltype == OtherType { return EINVAL; }
      if call.req == GetLk && call.ltype == UnlockType { return EINVAL; }
      if !call.regular { return EINVAL; }
      if call.req != GetLk && call.ltype == ReadType && !call.readable { return EBADF; }
      if call.req != GetLk && call.ltype == WriteType && !call.writable { return EBADF; }
      RegionIs(call, at);
      var g := RegionAt(call, at);
      if g == BadRegion { return EINVAL; }
      var r := Range(call.ino, g.first, g.last);
      if call.ltype == UnlockType {
        a := Clear(r);
      } else {
        a := Set(p, call, r);
      }
    }

    /** F_SETLK and F_SETLKW for F_UNLCK. */
    method Clear(r: Range) returns (a: Answer)
      requires Valid() && r.first <= r.last
      modifies this
      ensures Valid() && |waiters| == |old(waiters)| && |slots| == |old(slots)|
      ensures ClearOutcome(old(slots), slots, old(waiters), waiters, r, a)
      ensures old(NoLostWakeup()) ==> (NoLostWakeup() <==> !RunsOut(old(slots), r) || WakeupsKept(old(slots), old(waiters), r))
    {
      hide Safe, Covers, Used, Cleared, ClearedUpTo, Conflict, RunsOut, Short, KeptFrom;
      ghost var t0 := slots;
      var full, unlocking := Unlock(r);
      if full {
        KeptAre(t0, slots, waiters, r);
        return ENOLCK;
      }
      if unlocking { LockRevive(); }
      return OK;
    }

    /** The requests for F_RDLCK and F_WRLCK. */
    method Set(p: nat, call: Call, r: Range) returns (a: Answer)
      requires Valid() && p < |waiters| && !waiters[p].suspended && r.first <= r.last
      requires call.ltype == ReadType || call.ltype == WriteType
      modifies this
      ensures Valid() && |waiters| == |old(waiters)| && |slots| == |old(slots)|
      ensures SetOutcome(old(slots), slots, old(waiters), waiters, p, call, r, a)
      ensures old(NoLostWakeup()) ==> NoLostWakeup()
    {
      hide Safe, Covers, Used, Conflict, Added, FirstUnused;
      var kind := KindOf(call.ltype);
      var i, empty := FindBlocker(r, kind, call.pid);
      if i != NIL {
        if call.req == GetLk { return Blocker(slots[i]); }
        if call.req == SetLk { return EAGAIN; }
        waiters := waiters[p := Waiter(true, false, r, call)];
        return SUSPEND;
      }
      if call.req == GetLk { return NoBlocker; }
      if empty == NIL { return ENOLCK; }
      var s := Slot(kind, call.pid, r.ino, r.first, r.last);
      FirstUnusedIs(slots);
      SetSafe(slots, r, kind, call.pid, empty);
      SetAdds(slots, r, kind, call.pid, empty);
      StillBlocked(slots, empty, s);
      UsedUpdate(slots, empty, s);
      slots := slots[empty := s];
      nrLocks := nrLocks + 1;
      a := OK;
    }

    /** get_work picks a process that was waiting for a lock and its saved call is served again. */
    method Retry(p: nat, at: Place) returns (a: Answer)
      requires Valid() && p < |waiters| && waiters[p].revived
      modifies this
      ensures Valid() && |waiters| == |old(waiters)| && |slots| == |old(slots)|
      ensures var w0 := old(waiters)[p := old(waiters)[p].(suspended := false, revived := false)];
        Served(old(slots), slots, w0, waiters, p, old(waiters)[p].call, at, a)
      ensures old(NoLostWakeup()) ==> NoLostWakeup()
    {
      hide Safe, Used, Conflict, Served;
      waiters := waiters[p := waiters[p].(suspended := false, revived := false)];
      a := LockOp(p, waiters[p].call, at);
    }

    /** do_unpause: a signal ends the wait, unless the process does not wait. */
    method Unpause(p: nat)
      requires Valid() && p < |waiters| && !waiters[p].revived
      modifies this`waiters
      ensures Valid() && waiters == old(waiters)[p := old(waiters)[p].(suspended := false)]
      ensures old(NoLostWakeup()) ==> NoLostWakeup()
    {
      hide Safe, Used, Conflict;
      waiters := waiters[p := waiters[p].(suspended := false)];
    }

    /** do_fork: the child starts as a copy of its parent, which does not wait; locks are not inherited. */
    method Fork(parent: nat, child: nat)
      requires Valid() && parent < |waiters| && child < |waiters| && !waiters[parent].suspended && !waiters[child].suspended
      modifies this`waiters
      ensures Valid() && waiters == old(waiters)[child := old(waiters)[parent]]
      ensures old(NoLostWakeup()) ==> NoLostWakeup()
    {
      hide Safe, Used, Conflict;
      waiters := waiters[child := waiters[parent]];
    }

    /** do_close: all locks of the process on the file go, and if there were any, whoever waits is
        revived. */
    method CloseLocks(ino: nat, pid: int)
      requires Valid()
      modifies this
      ensures Valid() && |waiters| == |old(waiters)| && |slots| == |old(slots)|
      ensures Dropped(old(slots), slots, ino, pid)
      ensures Revived(old(waiters), waiters, exists i :: 0 <= i < |slots| && Owned(old(slots)[i], ino, pid))
      ensures old(NoLostWakeup()) ==> NoLostWakeup()
    {
      hide Safe, Used, Conflict, Dropping, Dropped;
      ghost var t0 := slots;
      if nrLocks == 0 {
        UsedNone(slots);
        DroppedNone(slots, ino, pid);
        return;
      }
      var lockCount := nrLocks;
      var i := 0;
      DroppingStarts(slots, ino, pid);
      while i < |slots|
        invariant 0 <= i <= |slots| == |t0| && nrLocks == Used(slots) && nrLocks <= lockCount && Dropping(t0, slots, ino, pid, i)
        invariant nrLocks < lockCount <==> exists j :: 0 <= j < i && Owned(t0[j], ino, pid)
        invariant (nrLocks == lockCount ==> slots == t0) && waiters == old(waiters)
      {
        DroppingAt(t0, slots, ino, pid, i);
        if slots[i].kind != Unused && slots[i].ino == ino && slots[i].pid == pid {
          UsedUpdate(slots, i, slots[i].(kind := Unused));
          DropStep(t0, slots, ino, pid, i);
          slots := slots[i := slots[i].(kind := Unused)];
          nrLocks := nrLocks - 1;
        } else {
          DropSkip(t0, slots, ino, pid, i);
        }
        i := i + 1;
      }
      DroppingEnds(t0, slots, ino, pid);
      if nrLocks < lockCount { LockRevive(); }
    }
  }

  /** The arguments make no sense, or the file is not a regular one. */
  predicate Malformed(call: Call) {
    call.ltype == OtherType || (call.req == GetLk && call.ltype == UnlockType) || !call.regular
  }

  /** Setting a lock needs a descriptor open for what the lock is for. */
  predicate WrongMode(call: Call) {
    call.req != GetLk && ((call.ltype == ReadType && !call.readable) || (call.ltype == WriteType && !call.writable))
  }

  function RegionAt(call: Call, at: Place): Region {
    match call.whence
    case SeekSet => RegionOf(0, call.start, call.len)
    case SeekCur => RegionOf(at.pos, call.start, call.len)
    case SeekEnd => RegionOf(at.size, call.start, call.len)
    case OtherWhence => BadRegion
  }

  /** A request counts from the start of the file, from where the descriptor stands, or from the end. */
  lemma RegionIs(call: Call, at: Place)
    ensures
      var first := (if call.whence == SeekCur then at.pos else if call.whence == SeekEnd then at.size else 0)
                   + (if call.start < 0x8000_0000 then call.start else call.start - 0x1_0000_0000);
      var last := if call.len == 0 then 0xFFFF_FFFF else first + call.len - 1;
      RegionAt(call, at) == if call.whence == OtherWhence || first < 0 || first > 0xFFFF_FFFF || last > 0xFFFF_FFFF then BadRegion
                            else Region(first, last)
  {
    match call.whence
    case SeekSet => RegionMeaning(0, call.start, call.len);
    case SeekCur => RegionMeaning(at.pos, call.start, call.len);
    case SeekEnd => RegionMeaning(at.size, call.start, call.len);
    case OtherWhence =>
  }

  predicate Refused(call: Call, at: Place) {
    Malformed(call) || WrongMode(call) || RegionAt(call, at) == BadRegion
  }

  // ---------- What waits ----------

  /** Whoever waits is to try again, if there is a reason to. */
  ghost predicate Revived(w0: seq<Waiter>, w: seq<Waiter>, reason: bool) {
    |w| == |w0| && forall p :: 0 <= p < |w| ==> w[p] == if reason && w0[p].suspended then w0[p].(revived := true) else w0[p]
  }

  /** A process that waits asked for a lock on some bytes; only a waiting process is revived. */
  predicate Waits(w: Waiter) {
    && (w.suspended ==> w.range.first <= w.range.last && w.call.req == SetLkW && (w.call.ltype == ReadType || w.call.ltype == WriteType))
    && (w.revived ==> w.suspended)
  }

  ghost predicate NoneLost(t: seq<Slot>, w: seq<Waiter>) {
    forall p :: 0 <= p < |w| && w[p].suspended && !w[p].revived ==> Conflict(t, w[p].range, KindOf(w[p].call.ltype), w[p].call.pid)
  }

  /** Whoever waits is still kept from its lock when the slots before the first one that cannot be
      split have given up the range. */
  ghost predicate WakeupsKept(t: seq<Slot>, w: seq<Waiter>, r: Range) {
    forall p :: 0 <= p < |w| && w[p].suspended && !w[p].revived ==>
      KeptFrom(t, r, Short(t, r, 0), w[p].range, KindOf(w[p].call.ltype), w[p].call.pid)
  }

  /** This call leaves somebody waiting for nothing: it clears a range, runs out of slots, and had
      already trimmed the last lock in somebody's way. */
  ghost predicate Loses(t: seq<Slot>, w: seq<Waiter>, call: Call, at: Place) {
    call.ltype == UnlockType && !Refused(call, at) &&
      var r := Range(call.ino, RegionAt(call, at).first, RegionAt(call, at).last);
      RunsOut(t, r) && !WakeupsKept(t, w, r)
  }

  lemma KeptAre(t0: seq<Slot>, t: seq<Slot>, w: seq<Waiter>, r: Range)
    requires ClearedUpTo(t0, t, r, Short(t0, r, 0)) && Safe(t) && forall p :: 0 <= p < |w| ==> Waits(w[p])
    ensures NoneLost(t, w) <==> WakeupsKept(t0, w, r)
  {
    hide ClearedUpTo, Safe, Short, Conflict, KeptFrom;
    forall p | 0 <= p < |w| && w[p].suspended
      ensures Conflict(t, w[p].range, KindOf(w[p].call.ltype), w[p].call.pid) <==>
        KeptFrom(t0, r, Short(t0, r, 0), w[p].range, KindOf(w[p].call.ltype), w[p].call.pid)
    {
      ConflictFrom(t0, t, r, Short(t0, r, 0), w[p].range, KindOf(w[p].call.ltype), w[p].call.pid);
    }
  }

  // ---------- What a call does ----------

  /** One more lock; nothing else is locked differently. */
  ghost predicate Added(t0: seq<Slot>, t: seq<Slot>, r: Range, kind: Kind, pid: int) {
    && |t| == |t0|
    && forall ino, x, k, p :: Covers(t, ino, x, k, p) <==>
         Covers(t0, ino, x, k, p) || (ino == r.ino && r.first <= x <= r.last && k == kind && p == pid)
  }

  /** The first lock in the way. */
  predicate FirstBlocker(t: seq<Slot>, r: Range, kind: Kind, pid: int, i: int) {
    0 <= i < |t| && Blocks(t[i], r, kind, pid) && forall j :: 0 <= j < i ==> !Blocks(t[j], r, kind, pid)
  }

  /** F_GETLK reports a lock exactly when F_SETLK would fail and F_SETLKW would wait; setting takes the
      first unused slot and adds exactly the range, and fails exactly if there is none. */
  ghost predicate SetOutcome(t0: seq<Slot>, t: seq<Slot>, w0: seq<Waiter>, w: seq<Waiter>, p: nat, call: Call, r: Range, a: Answer) {
    var kind := KindOf(call.ltype);
    if Conflict(t0, r, kind, call.pid) then
      && t == t0
      && (call.req == GetLk ==> w == w0 && a.Blocker? && exists i :: FirstBlocker(t0, r, kind, call.pid, i) && a.s == t0[i])
      && (call.req == SetLk ==> w == w0 && a == EAGAIN)
      && (call.req == SetLkW ==> a == SUSPEND && p < |w0| && w == w0[p := Waiter(true, false, r, call)])
    else if call.req == GetLk then
      w == w0 && t == t0 && a == NoBlocker
    else
      var e := FirstUnused(t0, 0);
      w == w0 && if e == |t0| then a == ENOLCK && t == t0
                 else a == OK && t == t0[e := Slot(kind, call.pid, r.ino, r.first, r.last)] && Added(t0, t, r, kind, call.pid)
  }

  /** Clearing takes away exactly the range, whoever holds it, and revives whoever waits if there was
      anything to take away; if it runs out of slots, the slots before the one that cannot be split
      have given up the range and nobody is revived. */
  ghost predicate ClearOutcome(t0: seq<Slot>, t: seq<Slot>, w0: seq<Waiter>, w: seq<Waiter>, r: Range, a: Answer) {
    if RunsOut(t0, r) then
      a == ENOLCK && ClearedUpTo(t0, t, r, Short(t0, r, 0)) && w == w0 && forall i :: 0 <= i < |t| ==> t[i].kind != Unused
    else
      && a == OK && Cleared(t0, t, r)
      && Revived(w0, w, exists i :: 0 <= i < |t0| && Overlaps(t0[i], r))
      && ((forall i :: 0 <= i < |t0| ==> !Overlaps(t0[i], r)) ==> t == t0)
  }

  ghost predicate Served(t0: seq<Slot>, t: seq<Slot>, w0: seq<Waiter>, w: seq<Waiter>, p: nat, call: Call, at: Place, a: Answer) {
    var g := RegionAt(call, at);
    if Refused(call, at) then
      a == (if WrongMode(call) && !Malformed(call) then EBADF else EINVAL) && t == t0 && w == w0
    else if call.ltype == UnlockType then
      ClearOutcome(t0, t, w0, w, Range(call.ino, g.first, g.last), a)
    else
      SetOutcome(t0, t, w0, w, p, call, Range(call.ino, g.first, g.last), a)
  }

  lemma SetAdds(t: seq<Slot>, r: Range, kind: Kind, pid: int, e: nat)
    requires e < |t| && t[e].kind == Unused && kind != Unused
    ensures Added(t, t[e := Slot(kind, pid, r.ino, r.first, r.last)], r, kind, pid)
  {
    var u := t[e := Slot(kind, pid, r.ino, r.first, r.last)];
    forall ino, x, k, p
      ensures Covers(u, ino, x, k, p) <==> Covers(t, ino, x, k, p) || (ino == r.ino && r.first <= x <= r.last && k == kind && p == pid)
    {
      if Covers(t, ino, x, k, p) {
        var j :| 0 <= j < |t| && Holds(t[j], ino, x, k, p);
        assert Holds(u[j], ino, x, k, p);
      }
      if ino == r.ino && r.first <= x <= r.last && k == kind && p == pid { assert Holds(u[e], ino, x, k, p); }
      if Covers(u, ino, x, k, p) {
        var j :| 0 <= j < |u| && Holds(u[j], ino, x, k, p);
        if j != e { assert Holds(t[j], ino, x, k, p); }
      }
    }
  }

  /** What was blocked is still blocked when an unused slot is filled. */
  lemma StillBlocked(t: seq<Slot>, e: nat, s: Slot)
    requires e < |t| && t[e].kind == Unused
    ensures forall r, kind, pid :: Conflict(t, r, kind, pid) ==> Conflict(t[e := s], r, kind, pid)
  {
    forall r, kind, pid | Conflict(t, r, kind, pid) ensures Conflict(t[e := s], r, kind, pid) {
      var i :| 0 <= i < |t| && Blocks(t[i], r, kind, pid);
      assert Blocks(t[e := s][i], r, kind, pid);
    }
  }

  // ---------- Closing ----------

  /** A lock of this process on this file. */
  predicate Owned(s: Slot, ino: nat, pid: int) {
    s.kind != Unused && s.ino == ino && s.pid == pid
  }

  /** The locks of one process on one file are gone, and no others. */
  ghost predicate Dropped(t0: seq<Slot>, t: seq<Slot>, ino: nat, pid: int) {
    && |t| == |t0|
    && forall i :: 0 <= i < |t| ==> t[i] == if Owned(t0[i], ino, pid) then t0[i].(kind := Unused) else t0[i]
  }

  ghost predicate Dropping(t0: seq<Slot>, t: seq<Slot>, ino: nat, pid: int, n: nat) {
    && |t| == |t0| && Safe(t)
    && forall i :: 0 <= i < |t| ==>
         t[i] == if i < n && Owned(t0[i], ino, pid) then t0[i].(kind := Unused) else t0[i]
  }

  lemma DroppingStarts(t: seq<Slot>, ino: nat, pid: int)
    requires Safe(t)
    ensures Dropping(t, t, ino, pid, 0)
  {
  }

  lemma DropStep(t0: seq<Slot>, t: seq<Slot>, ino: nat, pid: int, i: nat)
    requires Dropping(t0, t, ino, pid, i) && i < |t| && Owned(t[i], ino, pid)
    ensures Dropping(t0, t[i := t[i].(kind := Unused)], ino, pid, i + 1)
  {
    PartSafe(t, i, t[i].(kind := Unused));
  }

  lemma DropSkip(t0: seq<Slot>, t: seq<Slot>, ino: nat, pid: int, i: nat)
    requires Dropping(t0, t, ino, pid, i) && i < |t| && !Owned(t[i], ino, pid)
    ensures Dropping(t0, t, ino, pid, i + 1)
  {
  }

  lemma DroppingAt(t0: seq<Slot>, t: seq<Slot>, ino: nat, pid: int, i: nat)
    requires Dropping(t0, t, ino, pid, i) && i < |t|
    ensures |t0| == |t| && t[i] == t0[i]
  {
  }

  lemma DroppingEnds(t0: seq<Slot>, t: seq<Slot>, ino: nat, pid: int)
    requires Dropping(t0, t, ino, pid, |t|)
    ensures Dropped(t0, t, ino, pid) && Safe(t) && |t| == |t0|
  {
  }

  lemma UsedNone(t: seq<Slot>)
    requires Used(t) == 0
    ensures forall i :: 0 <= i < |t| ==> t[i].kind == Unused
  {
    forall i | 0 <= i < |t| ensures t[i].kind == Unused {
      UsedUpdate(t, i, t[i].(kind := Unused));
    }
  }

  lemma DroppedNone(t: seq<Slot>, ino: nat, pid: int)
    requires forall i :: 0 <= i < |t| ==> t[i].kind == Unused
    ensures Dropped(t, t, ino, pid) && forall i :: 0 <= i < |t| ==> !Owned(t[i], ino, pid)
  {
  }

  // ---------- Small steps ----------

  /** What an upper and a lower part do not hold of a lock is in between. */
  lemma SplitCovers(t: seq<Slot>, i: nat, e: nat, s: Slot, r: Range)
    requires i < |t| && e < |t| && e != i && t[i] == s && t[e] == s.(first := r.last + 1) && s.ino == r.ino
    ensures forall ino, x, k, p :: Holds(t[i], ino, x, k, p) && k != Unused && !(ino == r.ino && r.first <= x <= r.last) ==>
      (Holds(s.(last := r.first - 1), ino, x, k, p) || exists j :: 0 <= j < |t| && j != i && Holds(t[j], ino, x, k, p))
  {
    forall ino, x, k, p | Holds(t[i], ino, x, k, p) && k != Unused && !(ino == r.ino && r.first <= x <= r.last)
      ensures Holds(s.(last := r.first - 1), ino, x, k, p) || exists j :: 0 <= j < |t| && j != i && Holds(t[j], ino, x, k, p)
    {
      if x > r.last { assert Holds(t[e], ino, x, k, p); }
    }
  }

  lemma ClearingSays(t0: seq<Slot>, t: seq<Slot>, r: Range, i: nat)
    requires Clearing(t0, t, r, i)
    ensures Safe(t) && |t| == |t0|
    ensures forall j :: 0 <= j < |t| && t[j].kind != Unused ==> t[j].first <= t[j].last
  {
  }

  /** What overlaps the range and is still to be looked at is as it was. */
  lemma SlotAsBefore(t0: seq<Slot>, t: seq<Slot>, r: Range, i: nat)
    requires Clearing(t0, t, r, i) && i < |t|
    ensures |t0| == |t| && (Overlaps(t[i], r) <==> Overlaps(t0[i], r)) && (Overlaps(t[i], r) ==> t[i] == t0[i])
  {
  }

  lemma SpareStarts(t: seq<Slot>, r: Range)
    ensures Spare(t, r, 0) == |t| - Used(t)
  {
  }

  lemma SpareNext(t: seq<Slot>, r: Range, i: nat)
    requires i < |t|
    ensures Spare(t, r, i + 1) == Spare(t, r, i) + (if Inside(t[i], r) then 1 else if Splits(t[i], r) then -1 else 0)
    ensures Short(t, r, i) == if Splits(t[i], r) && Spare(t, r, i) <= 0 then i else Short(t, r, i + 1)
    ensures Short(t, r, |t|) == |t|
  {
  }

  lemma FirstUnusedNext(t: seq<Slot>, i: nat)
    requires i < |t|
    ensures FirstUnused(t, i) == if t[i].kind == Unused then i else FirstUnused(t, i + 1)
    ensures FirstUnused(t, |t|) == |t|
  {
  }

  lemma FirstUnusedIs(t: seq<Slot>)
    ensures FirstUnused(t, 0) < |t| ==> t[FirstUnused(t, 0)].kind == Unused
  {
  }

  lemma {:induction false} NoneUsed(t: seq<Slot>)
    requires forall i :: 0 <= i < |t| ==> t[i].kind == Unused
    ensures Used(t) == 0
  {
    if t != [] {
      var rest := t[..|t| - 1];
      forall i | 0 <= i < |rest| ensures rest[i].kind == Unused { assert rest[i] == t[i]; }
      NoneUsed(rest);
    }
  }
}
