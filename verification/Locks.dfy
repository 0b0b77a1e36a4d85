module Locks {
  /** Advisory record locks: the lock table as a set of ranges. */

  import opened Storage

  datatype Kind = Unused | ReadLock | WriteLock

  /** One slot of file_lock: a process may use bytes `first` to `last` of a file. */
  datatype Slot = Slot(kind: Kind, pid: int, ino: nat, first: int, last: int)

  /** A request for a lock, or to clear one. */
  datatype Range = Range(ino: nat, first: int, last: int)

  predicate Overlaps(s: Slot, r: Range) {
    s.kind != Unused && s.ino == r.ino && r.last >= s.first && r.first <= s.last
  }

  /** A slot that keeps process `pid` from getting a lock of this kind. */
  predicate Blocks(s: Slot, r: Range, kind: Kind, pid: int) {
    Overlaps(s, r) && !(kind == ReadLock && s.kind == ReadLock) && s.pid != pid
  }

  predicate Conflict(t: seq<Slot>, r: Range, kind: Kind, pid: int) {
    exists i :: 0 <= i < |t| && Blocks(t[i], r, kind, pid)
  }

  /** Byte `x` of file `ino` is locked in this way by this process. */
  ghost predicate Covers(t: seq<Slot>, ino: nat, x: int, kind: Kind, pid: int) {
    kind != Unused && exists i :: 0 <= i < |t| && Holds(t[i], ino, x, kind, pid)
  }

  ghost predicate Holds(s: Slot, ino: nat, x: int, kind: Kind, pid: int) {
    s.kind == kind && s.pid == pid && s.ino == ino && s.first <= x <= s.last
  }

  predicate Together(a: Slot, b: Slot) {
    Overlaps(a, Range(b.ino, b.first, b.last)) && b.kind != Unused && a.pid != b.pid ==> a.kind == ReadLock && b.kind == ReadLock
  }

  /** Locks of different processes overlap only if they are read locks; no range is empty. */
  ghost predicate Safe(t: seq<Slot>) {
    && (forall i :: 0 <= i < |t| && t[i].kind != Unused ==> t[i].first <= t[i].last)
    && forall i, j :: 0 <= i < |t| && 0 <= j < |t| ==> Together(t[i], t[j])
  }

  /** A byte that two processes have locked is locked for reading by both. */
  lemma SafeBytes(t: seq<Slot>, ino: nat, x: int, k: Kind, p: int, l: Kind, q: int)
    requires Safe(t) && Covers(t, ino, x, k, p) && Covers(t, ino, x, l, q) && p != q
    ensures k == ReadLock && l == ReadLock
  {
    var i :| 0 <= i < |t| && Holds(t[i], ino, x, k, p);
    var j :| 0 <= j < |t| && Holds(t[j], ino, x, l, q);
    assert Together(t[i], t[j]);
  }

  function Used(t: seq<Slot>): nat {
    if t == [] then 0 else Used(t[..|t| - 1]) + (if t[|t| - 1].kind == Unused then 0 else 1)
  }

  lemma {:induction false} UsedUpdate(t: seq<Slot>, i: nat, s: Slot)
    requires i < |t|
    ensures Used(t[i := s]) + (if t[i].kind == Unused then 0 else 1) == Used(t) + (if s.kind == Unused then 0 else 1)
  {
    var n := |t| - 1;
    if i < n {
      UsedUpdate(t[..n], i, s);
      assert t[i := s][..n] == t[..n][i := s];
    } else {
      assert t[i := s][..n] == t[..n];
    }
  }

  /** The table is full exactly if no slot is unused. */
  lemma {:induction false} UsedFull(t: seq<Slot>)
    ensures Used(t) <= |t|
    ensures Used(t) == |t| <==> forall i :: 0 <= i < |t| ==> t[i].kind != Unused
  {
    if t != [] {
      var rest := t[..|t| - 1];
      UsedFull(rest);
      if forall i :: 0 <= i < |rest| ==> rest[i].kind != Unused {
        forall i | 0 <= i < |t| - 1 ensures t[i].kind != Unused { assert rest[i] == t[i]; }
      } else {
        var i :| 0 <= i < |rest| && rest[i].kind == Unused;
        assert t[i].kind == Unused;
      }
    }
  }

  // ---------- Clearing ----------

  /** After the first `n` slots have been looked at: from `t0` to `t` nothing but bytes of the
      range was given up, and none of the slots looked at, nor any that was made, overlaps it; slots
      were made only where there was none. */
  ghost predicate Clearing(t0: seq<Slot>, t: seq<Slot>, r: Range, n: nat) {
    && |t| == |t0| && n <= |t| && Safe(t)
    && (forall ino, x, k, p :: Covers(t, ino, x, k, p) ==> Covers(t0, ino, x, k, p))
    && (forall ino, x, k, p :: Covers(t0, ino, x, k, p) && !(ino == r.ino && r.first <= x <= r.last) ==> Covers(t, ino, x, k, p))
    && (forall j :: 0 <= j < n ==> !Overlaps(t[j], r))
    && (forall j :: n <= j < |t| ==> t[j] == t0[j] || (t0[j].kind == Unused && !Overlaps(t[j], r)))
  }

  lemma ClearingStarts(t: seq<Slot>, r: Range)
    requires Safe(t)
    ensures Clearing(t, t, r, 0)
  {
  }

  /** A part of a lock is safe wherever the whole was. */
  lemma PartSafe(t: seq<Slot>, i: nat, s: Slot)
    requires Safe(t) && i < |t|
    requires s.kind != Unused ==> s.first <= s.last && exists j :: 0 <= j < |t| && PartOf(s, t[j])
    ensures Safe(t[i := s])
  {
    var u := t[i := s];
    if s.kind != Unused {
      var j :| 0 <= j < |t| && PartOf(s, t[j]);
      forall x | 0 <= x < |u| ensures Together(u[x], s) && Together(s, u[x]) {
        if x != i { assert Together(t[x], t[j]) && Together(t[j], t[x]); }
      }
    }
    forall x, y | 0 <= x < |u| && 0 <= y < |u| ensures Together(u[x], u[y]) {
      if x != i && y != i { assert Together(t[x], t[y]); }
    }
  }

  predicate PartOf(s: Slot, t: Slot) {
    s.kind == t.kind && s.pid == t.pid && s.ino == t.ino && t.first <= s.first && s.last <= t.last
  }

  /** Replacing one slot by a part of it outside the range, having saved the other part. */
  lemma ClearStep(t0: seq<Slot>, t: seq<Slot>, r: Range, i: nat, s: Slot)
    requires Clearing(t0, t, r, i) && i < |t| && !Overlaps(s, r)
    requires s.kind != Unused ==> s.first <= s.last && PartOf(s, t[i])
    requires forall ino, x, k, p :: Holds(t[i], ino, x, k, p) && k != Unused && !(ino == r.ino && r.first <= x <= r.last) ==>
      Holds(s, ino, x, k, p) || exists j :: 0 <= j < |t| && j != i && Holds(t[j], ino, x, k, p)
    ensures Clearing(t0, t[i := s], r, i + 1)
  {
    var u := t[i := s];
    PartSafe(t, i, s);
    forall ino, x, k, p | Covers(u, ino, x, k, p) ensures Covers(t0, ino, x, k, p) {
      var j :| 0 <= j < |u| && Holds(u[j], ino, x, k, p);
      assert Holds(t[j], ino, x, k, p);
      assert Covers(t, ino, x, k, p);
    }
    forall ino, x, k, p | Covers(t0, ino, x, k, p) && !(ino == r.ino && r.first <= x <= r.last) ensures Covers(u, ino, x, k, p) {
      assert Covers(t, ino, x, k, p);
      var j :| 0 <= j < |t| && Holds(t[j], ino, x, k, p);
      if j == i {
        if Holds(s, ino, x, k, p) { assert Holds(u[i], ino, x, k, p); }
        else {
          var y :| 0 <= y < |t| && y != i && Holds(t[y], ino, x, k, p);
          assert Holds(u[y], ino, x, k, p);
        }
      } else {
        assert Holds(u[j], ino, x, k, p);
      }
    }
  }

  /** A slot that does not overlap the range stays. */
  lemma ClearSkip(t0: seq<Slot>, t: seq<Slot>, r: Range, i: nat)
    requires Clearing(t0, t, r, i) && i < |t| && !Overlaps(t[i], r)
    ensures Clearing(t0, t, r, i + 1)
  {
  }

  /** Saving the upper part of a lock in an unused slot. */
  lemma ClearSave(t0: seq<Slot>, t: seq<Slot>, r: Range, i: nat, e: nat, s: Slot)
    requires Clearing(t0, t, r, i) && i < |t| && e < |t| && t[e].kind == Unused && s.kind != Unused && s.first <= s.last
    requires PartOf(s, t[i]) && !Overlaps(s, r)
    ensures Clearing(t0, t[e := s], r, i) && e != i && t[e := s][i] == t[i]
  {
    var u := t[e := s];
    PartSafe(t, e, s);
    forall ino, x, k, p | Covers(u, ino, x, k, p) ensures Covers(t0, ino, x, k, p) {
      var j :| 0 <= j < |u| && Holds(u[j], ino, x, k, p);
      assert Holds(t[if j == e then i else j], ino, x, k, p);
      assert Covers(t, ino, x, k, p);
    }
    forall ino, x, k, p | Covers(t, ino, x, k, p) ensures Covers(u, ino, x, k, p) {
      var j :| 0 <= j < |t| && Holds(t[j], ino, x, k, p);
      assert Holds(u[j], ino, x, k, p);
    }
  }

  /** Exactly the range has been given up: everything else is locked as before. */
  ghost predicate Cleared(t0: seq<Slot>, t: seq<Slot>, r: Range) {
    && |t| == |t0| && Safe(t)
    && forall ino, x, k, p :: Covers(t, ino, x, k, p) <==> Covers(t0, ino, x, k, p) && !(ino == r.ino && r.first <= x <= r.last)
  }

  lemma ClearingEnds(t0: seq<Slot>, t: seq<Slot>, r: Range)
    requires Clearing(t0, t, r, |t|)
    ensures Cleared(t0, t, r)
  {
    forall ino, x, k, p | Covers(t, ino, x, k, p) ensures !(ino == r.ino && r.first <= x <= r.last) {
      var j :| 0 <= j < |t| && Holds(t[j], ino, x, k, p);
      assert !Overlaps(t[j], r);
    }
  }

  // ---------- How far clearing gets ----------

  /** The whole lock is in the range: clearing frees its slot. */
  predicate Inside(s: Slot, r: Range) {
    Overlaps(s, r) && r.first <= s.first && s.last <= r.last
  }

  /** The lock reaches beyond the range on both sides: clearing needs another slot. */
  predicate Splits(s: Slot, r: Range) {
    Overlaps(s, r) && s.first < r.first && r.last < s.last
  }

  /** Unused slots by the time slot `n` is looked at: the ones there were and the ones freed, less the
      ones taken. */
  function Spare(t: seq<Slot>, r: Range, n: nat): int
    requires n <= |t|
  {
    if n == 0 then |t| - Used(t)
    else Spare(t, r, n - 1) + (if Inside(t[n - 1], r) then 1 else if Splits(t[n - 1], r) then -1 else 0)
  }

  /** Slot `i` must be split, and no slot is unused by then. */
  predicate Stuck(t: seq<Slot>, r: Range, i: nat)
    requires i < |t|
  {
    Splits(t[i], r) && Spare(t, r, i) <= 0
  }

  /** The first slot from `n` on that cannot be split; |t| if there is none. */
  function Short(t: seq<Slot>, r: Range, n: nat): (i: nat)
    requires n <= |t|
    ensures n <= i <= |t| && (i < |t| ==> Stuck(t, r, i)) && forall j :: n <= j < i ==> !Stuck(t, r, j)
    decreases |t| - n
  {
    if n == |t| || Stuck(t, r, n) then n else Short(t, r, n + 1)
  }

  /** Clearing the range runs out of slots: some lock reaches beyond it on both sides, and of the slots
      before it at least as many are to be split as are unused or freed. */
  predicate RunsOut(t: seq<Slot>, r: Range) {
    exists i :: 0 <= i < |t| && Stuck(t, r, i)
  }

  lemma ShortIs(t: seq<Slot>, r: Range)
    ensures RunsOut(t, r) <==> Short(t, r, 0) < |t|
  {
  }

  /** Byte `x` is locked after the first `n` slots have given up the range. */
  ghost predicate CoversFrom(t: seq<Slot>, r: Range, n: nat, ino: nat, x: int, kind: Kind, pid: int) {
    kind != Unused && exists j :: 0 <= j < |t| && Holds(t[j], ino, x, kind, pid) && (j >= n || !(ino == r.ino && r.first <= x <= r.last))
  }

  /** Exactly the first `n` slots have given up exactly the range. */
  ghost predicate ClearedUpTo(t0: seq<Slot>, t: seq<Slot>, r: Range, n: nat) {
    |t| == |t0| && forall ino, x, k, p :: Covers(t, ino, x, k, p) <==> CoversFrom(t0, r, n, ino, x, k, p)
  }

  lemma ClearingExact(t0: seq<Slot>, t: seq<Slot>, r: Range, n: nat)
    requires Clearing(t0, t, r, n)
    ensures ClearedUpTo(t0, t, r, n)
  {
    forall ino, x, k, p ensures Covers(t, ino, x, k, p) <==> CoversFrom(t0, r, n, ino, x, k, p) {
      if Covers(t, ino, x, k, p) {
        var j :| 0 <= j < |t| && Holds(t[j], ino, x, k, p);
        if ino == r.ino && r.first <= x <= r.last {
          assert Overlaps(t[j], r);
          assert Holds(t0[j], ino, x, k, p);
        } else {
          assert Covers(t0, ino, x, k, p);
          var i :| 0 <= i < |t0| && Holds(t0[i], ino, x, k, p);
        }
      }
      if CoversFrom(t0, r, n, ino, x, k, p) {
        var j :| 0 <= j < |t0| && Holds(t0[j], ino, x, k, p) && (j >= n || !(ino == r.ino && r.first <= x <= r.last));
        if ino == r.ino && r.first <= x <= r.last {
          assert Holds(t[j], ino, x, k, p);
        } else {
          assert Covers(t0, ino, x, k, p);
        }
      }
    }
  }

  /** A lock that keeps process `pid` from byte `x`. */
  ghost predicate Against(s: Slot, ino: nat, x: int, kind: Kind, pid: int) {
    s.kind != Unused && s.ino == ino && s.first <= x <= s.last && !(kind == ReadLock && s.kind == ReadLock) && s.pid != pid
  }

  /** Somebody's lock is still in the way of a request for `w` after the first `n` slots have given up
      the range `r`. */
  ghost predicate KeptFrom(t: seq<Slot>, r: Range, n: nat, w: Range, kind: Kind, pid: int) {
    exists j, x :: 0 <= j < |t| && w.first <= x <= w.last && Against(t[j], w.ino, x, kind, pid)
      && (j >= n || !(w.ino == r.ino && r.first <= x <= r.last))
  }

  lemma ConflictFrom(t0: seq<Slot>, t: seq<Slot>, r: Range, n: nat, w: Range, kind: Kind, pid: int)
    requires ClearedUpTo(t0, t, r, n) && Safe(t) && w.first <= w.last
    ensures Conflict(t, w, kind, pid) <==> KeptFrom(t0, r, n, w, kind, pid)
  {
    if Conflict(t, w, kind, pid) {
      var i :| 0 <= i < |t| && Blocks(t[i], w, kind, pid);
      var x := if t[i].first > w.first then t[i].first else w.first;
      assert Holds(t[i], w.ino, x, t[i].kind, t[i].pid);
      assert Covers(t, w.ino, x, t[i].kind, t[i].pid);
      var j :| 0 <= j < |t0| && Holds(t0[j], w.ino, x, t[i].kind, t[i].pid) && (j >= n || !(w.ino == r.ino && r.first <= x <= r.last));
      assert Against(t0[j], w.ino, x, kind, pid);
    }
    if KeptFrom(t0, r, n, w, kind, pid) {
      var j, x :| 0 <= j < |t0| && w.first <= x <= w.last && Against(t0[j], w.ino, x, kind, pid)
        && (j >= n || !(w.ino == r.ino && r.first <= x <= r.last));
      assert Holds(t0[j], w.ino, x, t0[j].kind, t0[j].pid);
      assert CoversFrom(t0, r, n, w.ino, x, t0[j].kind, t0[j].pid);
      assert Covers(t, w.ino, x, t0[j].kind, t0[j].pid);
      var i :| 0 <= i < |t| && Holds(t[i], w.ino, x, t0[j].kind, t0[j].pid);
      assert Blocks(t[i], w, kind, pid);
    }
  }

  // ---------- Setting ----------

  /** The first unused slot, |t| if there is none. */
  function FirstUnused(t: seq<Slot>, n: nat): (e: nat)
    requires n <= |t|
    ensures n <= e <= |t| && (e < |t| ==> t[e].kind == Unused) && forall j :: n <= j < e ==> t[j].kind != Unused
    decreases |t| - n
  {
    if n == |t| || t[n].kind == Unused then n else FirstUnused(t, n + 1)
  }

  /** A lock that nothing blocks can be added. */
  lemma SetSafe(t: seq<Slot>, r: Range, kind: Kind, pid: int, e: nat)
    requires Safe(t) && !Conflict(t, r, kind, pid) && e < |t| && t[e].kind == Unused && kind != Unused && r.first <= r.last
    ensures Safe(t[e := Slot(kind, pid, r.ino, r.first, r.last)])
  {
    var s := Slot(kind, pid, r.ino, r.first, r.last);
    var u := t[e := s];
    forall x, y | 0 <= x < |u| && 0 <= y < |u| ensures Together(u[x], u[y]) {
      if x != e && y != e { assert Together(t[x], t[y]); }
      else {
        var z := if x == e then y else x;
        if z != e { assert !Blocks(t[z], r, kind, pid); }
      }
    }
  }
}
