/** Opening, sharing and closing the ends of pipes. */
module PipeTables {
  import opened Storage
  import opened Pipes

  /** A descriptor in use means an open filp. */
  lemma RefCounts(s: Server, p: nat, d: nat)
    requires Tables(s) && p < |s.procs| && d < |s.procs[p].fds| && s.procs[p].fds[d] != NIL
    ensures 0 <= s.procs[p].fds[d] < |s.filps| && s.filps[s.procs[p].fds[d]].count > 0
  {
    var f := s.procs[p].fds[d];
    CountSome(s.procs[p].fds, f);
    TotalOne(s.procs, p, RefTo(f));
  }

  /** Nobody refers to a filp that is not open. */
  lemma NoRef(s: Server, f: nat, p: nat, d: nat)
    requires Tables(s) && f < |s.filps| && s.filps[f].count == 0 && p < |s.procs| && d < |s.procs[p].fds|
    ensures s.procs[p].fds[d] != f
  {
    CountSome(s.procs[p].fds, f);
    TotalOne(s.procs, p, RefTo(f));
  }

  // ---------- Closing a descriptor ----------

  function CloseFd(s: Server, who: nat, fd: nat): Server
    requires who < |s.procs| && fd < |s.procs[who].fds| && 0 <= s.procs[who].fds[fd] < |s.filps| && s.filps[s.procs[who].fds[fd]].count > 0
  {
    var f := s.procs[who].fds[fd];
    s.(filps := s.filps[f := s.filps[f].(count := s.filps[f].count - 1)],
       procs := s.procs[who := s.procs[who].(fds := s.procs[who].fds[fd := NIL])])
  }

  lemma CloseCore(s: Server, who: nat, fd: nat, pipeSize: nat)
    requires Core(s, pipeSize) && who < |s.procs| && fd < |s.procs[who].fds| && s.procs[who].fds[fd] != NIL && !s.procs[who].suspended
    ensures 0 <= s.procs[who].fds[fd] < |s.filps| && s.filps[s.procs[who].fds[fd]].count > 0 && Core(CloseFd(s, who, fd), pipeSize)
  {
    RefCounts(s, who, fd);
    var t, f := CloseFd(s, who, fd), s.procs[who].fds[fd];
    var q := t.procs[who];
    assert Waiting(s, who);
    assert Tables(t) by {
      forall g | 0 <= g < |t.filps| ensures t.filps[g].count == Total(t.procs, RefTo(g)) {
        TotalUpdate(s.procs, who, q, RefTo(g));
        CountUpdate(s.procs[who].fds, fd, NIL, g);
      }
    }
    assert Sleepers(t) by {
      TotalUpdate(s.procs, who, q, Revived);
      TotalUpdate(s.procs, who, q, Asleep);
      forall p | ValidProc(t, p) ensures Waiting(t, p) { assert Waiting(s, p); }
    }
    assert Ends(t) by { assert forall g, i, x :: OpenOn(t, g, i, x) ==> OpenOn(s, g, i, x); }
    assert Fifo(t, pipeSize) by { assert forall g | 0 <= g < |t.filps| && t.filps[g].count > 0 :: PosOk(s, g) && PosOk(t, g); }
  }

  lemma CloseNoLost(s: Server, who: nat, fd: nat, ip: int)
    requires NoLostWakeup(s) && Tables(s) && who < |s.procs| && fd < |s.procs[who].fds| && s.procs[who].fds[fd] != NIL && !s.procs[who].suspended
    requires 0 <= s.procs[who].fds[fd] < |s.filps| && s.filps[s.procs[who].fds[fd]].count > 0 && ip == s.filps[s.procs[who].fds[fd]].ino
    requires forall p :: !SleepsOn(s, p, ip, Other(s.filps[s.procs[who].fds[fd]].mode))
    ensures NoLostWakeup(CloseFd(s, who, fd))
  {
    var t, f := CloseFd(s, who, fd), s.procs[who].fds[fd];
    var e := s.filps[f].mode;
    forall g, i, x ensures OpenOn(t, g, i, x) ==> OpenOn(s, g, i, x) {}
    forall p, i, x ensures SleepsOn(t, p, i, x) ==> SleepsOn(s, p, i, x) {}
    forall i, x | HasEnd(s, i, x) && (i != ip || x != e) ensures HasEnd(t, i, x) {
      var g :| OpenOn(s, g, i, x);
      assert OpenOn(t, g, i, x);
    }
    forall p ensures !SleepsOn(s, p, ip, Other(e)) {}
    forall p, i | SleepsOn(t, p, i, Reader) ensures HasEnd(t, i, Writer) {
      assert SleepsOn(s, p, i, Reader) && !SleepsOn(s, p, ip, Other(e));
    }
    forall p, i | SleepsOn(t, p, i, Writer) ensures HasEnd(t, i, Reader) {
      assert SleepsOn(s, p, i, Writer) && !SleepsOn(s, p, ip, Other(e));
    }
  }

  // ---------- Sharing a filp ----------

  function AddRef(s: Server, who: nat, d: nat, f: nat): Server
    requires who < |s.procs| && d < |s.procs[who].fds| && f < |s.filps|
  {
    s.(filps := s.filps[f := s.filps[f].(count := s.filps[f].count + 1)],
       procs := s.procs[who := s.procs[who].(fds := s.procs[who].fds[d := f])])
  }

  lemma AddRefInv(s: Server, who: nat, d: nat, f: nat, pipeSize: nat)
    requires Inv(s, pipeSize) && who < |s.procs| && d < |s.procs[who].fds| && f < |s.filps| && s.filps[f].count > 0
    requires s.procs[who].fds[d] == NIL && !s.procs[who].suspended
    ensures Inv(AddRef(s, who, d, f), pipeSize)
  {
    var t := AddRef(s, who, d, f);
    var q := t.procs[who];
    assert Waiting(s, who);
    assert Tables(t) by {
      forall g | 0 <= g < |t.filps| ensures t.filps[g].count == Total(t.procs, RefTo(g)) {
        TotalUpdate(s.procs, who, q, RefTo(g));
        CountUpdate(s.procs[who].fds, d, f, g);
      }
    }
    assert Sleepers(t) by {
      TotalUpdate(s.procs, who, q, Revived);
      TotalUpdate(s.procs, who, q, Asleep);
      forall p | ValidProc(t, p) ensures Waiting(t, p) { assert Waiting(s, p); }
    }
    SameUse(s, t, pipeSize);
  }

  /** The same pipe ends are open and the same processes sleep. */
  lemma SameUse(s: Server, t: Server, pipeSize: nat)
    requires Ends(s) && Fifo(s, pipeSize) && NoLostWakeup(s) && t.pipes == s.pipes && t.accepted == s.accepted && t.delivered == s.delivered
    requires |t.filps| == |s.filps| && forall f :: 0 <= f < |s.filps| ==>
      t.filps[f].(count := 0, nonblock := false) == s.filps[f].(count := 0, nonblock := false) && (t.filps[f].count > 0 <==> s.filps[f].count > 0)
    requires forall p, i, x :: SleepsOn(t, p, i, x) ==> SleepsOn(s, p, i, x)
    ensures Ends(t) && Fifo(t, pipeSize) && NoLostWakeup(t)
  {
    forall g, i, x ensures OpenOn(t, g, i, x) <==> OpenOn(s, g, i, x) {}
    forall i, x ensures HasEnd(t, i, x) <==> HasEnd(s, i, x) {
      if HasEnd(s, i, x) { var g :| OpenOn(s, g, i, x); assert OpenOn(t, g, i, x); }
    }
    assert forall f | 0 <= f < |t.filps| && t.filps[f].count > 0 :: PosOk(s, f) && PosOk(t, f);
  }

  // ---------- A new pipe ----------

  function MakePipe(s: Server, who: nat, d0: nat, d1: nat, f0: nat, f1: nat): Server
    requires who < |s.procs| && d0 < |s.procs[who].fds| && d1 < |s.procs[who].fds| && f0 < |s.filps| && f1 < |s.filps|
  {
    s.(pipes := s.pipes + [[]], accepted := s.accepted + [[]], delivered := s.delivered + [[]],
       filps := s.filps[f0 := Filp(1, Reader, false, |s.pipes|, 0)][f1 := Filp(1, Writer, false, |s.pipes|, 0)],
       procs := s.procs[who := s.procs[who].(fds := s.procs[who].fds[d0 := f0][d1 := f1])])
  }

  ghost predicate CanMake(s: Server, who: nat, d0: nat, d1: nat, f0: nat, f1: nat) {
    && who < |s.procs| && d0 < |s.procs[who].fds| && d1 < |s.procs[who].fds| && f0 < |s.filps| && f1 < |s.filps|
    && d0 != d1 && f0 != f1 && s.procs[who].fds[d0] == NIL && s.procs[who].fds[d1] == NIL
    && s.filps[f0].count == 0 && s.filps[f1].count == 0 && !s.procs[who].suspended
  }

  lemma MakeTables(s: Server, who: nat, d0: nat, d1: nat, f0: nat, f1: nat)
    requires Tables(s) && Sleepers(s) && CanMake(s, who, d0, d1, f0, f1)
    ensures var t := MakePipe(s, who, d0, d1, f0, f1); Tables(t) && Sleepers(t)
  {
    var t := MakePipe(s, who, d0, d1, f0, f1);
    var q, old_ := t.procs[who], s.procs[who].fds;
    assert Waiting(s, who);
    forall g | 0 <= g < |t.filps| ensures t.filps[g].count == Total(t.procs, RefTo(g)) {
      TotalUpdate(s.procs, who, q, RefTo(g));
      CountUpdate(old_, d0, f0, g);
      CountUpdate(old_[d0 := f0], d1, f1, g);
    }
    TotalUpdate(s.procs, who, q, Revived);
    TotalUpdate(s.procs, who, q, Asleep);
    forall p | ValidProc(t, p) ensures Waiting(t, p) {
      assert Waiting(s, p);
      if s.procs[p].suspended { NoRef(s, f0, p, s.procs[p].fd); NoRef(s, f1, p, s.procs[p].fd); }
    }
  }

  lemma MakeRest(s: Server, who: nat, d0: nat, d1: nat, f0: nat, f1: nat, pipeSize: nat)
    requires Tables(s) && Ends(s) && Fifo(s, pipeSize) && NoLostWakeup(s) && CanMake(s, who, d0, d1, f0, f1)
    ensures var t := MakePipe(s, who, d0, d1, f0, f1); Ends(t) && Fifo(t, pipeSize) && NoLostWakeup(t)
  {
    var t := MakePipe(s, who, d0, d1, f0, f1);
    var n := |s.pipes|;
    forall g, i, x ensures OpenOn(t, g, i, x) <==> OpenOn(s, g, i, x) || (i == n && ((g == f0 && x == Reader) || (g == f1 && x == Writer))) {}
    assert Ends(t);
    assert Fifo(t, pipeSize) by {
      forall g | 0 <= g < |t.filps| && t.filps[g].count > 0 ensures t.filps[g].ino < |t.pipes| && PosOk(t, g) {
        if g != f0 && g != f1 { assert PosOk(s, g); }
      }
      forall i | 0 <= i < |t.pipes| ensures |t.pipes[i]| <= pipeSize && t.delivered[i] <= t.accepted[i] {
        if i < n { assert s.delivered[i] <= s.accepted[i]; }
      }
    }
    MakeNoLost(s, who, d0, d1, f0, f1);
  }

  lemma MakeNoLost(s: Server, who: nat, d0: nat, d1: nat, f0: nat, f1: nat)
    requires Tables(s) && Ends(s) && NoLostWakeup(s) && CanMake(s, who, d0, d1, f0, f1)
    ensures NoLostWakeup(MakePipe(s, who, d0, d1, f0, f1))
  {
    var t := MakePipe(s, who, d0, d1, f0, f1);
    forall p, i, x ensures SleepsOn(t, p, i, x) ==> SleepsOn(s, p, i, x) && i < |s.pipes| {
      if SleepsOn(t, p, i, x) {
        NoRef(s, f0, p, s.procs[p].fd);
        NoRef(s, f1, p, s.procs[p].fd);
      }
    }
    forall i, x | HasEnd(s, i, x) ensures HasEnd(t, i, x) {
      var g :| OpenOn(s, g, i, x);
      assert OpenOn(t, g, i, x);
    }
    assert forall i :: 0 <= i < |s.pipes| ==> t.pipes[i] == s.pipes[i];
  }

  // ---------- A new process ----------

  function ForkFilps(filps: seq<Filp>, fds: seq<int>): (r: seq<Filp>)
    ensures |r| == |filps|
    ensures forall f :: 0 <= f < |filps| ==> r[f] == filps[f].(count := filps[f].count + CountIn(fds, f))
  {
    if filps == [] then []
    else
      var n := |filps| - 1;
      ForkFilps(filps[..n], fds) + [filps[n].(count := filps[n].count + CountIn(fds, n))]
  }

  /** do_fork: the child has the parent's slot, and another count on every filp of it. */
  function Forked(s: Server, parent: nat, child: nat): Server
    requires parent < |s.procs| && child < |s.procs|
  {
    s.(procs := s.procs[child := s.procs[parent]], filps := ForkFilps(s.filps, s.procs[parent].fds))
  }

  ghost predicate CanFork(s: Server, parent: nat, child: nat) {
    && parent < |s.procs| && child < |s.procs| && parent != child && !s.procs[parent].suspended && !s.procs[child].suspended
    && forall d :: 0 <= d < |s.procs[child].fds| ==> s.procs[child].fds[d] == NIL
  }

  lemma {:induction false} CountNone(fds: seq<int>, f: nat)
    requires forall d :: 0 <= d < |fds| ==> fds[d] == NIL
    ensures CountIn(fds, f) == 0
  {
    CountSome(fds, f);
  }

  lemma ForkInv(s: Server, parent: nat, child: nat, pipeSize: nat)
    requires Inv(s, pipeSize) && CanFork(s, parent, child)
    ensures Inv(Forked(s, parent, child), pipeSize)
  {
    var t := Forked(s, parent, child);
    var q := s.procs[parent];
    assert Waiting(s, parent) && Waiting(s, child);
    assert Tables(t) by {
      forall g | 0 <= g < |t.filps| ensures t.filps[g].count == Total(t.procs, RefTo(g)) {
        TotalUpdate(s.procs, child, q, RefTo(g));
        CountNone(s.procs[child].fds, g);
      }
    }
    assert Sleepers(t) by {
      TotalUpdate(s.procs, child, q, Revived);
      TotalUpdate(s.procs, child, q, Asleep);
      forall p | ValidProc(t, p) ensures Waiting(t, p) { assert Waiting(s, p); }
    }
    forall f | 0 <= f < |s.filps|
      ensures t.filps[f].(count := 0) == s.filps[f].(count := 0) && (t.filps[f].count > 0 <==> s.filps[f].count > 0)
    {
      CountSome(q.fds, f);
      if CountIn(q.fds, f) > 0 {
        var d :| 0 <= d < |q.fds| && q.fds[d] == f;
        RefCounts(s, parent, d);
      }
    }
    forall p, i, x ensures SleepsOn(t, p, i, x) ==> SleepsOn(s, p, i, x) {}
    SameUse(s, t, pipeSize);
  }

  /** fcntl with F_SETFL: O_NONBLOCK of a filp. */
  lemma NonblockInv(s: Server, f: nat, nonblock: bool, pipeSize: nat)
    requires Inv(s, pipeSize) && f < |s.filps|
    ensures Inv(s.(filps := s.filps[f := s.filps[f].(nonblock := nonblock)]), pipeSize)
  {
    var t := s.(filps := s.filps[f := s.filps[f].(nonblock := nonblock)]);
    forall p | ValidProc(t, p) ensures Waiting(t, p) { assert Waiting(s, p); }
    forall p, i, x ensures SleepsOn(t, p, i, x) ==> SleepsOn(s, p, i, x) {}
    SameUse(s, t, pipeSize);
  }
}
