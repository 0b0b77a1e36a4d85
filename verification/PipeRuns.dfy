/** The requests that open, share and close pipes, and any run of the server. */
module PipeRuns {
  import opened Storage
  import opened Pipes
  import opened PipeTables
  import opened PipeCalls
  import opened PipeServer

  datatype Message =
    | ReadMsg(who: nat, fd: nat, nbytes: nat) | WriteMsg(who: nat, fd: nat, data: seq<byte>) | CloseMsg(who: nat, fd: nat)
    | PipeMsg(who: nat, inodeFree: bool) | DupMsg(who: nat, fd: nat, start: int) | ForkMsg(parent: nat, child: nat)
    | FlagMsg(who: nat, fd: nat, nonblock: bool) | UnpauseMsg(p: nat) | ExitMsg(p: nat)

  predicate Free(p: Proc) {
    !p.suspended && forall d :: 0 <= d < |p.fds| ==> p.fds[d] == NIL
  }

  /** Messages that can arrive: a suspended process sends none; a new child has a free slot. */
  predicate CanSend(procs: seq<Proc>, m: Message) {
    match m
    case ForkMsg(parent, child) => parent < |procs| && child < |procs| && parent != child && !procs[parent].suspended && Free(procs[child])
    case UnpauseMsg(p) => p < |procs|
    case ExitMsg(p) => p < |procs|
    case _ => m.who < |procs| && !procs[m.who].suspended
  }

  lemma AllAsleepCounted(s: Server)
    ensures Total(s.procs, Asleep) <= |s.procs|
  {
    TotalBound(s.procs, Asleep);
  }

  // ---------- do_close ----------

  lemma CloseInv(s: Server, t: Server, who: nat, fd: nat, pipeSize: nat)
    requires Inv(s, pipeSize) && who < |s.procs| && !s.procs[who].suspended && fd < |s.procs[who].fds| && s.procs[who].fds[fd] != NIL
    requires 0 <= s.procs[who].fds[fd] < |s.filps|
    requires Woken(s, t, s.filps[s.procs[who].fds[fd]].ino, Other(s.filps[s.procs[who].fds[fd]].mode))
    ensures t.procs[who] == s.procs[who] && t.filps == s.filps && s.filps[s.procs[who].fds[fd]].count > 0
    ensures Inv(CloseFd(t, who, fd), pipeSize) && Grows(s, CloseFd(t, who, fd))
    ensures |t.procs| == |s.procs| && forall p :: 0 <= p < |s.procs| ==> CloseFd(t, who, fd).procs[p].suspended == s.procs[p].suspended
  {
    hide Core, NoLostWakeup, SleepsOn;
    var f := s.procs[who].fds[fd];
    var ip := s.filps[f].ino;
    WokenInv(s, t, ip, Other(s.filps[f].mode), pipeSize);
    WokenSame(s, t, ip, Other(s.filps[f].mode), who);
    FdValid(s, who, fd, pipeSize);
    InvParts(t, pipeSize);
    CloseCore(t, who, fd, pipeSize);
    TablesOf(t, pipeSize);
    CloseNoLost(t, who, fd, ip);
    CoreInv(CloseFd(t, who, fd), pipeSize);
  }

  lemma TablesOf(s: Server, pipeSize: nat)
    requires Inv(s, pipeSize)
    ensures Tables(s) && Core(s, pipeSize)
  {
  }

  /** No call begins, ends or moves bytes, but that process `p` may be out of its call. */
  ghost predicate SameTallies(s: Server, t: Server, p: nat) {
    && |t.procs| == |s.procs| && t.whole == s.whole && t.sent == s.sent && t.carried == s.carried
    && forall q :: 0 <= q < |s.procs| ==> t.procs[q].partial == s.procs[q].partial && (q != p ==> t.procs[q].suspended == s.procs[q].suspended)
  }

  /** The other end of the pipe has been woken, and the descriptor is gone. */
  ghost predicate EndClosed(s: Server, t: Server, who: nat, fd: nat) {
    && who < |s.procs| && fd < |s.procs[who].fds| && 0 <= s.procs[who].fds[fd] < |s.filps|
    && exists u :: WokenFor(s, u, who, fd) && t == CloseFd(u, who, fd)
  }

  ghost predicate WokenFor(s: Server, u: Server, who: nat, fd: nat)
    requires who < |s.procs| && fd < |s.procs[who].fds| && 0 <= s.procs[who].fds[fd] < |s.filps|
  {
    var f := s.procs[who].fds[fd];
    Woken(s, u, s.filps[f].ino, Other(s.filps[f].mode)) && u.filps == s.filps && u.procs[who] == s.procs[who] && s.filps[f].count > 0
  }

  lemma ClosedTallies(s: Server, t: Server, who: nat, fd: nat)
    requires EndClosed(s, t, who, fd)
    ensures SameTallies(s, t, who) && t.procs[who].suspended == s.procs[who].suspended
    ensures t.procs[who].fds == s.procs[who].fds[fd := NIL]
  {
  }

  /** do_close, for a pipe: wake everyone at the other end, then drop the descriptor. */
  method Close(fs: FileServer, who: nat, fd: nat) returns (ok: bool)
    requires fs.Valid() && who < |fs.procs| && !fs.procs[who].suspended
    modifies fs
    ensures fs.Valid() && Grows(old(fs.Model()), fs.Model()) && |fs.procs| == |old(fs.procs)|
    ensures ok <==> fd < |old(fs.procs)[who].fds| && old(fs.procs)[who].fds[fd] != NIL
    ensures !ok ==> fs.Model() == old(fs.Model())
    ensures ok ==> EndClosed(old(fs.Model()), fs.Model(), who, fd)
  {
    hide Inv, Core, Woken, Grows, Total;
    ghost var s := fs.Model();
    GrowsRefl(s);
    if fd >= |fs.procs[who].fds| || fs.procs[who].fds[fd] == NIL { return false; }
    FdValid(s, who, fd, fs.pipeSize);
    var f := fs.procs[who].fds[fd];
    var ip := fs.filps[f].ino;
    var rw := if fs.filps[f].mode == Reader then Writer else Reader;
    TablesOf(s, fs.pipeSize);
    AllAsleepCounted(s);
    fs.Release(ip, rw, |fs.procs|);
    CloseInv(s, fs.Model(), who, fd, fs.pipeSize);
    ghost var u := fs.Model();
    assert WokenFor(s, u, who, fd);
    fs.filps := fs.filps[f := fs.filps[f].(count := fs.filps[f].count - 1)];
    fs.procs := fs.procs[who := fs.procs[who].(fds := fs.procs[who].fds[fd := NIL])];
    assert fs.Model() == CloseFd(u, who, fd);
    ok := true;
  }

  // ---------- get_fd, do_pipe, dup ----------

  /** get_fd: a free descriptor from `start` on, and a free filp slot. */
  method GetFd(fs: FileServer, who: nat, start: nat) returns (r: Reply, d: nat, f: nat)
    requires who < |fs.procs|
    ensures r == Count(0) || r == Error(EMFILE) || r == Error(ENFILE)
    ensures r == Count(0) ==> start <= d < |fs.procs[who].fds| && fs.procs[who].fds[d] == NIL && f < |fs.filps| && fs.filps[f].count == 0
    ensures r == Count(0) ==> forall x :: start <= x < d ==> fs.procs[who].fds[x] != NIL
    ensures r == Error(EMFILE) <==> forall x :: start <= x < |fs.procs[who].fds| ==> fs.procs[who].fds[x] != NIL
    ensures r == Error(ENFILE) ==> forall g :: 0 <= g < |fs.filps| ==> fs.filps[g].count != 0
  {
    d, f := start, 0;
    while d < |fs.procs[who].fds| && fs.procs[who].fds[d] != NIL
      invariant start <= d && forall x :: start <= x < d && x < |fs.procs[who].fds| ==> fs.procs[who].fds[x] != NIL
    {
      d := d + 1;
    }
    if d >= |fs.procs[who].fds| { return Error(EMFILE), d, f; }
    while f < |fs.filps|
      invariant f <= |fs.filps| && forall g :: 0 <= g < f ==> fs.filps[g].count != 0
    {
      if fs.filps[f].count == 0 { return Count(0), d, f; }
      f := f + 1;
    }
    r := Error(ENFILE);
  }

  lemma MakeInv(s: Server, who: nat, d0: nat, d1: nat, f0: nat, f1: nat, pipeSize: nat)
    requires Inv(s, pipeSize) && CanMake(s, who, d0, d1, f0, f1)
    ensures Inv(MakePipe(s, who, d0, d1, f0, f1), pipeSize) && Grows(s, MakePipe(s, who, d0, d1, f0, f1))
  {
    hide Fifo, Ends, NoLostWakeup;
    MakeTables(s, who, d0, d1, f0, f1);
    MakeRest(s, who, d0, d1, f0, f1, pipeSize);
    ResumableMade(s, who, d0, d1, f0, f1);
  }

  lemma ResumableMade(s: Server, who: nat, d0: nat, d1: nat, f0: nat, f1: nat)
    requires Resumable(s) && CanMake(s, who, d0, d1, f0, f1) && |s.accepted| == |s.pipes| && |s.delivered| == |s.pipes|
    ensures Resumable(MakePipe(s, who, d0, d1, f0, f1)) && Grows(s, MakePipe(s, who, d0, d1, f0, f1))
  {
  }

  /** Two free descriptors and two free filp slots. */
  ghost predicate RoomForPipe(s: Server, who: nat)
    requires who < |s.procs|
  {
    && (exists d, e :: 0 <= d < e < |s.procs[who].fds| && s.procs[who].fds[d] == NIL && s.procs[who].fds[e] == NIL)
    && (exists f, g :: 0 <= f < g < |s.filps| && s.filps[f].count == 0 && s.filps[g].count == 0)
  }

  lemma Room(s: Server, who: nat, d0: nat, d1: nat, f0: nat, f1: nat)
    requires CanMake(s, who, d0, d1, f0, f1)
    ensures RoomForPipe(s, who)
  {
    var d, e := if d0 < d1 then d0 else d1, if d0 < d1 then d1 else d0;
    assert d < e && s.procs[who].fds[d] == NIL && s.procs[who].fds[e] == NIL;
    var f, g := if f0 < f1 then f0 else f1, if f0 < f1 then f1 else f0;
    assert f < g && s.filps[f].count == 0 && s.filps[g].count == 0;
  }

  /** At most one descriptor or at most one filp slot is free. */
  lemma NoRoom(s: Server, who: nat, d0: int, f0: int)
    requires who < |s.procs|
    requires (forall d :: 0 <= d < |s.procs[who].fds| && d != d0 ==> s.procs[who].fds[d] != NIL)
      || (forall f :: 0 <= f < |s.filps| && f != f0 ==> s.filps[f].count != 0)
    ensures !RoomForPipe(s, who)
  {
  }

  /** What do_pipe answers if it fails: a descriptor is missing, or a filp slot, or at last an inode. */
  ghost function NoPipe(s: Server, who: nat): Reply
    requires who < |s.procs|
  {
    var one := exists d :: 0 <= d < |s.procs[who].fds| && s.procs[who].fds[d] == NIL;
    var two := exists d, e :: 0 <= d < e < |s.procs[who].fds| && s.procs[who].fds[d] == NIL && s.procs[who].fds[e] == NIL;
    var filp := exists f :: 0 <= f < |s.filps| && s.filps[f].count == 0;
    if !one || (filp && !two) then Error(EMFILE) else Error(ENFILE)
  }

  lemma FirstFd(s: Server, who: nat)
    requires who < |s.procs|
    ensures (forall d :: 0 <= d < |s.procs[who].fds| ==> s.procs[who].fds[d] != NIL) ==> NoPipe(s, who) == Error(EMFILE)
    ensures (exists d :: 0 <= d < |s.procs[who].fds| && s.procs[who].fds[d] == NIL) && (forall f :: 0 <= f < |s.filps| ==> s.filps[f].count != 0) ==>
      NoPipe(s, who) == Error(ENFILE)
  {}

  lemma SecondFd(s: Server, who: nat, d0: nat, f0: nat)
    requires who < |s.procs| && d0 < |s.procs[who].fds| && s.procs[who].fds[d0] == NIL && f0 < |s.filps| && s.filps[f0].count == 0
    ensures (forall d :: 0 <= d < |s.procs[who].fds| && d != d0 ==> s.procs[who].fds[d] != NIL) ==> NoPipe(s, who) == Error(EMFILE)
    ensures (exists d :: 0 <= d < |s.procs[who].fds| && d != d0 && s.procs[who].fds[d] == NIL) ==> NoPipe(s, who) == Error(ENFILE)
  {
    if d: nat :| d < |s.procs[who].fds| && d != d0 && s.procs[who].fds[d] == NIL {
      var x, y := if d < d0 then d else d0, if d < d0 then d0 else d;
      assert x < y && s.procs[who].fds[x] == NIL && s.procs[who].fds[y] == NIL;
    }
  }

  /** The second half of do_pipe, when the first end has its descriptor and its filp slot. */
  method SecondEnd(fs: FileServer, who: nat, inodeFree: bool, ghost s: Server, d0: nat, f0: nat) returns (r: Reply, d1: nat, f1: nat)
    requires fs.pipeSize > 0 && Inv(s, fs.pipeSize) && who < |s.procs| && !s.procs[who].suspended
    requires d0 < |s.procs[who].fds| && s.procs[who].fds[d0] == NIL && f0 < |s.filps| && s.filps[f0].count == 0
    requires forall x :: 0 <= x < d0 ==> s.procs[who].fds[x] != NIL
    requires fs.Model() == s.(procs := s.procs[who := s.procs[who].(fds := s.procs[who].fds[d0 := f0])], filps := s.filps[f0 := s.filps[f0].(count := 1)])
    modifies fs
    ensures fs.Valid() && Grows(s, fs.Model())
    ensures r == Count(0) <==> inodeFree && RoomForPipe(s, who)
    ensures r != Count(0) ==> fs.Model() == s && r == NoPipe(s, who)
    ensures r == Count(0) ==> d0 < d1 && CanMake(s, who, d0, d1, f0, f1) && fs.Model() == MakePipe(s, who, d0, d1, f0, f1)
  {
    hide Inv, Grows, RoomForPipe, NoPipe;
    GrowsRefl(s);
    Undone(s, who, d0, f0);
    SecondFd(s, who, d0, f0);
    r, d1, f1 := GetFd(fs, who, 0);
    if r != Count(0) || !inodeFree {
      if r != Count(0) {
        assert forall g :: 0 <= g < |s.filps| && g != f0 ==> fs.filps[g] == s.filps[g];
        NoSecond(s, who, d0, f0, r);
      } else { SecondThere(s, who, d0, f0, d1); }
      fs.procs := fs.procs[who := fs.procs[who].(fds := fs.procs[who].fds[d0 := NIL])];
      fs.filps := fs.filps[f0 := fs.filps[f0].(count := 0)];
      assert fs.Model() == s;
      if r == Count(0) { r := Error(ENFILE); }
      return;
    }
    assert s.procs[who].fds[d1] == NIL && s.filps[f1].count == 0 && f0 != f1;
    Room(s, who, d0, d1, f0, f1);
    MakeInv(s, who, d0, d1, f0, f1, fs.pipeSize);
    fs.procs := fs.procs[who := fs.procs[who].(fds := fs.procs[who].fds[d1 := f1])];
    fs.filps := fs.filps[f0 := Filp(1, Reader, false, |fs.pipes|, 0)][f1 := Filp(1, Writer, false, |fs.pipes|, 0)];
    fs.pipes := fs.pipes + [[]];
    fs.accepted := fs.accepted + [[]];
    fs.delivered := fs.delivered + [[]];
    MakeIs(s, who, d0, d1, f0, f1);
    assert fs.Model() == MakePipe(s, who, d0, d1, f0, f1);
  }

  lemma NoSecond(s: Server, who: nat, d0: nat, f0: nat, r: Reply)
    requires who < |s.procs| && d0 < |s.procs[who].fds| && s.procs[who].fds[d0] == NIL && f0 < |s.filps| && s.filps[f0].count == 0
    requires var fds := s.procs[who].fds[d0 := f0];
      && (r == Error(EMFILE) <==> forall x :: 0 <= x < |fds| ==> fds[x] != NIL)
      && (r == Error(EMFILE) || (r == Error(ENFILE) && forall g :: 0 <= g < |s.filps| && g != f0 ==> s.filps[g].count != 0))
    ensures !RoomForPipe(s, who) && r == NoPipe(s, who)
  {
    hide RoomForPipe, NoPipe;
    SecondFd(s, who, d0, f0);
    var fds := s.procs[who].fds[d0 := f0];
    if r == Error(EMFILE) {
      forall d | 0 <= d < |fds| && d != d0 ensures s.procs[who].fds[d] != NIL { assert fds[d] != NIL; }
    } else {
      var x :| 0 <= x < |fds| && fds[x] == NIL;
      assert x != d0 && s.procs[who].fds[x] == NIL;
    }
    NoRoom(s, who, d0, f0);
  }

  lemma SecondThere(s: Server, who: nat, d0: nat, f0: nat, d1: nat)
    requires who < |s.procs| && d0 < |s.procs[who].fds| && s.procs[who].fds[d0] == NIL && f0 < |s.filps| && s.filps[f0].count == 0
    requires d1 < |s.procs[who].fds| && d1 != d0 && s.procs[who].fds[d1] == NIL
    ensures NoPipe(s, who) == Error(ENFILE)
  {
    SecondFd(s, who, d0, f0);
  }

  /** do_pipe: both ends of a new pipe in two free descriptors of the caller, or nothing at all. */
  method DoPipe(fs: FileServer, who: nat, inodeFree: bool) returns (r: Reply, d0: nat, d1: nat, f0: nat, f1: nat)
    requires fs.Valid() && who < |fs.procs| && !fs.procs[who].suspended
    modifies fs
    ensures fs.Valid() && Grows(old(fs.Model()), fs.Model())
    ensures r == Count(0) <==> inodeFree && RoomForPipe(old(fs.Model()), who)
    ensures r != Count(0) ==> fs.Model() == old(fs.Model()) && r == NoPipe(old(fs.Model()), who)
    ensures r == Count(0) ==>
      d0 < d1 && CanMake(old(fs.Model()), who, d0, d1, f0, f1) && fs.Model() == MakePipe(old(fs.Model()), who, d0, d1, f0, f1)
  {
    hide Inv, Grows, RoomForPipe, NoPipe;
    ghost var s := fs.Model();
    GrowsRefl(s);
    FirstFd(s, who);
    d1, f1 := 0, 0;
    r, d0, f0 := GetFd(fs, who, 0);
    if r != Count(0) {
      NoRoom(s, who, -1, -1);
      return;
    }
    fs.procs := fs.procs[who := fs.procs[who].(fds := fs.procs[who].fds[d0 := f0])];
    fs.filps := fs.filps[f0 := fs.filps[f0].(count := 1)];
    r, d1, f1 := SecondEnd(fs, who, inodeFree, s, d0, f0);
    if r == Count(0) {
      Room(s, who, d0, d1, f0, f1);
    }
  }

  lemma Undone(s: Server, who: nat, d: nat, f: nat)
    requires who < |s.procs| && d < |s.procs[who].fds| && s.procs[who].fds[d] == NIL && f < |s.filps| && s.filps[f].count == 0
    ensures var procs := s.procs[who := s.procs[who].(fds := s.procs[who].fds[d := f])];
      procs[who := procs[who].(fds := procs[who].fds[d := NIL])] == s.procs
    ensures s.filps[f := s.filps[f].(count := 1)][f := s.filps[f].(count := 1).(count := 0)] == s.filps
  {
    var procs := s.procs[who := s.procs[who].(fds := s.procs[who].fds[d := f])];
    assert procs[who].fds[d := NIL] == s.procs[who].fds;
  }

  lemma MakeIs(s: Server, who: nat, d0: nat, d1: nat, f0: nat, f1: nat)
    requires CanMake(s, who, d0, d1, f0, f1)
    ensures var fds := s.procs[who].fds[d0 := f0];
      var procs := s.procs[who := s.procs[who].(fds := fds)];
      procs[who := procs[who].(fds := procs[who].fds[d1 := f1])] == MakePipe(s, who, d0, d1, f0, f1).procs
    ensures s.filps[f0 := s.filps[f0].(count := 1)][f0 := Filp(1, Reader, false, |s.pipes|, 0)] == s.filps[f0 := Filp(1, Reader, false, |s.pipes|, 0)]
  {
  }

  /** The first free descriptor from `start` on leads to the filp of `fd`, or it is said what is wrong. */
  ghost predicate Duplicated(s: Server, t: Server, who: nat, fd: nat, start: int, r: Reply)
    requires who < |s.procs|
  {
    var fds := s.procs[who].fds;
    if !(fd < |fds| && fds[fd] != NIL) then r == Error(EBADF) && t == s
    else if !(0 <= start < |fds|) then r == Error(EINVAL) && t == s
    else if forall x :: start <= x < |fds| ==> fds[x] != NIL then r == Error(EMFILE) && t == s
    else if forall f :: 0 <= f < |s.filps| ==> s.filps[f].count != 0 then r == Error(ENFILE) && t == s
    else
      && r.Count? && start <= r.n < |fds| && fds[r.n] == NIL && (forall x :: start <= x < r.n ==> fds[x] != NIL)
      && 0 <= fds[fd] < |s.filps| && t == AddRef(s, who, r.n, fds[fd])
  }

  /** fcntl with F_DUPFD: another descriptor for the same filp. */
  method Dup(fs: FileServer, who: nat, fd: nat, start: int) returns (r: Reply)
    requires fs.Valid() && who < |fs.procs| && !fs.procs[who].suspended
    modifies fs
    ensures fs.Valid() && Grows(old(fs.Model()), fs.Model()) && |fs.procs| == |old(fs.procs)|
    ensures Duplicated(old(fs.Model()), fs.Model(), who, fd, start, r)
  {
    hide Inv, Grows;
    ghost var s := fs.Model();
    GrowsRefl(s);
    if fd >= |fs.procs[who].fds| || fs.procs[who].fds[fd] == NIL { return Error(EBADF); }
    if start < 0 || start >= |fs.procs[who].fds| { return Error(EINVAL); }
    FdValid(s, who, fd, fs.pipeSize);
    var d, g;
    r, d, g := GetFd(fs, who, start);
    if r != Count(0) { return; }
    assert fs.procs[who].fds[d] == NIL && fs.filps[g].count == 0;
    var f := fs.procs[who].fds[fd];
    AddRefInv(s, who, d, f, fs.pipeSize);
    fs.filps := fs.filps[f := fs.filps[f].(count := fs.filps[f].count + 1)];
    fs.procs := fs.procs[who := fs.procs[who].(fds := fs.procs[who].fds[d := f])];
    SameTraces(s, fs.Model());
    r := Count(d);
  }

  lemma SameTraces(s: Server, t: Server)
    requires t.accepted == s.accepted && t.delivered == s.delivered && |t.procs| == |s.procs|
    ensures Grows(s, t)
  {
  }

  /** fcntl with F_SETFL, for O_NONBLOCK. */
  method SetFlag(fs: FileServer, who: nat, fd: nat, nonblock: bool) returns (ok: bool)
    requires fs.Valid() && who < |fs.procs|
    modifies fs`filps
    ensures fs.Valid() && Grows(old(fs.Model()), fs.Model())
    ensures ok <==> fd < |fs.procs[who].fds| && fs.procs[who].fds[fd] != NIL
    ensures !ok ==> fs.filps == old(fs.filps)
    ensures ok ==> var f := fs.procs[who].fds[fd];
      0 <= f < |old(fs.filps)| && fs.filps == old(fs.filps)[f := old(fs.filps)[f].(nonblock := nonblock)]
  {
    hide Inv, Grows;
    ghost var s := fs.Model();
    SameTraces(s, s);
    if fd >= |fs.procs[who].fds| || fs.procs[who].fds[fd] == NIL { return false; }
    FdValid(s, who, fd, fs.pipeSize);
    var f := fs.procs[who].fds[fd];
    NonblockInv(s, f, nonblock, fs.pipeSize);
    fs.filps := fs.filps[f := fs.filps[f].(nonblock := nonblock)];
    SameTraces(s, fs.Model());
    ok := true;
  }

  // ---------- do_fork ----------

  /** do_fork: copy the slot, then count every filp of it once more. */
  method Fork(fs: FileServer, parent: nat, child: nat)
    requires fs.Valid() && CanFork(fs.Model(), parent, child)
    modifies fs
    ensures fs.Valid() && fs.Model() == Forked(old(fs.Model()), parent, child)
  {
    hide Inv;
    ghost var s := fs.Model();
    ForkInv(s, parent, child, fs.pipeSize);
    SizesOf(s, fs.pipeSize);
    fs.procs := fs.procs[child := fs.procs[parent]];
    forall i | 0 <= i < |s.procs[parent].fds| && s.procs[parent].fds[i] != NIL
      ensures 0 <= s.procs[parent].fds[i] < |s.filps|
    {
      FdValid(s, parent, i, fs.pipeSize);
    }
    CountFilps(fs, fs.procs[child].fds);
  }

  /** The loop of do_fork over the descriptors of the child. */
  method CountFilps(fs: FileServer, fds: seq<int>)
    requires forall i :: 0 <= i < |fds| && fds[i] != NIL ==> 0 <= fds[i] < |fs.filps|
    modifies fs`filps
    ensures fs.filps == ForkFilps(old(fs.filps), fds)
  {
    ghost var filps := fs.filps;
    var i := 0;
    assert fds[..0] == [];
    while i < |fds|
      invariant i <= |fds| && |fs.filps| == |filps|
      invariant forall f :: 0 <= f < |filps| ==> fs.filps[f] == filps[f].(count := filps[f].count + CountIn(fds[..i], f))
    {
      assert fds[..i + 1][..i] == fds[..i] && fds[..i + 1][i] == fds[i];
      if fds[i] != NIL {
        fs.filps := fs.filps[fds[i] := fs.filps[fds[i]].(count := fs.filps[fds[i]].count + 1)];
      }
      i := i + 1;
    }
    assert fds[..i] == fds;
  }

  // ---------- do_unpause, do_exit ----------

  lemma AwakenInv(s: Server, t: Server, p: nat, pipeSize: nat)
    requires Inv(s, pipeSize) && p < |s.procs| && !s.procs[p].revived
    requires t == s.(procs := s.procs[p := s.procs[p].(suspended := false)], suspCount := t.suspCount, interrupted := t.interrupted)
    requires t.suspCount - t.interrupted == s.suspCount - s.interrupted - (if s.procs[p].suspended then 1 else 0)
    ensures Inv(t, pipeSize) && Grows(s, t)
  {
    hide Core, NoLostWakeup;
    InvParts(s, pipeSize);
    AwakeCore(s, t, p, t.procs[p], pipeSize);
    AwakeNoLost(s, t, p, t.procs[p]);
    CoreInv(t, pipeSize);
  }

  /** The call of process `p` is over; nothing else is adjusted, neither susp_count nor the count of
      the bytes it had moved. */
  ghost function Unpaused(s: Server, p: nat): Server
    requires p < |s.procs|
  {
    s.(procs := s.procs[p := s.procs[p].(suspended := false)],
       interrupted := s.interrupted + if s.procs[p].suspended then 1 else 0)
  }

  /** do_unpause, for a process suspended on a pipe: a signal ends its call with EINTR.  susp_count
      is not adjusted here, so from then on it exceeds the number of suspended processes by one more. */
  method Unpause(fs: FileServer, p: nat) returns (interrupted: bool)
    requires fs.Valid() && p < |fs.procs| && !fs.procs[p].revived
    modifies fs`procs, fs`interrupted
    ensures fs.Valid() && Grows(old(fs.Model()), fs.Model()) && interrupted == old(fs.procs)[p].suspended
    ensures fs.Model() == Unpaused(old(fs.Model()), p)
  {
    hide Inv, Grows;
    interrupted := fs.procs[p].suspended;
    ghost var s := fs.Model();
    AwakenInv(s, Unpaused(s, p), p, fs.pipeSize);
    fs.procs := fs.procs[p := fs.procs[p].(suspended := false)];
    fs.interrupted := fs.interrupted + if interrupted then 1 else 0;
  }

  /** Process `p` is not suspended any more, and not counted. */
  ghost function Stopped(s: Server, p: nat): Server
    requires p < |s.procs|
  {
    s.(procs := s.procs[p := s.procs[p].(suspended := false)], suspCount := s.suspCount - if s.procs[p].suspended then 1 else 0)
  }

  /** The first n descriptors of a process are closed one after the other, each as do_close does it. */
  ghost predicate ClosedUpTo(s: Server, t: Server, p: nat, n: nat)
    requires p < |s.procs| && n <= |s.procs[p].fds|
  {
    exists trace: seq<Server> :: ClosedThrough(s, t, p, n, trace)
  }

  ghost predicate ClosedThrough(s: Server, t: Server, p: nat, n: nat, trace: seq<Server>)
    requires p < |s.procs| && n <= |s.procs[p].fds|
  {
    && |trace| == n + 1 && trace[0] == s && trace[n] == t
    && forall i :: 0 <= i < n ==> ClosedNext(trace[i], trace[i + 1], p, i, s.procs[p].fds[i])
  }

  ghost predicate ClosedNext(s: Server, t: Server, p: nat, i: nat, f: int) {
    if f == NIL then t == s else EndClosed(s, t, p, i)
  }

  lemma ClosedNone(s: Server, p: nat)
    requires p < |s.procs|
    ensures ClosedUpTo(s, s, p, 0)
  {
    assert ClosedThrough(s, s, p, 0, [s]);
  }

  lemma ClosedMore(s: Server, t: Server, u: Server, p: nat, n: nat)
    requires p < |s.procs| && n < |s.procs[p].fds| && ClosedUpTo(s, t, p, n) && ClosedNext(t, u, p, n, s.procs[p].fds[n])
    ensures ClosedUpTo(s, u, p, n + 1)
  {
    hide ClosedNext;
    var trace: seq<Server> :| ClosedThrough(s, t, p, n, trace);
    assert ClosedThrough(s, u, p, n + 1, trace + [u]);
  }

  /** do_exit, as far as pipes go: end a suspended call, then close everything. */
  method Exit(fs: FileServer, p: nat)
    requires fs.Valid() && p < |fs.procs| && !fs.procs[p].revived
    modifies fs
    ensures fs.Valid() && Grows(old(fs.Model()), fs.Model()) && |fs.procs| == |old(fs.procs)| && Free(fs.procs[p])
    ensures SameTallies(old(fs.Model()), fs.Model(), p)
    ensures ClosedUpTo(Stopped(old(fs.Model()), p), fs.Model(), p, |old(fs.procs)[p].fds|)
  {
    hide Inv, Grows, ClosedUpTo, EndClosed, SameTallies;
    ghost var s := fs.Model();
    TalliesRefl(s, p);
    if fs.procs[p].suspended {
      fs.suspCount := fs.suspCount - 1;
      AwakenInv(s, s.(procs := s.procs[p := s.procs[p].(suspended := false)], suspCount := s.suspCount - 1), p, fs.pipeSize);
      fs.procs := fs.procs[p := fs.procs[p].(suspended := false)];
    } else {
      GrowsRefl(s);
    }
    ghost var s1 := fs.Model();
    assert s1 == Stopped(s, p) by { NotSuspended(s, p); }
    ClosedNone(s1, p);
    var i := 0;
    while i < |fs.procs[p].fds|
      invariant fs.Valid() && Grows(s, fs.Model()) && |fs.procs| == |s.procs| && |fs.procs[p].fds| == |s.procs[p].fds| && !fs.procs[p].suspended
      invariant i <= |s.procs[p].fds| && (forall d :: 0 <= d < i ==> fs.procs[p].fds[d] == NIL) && SameTallies(s, fs.Model(), p)
      invariant ClosedUpTo(s1, fs.Model(), p, i) && forall d :: i <= d < |s1.procs[p].fds| ==> fs.procs[p].fds[d] == s1.procs[p].fds[d]
      decreases |s.procs[p].fds| - i
    {
      ghost var t := fs.Model();
      var ok := Close(fs, p, i);
      if ok {
        ClosedTallies(t, fs.Model(), p, i);
        TalliesThen(s, t, fs.Model(), p);
      }
      ClosedMore(s1, t, fs.Model(), p, i);
      GrowsThen(s, t, fs.Model());
      i := i + 1;
    }
  }

  lemma NotSuspended(s: Server, p: nat)
    requires p < |s.procs|
    ensures !s.procs[p].suspended ==> Stopped(s, p) == s
  {
    assert !s.procs[p].suspended ==> s.procs[p := s.procs[p].(suspended := false)] == s.procs;
  }

  lemma TalliesRefl(s: Server, p: nat)
    requires p < |s.procs|
    ensures SameTallies(s, s, p) && SameTallies(s, Stopped(s, p), p)
  {}

  lemma TalliesThen(s: Server, t: Server, u: Server, p: nat)
    requires SameTallies(s, t, p) && SameTallies(t, u, p)
    ensures SameTallies(s, u, p)
  {}

  // ---------- Any run ----------

  /** The server with a new call of `who`: the bytes it wants written, none of them accepted so far,
      and the count that fp_cum_io_partial happens to hold. */
  ghost function Begun(s: Server, who: nat, data: seq<byte>): Server
    requires who < |s.procs| == |s.whole| == |s.sent| == |s.carried|
  {
    s.(whole := s.whole[who := data], sent := s.sent[who := []], carried := s.carried[who := s.procs[who].partial])
  }

  ghost method Begin(fs: FileServer, who: nat, data: seq<byte>)
    requires fs.Valid() && who < |fs.procs| == |fs.whole| == |fs.sent| == |fs.carried| && !fs.procs[who].suspended
    modifies fs`whole, fs`sent, fs`carried
    ensures fs.Valid() && fs.Model() == Begun(old(fs.Model()), who, data)
    ensures Grows(old(fs.Model()), fs.Model()) && fs.whole[who] == fs.sent[who] + data
    ensures forall call :: Tallied(fs.Model(), who, call)
  {
    ghost var s := fs.Model();
    hide Sleepers, Ends, NoLostWakeup;
    fs.whole := fs.whole[who := data];
    fs.sent := fs.sent[who := []];
    fs.carried := fs.carried[who := fs.procs[who].partial];
    TraceInv(s, fs.Model(), fs.pipeSize);
    assert [] + data == data;
  }

  lemma TraceInv(s: Server, t: Server, pipeSize: nat)
    requires Inv(s, pipeSize) && t == s.(whole := t.whole, sent := t.sent, carried := t.carried)
    requires |t.whole| == |s.whole| && |t.sent| == |s.sent| && |t.carried| == |s.carried|
    requires forall p :: 0 <= p < |s.procs| && s.procs[p].suspended ==>
      t.whole[p] == s.whole[p] && t.sent[p] == s.sent[p] && t.carried[p] == s.carried[p]
    ensures Inv(t, pipeSize) && Grows(s, t)
  {
    forall p | ValidProc(t, p) ensures Waiting(t, p) { assert Waiting(s, p); }
    forall f, i, x ensures OpenOn(t, f, i, x) <==> OpenOn(s, f, i, x) {}
    assert forall f | 0 <= f < |t.filps| && t.filps[f].count > 0 :: PosOk(s, f) && PosOk(t, f);
    forall i, x ensures HasEnd(t, i, x) <==> HasEnd(s, i, x) {
      if HasEnd(s, i, x) { var g :| OpenOn(s, g, i, x); assert OpenOn(t, g, i, x); }
      if HasEnd(t, i, x) { var g :| OpenOn(t, g, i, x); assert OpenOn(s, g, i, x); }
    }
    forall p, i, x ensures SleepsOn(t, p, i, x) <==> SleepsOn(s, p, i, x) {}
  }

  ghost predicate OpenFd(s: Server, who: nat, fd: nat) {
    who < |s.procs| && fd < |s.procs[who].fds| && s.procs[who].fds[fd] != NIL
  }

  /** What each message does and what the answer says. */
  ghost predicate Served(s: Server, t: Server, pipeSize: nat, maxSize: nat, m: Message, reply: Reply) {
    |t.procs| == |s.procs| == |s.whole| == |s.sent| == |s.carried| &&
    match m
    case ReadMsg(who, fd, nbytes) =>
      who < |s.procs| && Frame(Begun(s, who, []), t, who, fd, Reader)
      && exists k :: CallResult(Begun(s, who, []), t, pipeSize, maxSize, who, fd, Reader, [], nbytes, reply, k)
    case WriteMsg(who, fd, data) =>
      who < |s.procs| && Frame(Begun(s, who, data), t, who, fd, Writer)
      && exists k :: CallResult(Begun(s, who, data), t, pipeSize, maxSize, who, fd, Writer, data, |data|, reply, k)
    case CloseMsg(who, fd) =>
      if OpenFd(s, who, fd) then reply == Count(0) && EndClosed(s, t, who, fd)
      else reply == Error(EBADF) && t == s
    case PipeMsg(who, inodeFree) =>
      && who < |s.procs| && (reply == Count(0) <==> inodeFree && RoomForPipe(s, who))
      && if reply == Count(0) then exists d0: nat, d1: nat, f0: nat, f1: nat :: Piped(s, t, who, d0, d1, f0, f1)
         else t == s && reply == NoPipe(s, who)
    case DupMsg(who, fd, start) => who < |s.procs| && Duplicated(s, t, who, fd, start, reply)
    case ForkMsg(parent, child) => CanFork(s, parent, child) && t == Forked(s, parent, child) && reply == Count(0)
    case FlagMsg(who, fd, nonblock) =>
      if !OpenFd(s, who, fd) then t == s && reply == Error(EBADF)
      else
        var f := s.procs[who].fds[fd];
        0 <= f < |s.filps| && t == s.(filps := s.filps[f := s.filps[f].(nonblock := nonblock)]) && reply == Count(0)
    case UnpauseMsg(p) => p < |s.procs| && t == Unpaused(s, p) && reply == Count(0)
    case ExitMsg(p) =>
      && p < |s.procs| && Free(t.procs[p]) && SameTallies(s, t, p) && reply == Count(0)
      && ClosedUpTo(Stopped(s, p), t, p, |s.procs[p].fds|)
  }

  /** A new, empty pipe with its reading end at `d0` and its writing end at `d1`. */
  ghost predicate Piped(s: Server, t: Server, who: nat, d0: nat, d1: nat, f0: nat, f1: nat) {
    d0 < d1 && CanMake(s, who, d0, d1, f0, f1) && t == MakePipe(s, who, d0, d1, f0, f1)
  }

  /** One message, up to where the server replies or suspends the caller. */
  method Handle(fs: FileServer, m: Message) returns (reply: Reply)
    requires fs.Valid() && fs.reviving == 0 && CanSend(fs.procs, m)
    modifies fs
    ensures fs.Valid() && Grows(old(fs.Model()), fs.Model())
    ensures Served(old(fs.Model()), fs.Model(), fs.pipeSize, fs.maxSize, m, reply)
  {
    hide Inv, CallResult, Progress, Frame, RoomForPipe, CanMake, MakePipe, Unpaused, NoPipe, ClosedUpTo, Duplicated, SameTallies;
    ghost var s := fs.Model();
    NobodyRevived(s, fs.pipeSize);
    SizesOf(s, fs.pipeSize);
    reply := Count(0);
    match m
    case ReadMsg(who, fd, nbytes) =>
      Begin(fs, who, []);
      ghost var t := fs.Model();
      ghost var k;
      reply, k := fs.ReadWrite(who, fd, Reader, [], nbytes);
      CallGrows(t, fs.Model(), fs.pipeSize, fs.maxSize, who, fd, Reader, [], nbytes, reply, k);
      GrowsThen(s, t, fs.Model());
    case WriteMsg(who, fd, data) =>
      Begin(fs, who, data);
      ghost var t := fs.Model();
      ghost var k;
      reply, k := fs.ReadWrite(who, fd, Writer, data, |data|);
      CallGrows(t, fs.Model(), fs.pipeSize, fs.maxSize, who, fd, Writer, data, |data|, reply, k);
      GrowsThen(s, t, fs.Model());
    case CloseMsg(who, fd) =>
      var ok := Close(fs, who, fd);
      if !ok { reply := Error(EBADF); }
    case PipeMsg(who, inodeFree) =>
      var d0, d1, f0, f1;
      reply, d0, d1, f0, f1 := DoPipe(fs, who, inodeFree);
      if reply == Count(0) { assert Piped(s, fs.Model(), who, d0, d1, f0, f1); }
    case DupMsg(who, fd, start) => reply := Dup(fs, who, fd, start);
    case ForkMsg(parent, child) =>
      Fork(fs, parent, child);
      SameTraces(s, fs.Model());
    case FlagMsg(who, fd, nonblock) =>
      var ok := SetFlag(fs, who, fd, nonblock);
      if !ok { reply := Error(EBADF); }
    case UnpauseMsg(p) => var interrupted := Unpause(fs, p);
    case ExitMsg(p) => Exit(fs, p);
  }

  /** One turn of the server: from `s` a message is handled, and from `mid` the revived calls. */
  datatype Turn = Turn(s: Server, m: Message, reply: Reply, mid: Server, replies: seq<(nat, Reply)>, t: Server)

  ghost predicate TurnOk(x: Turn, pipeSize: nat, maxSize: nat) {
    && Inv(x.s, pipeSize) && CanSend(x.s.procs, x.m) && Served(x.s, x.mid, pipeSize, maxSize, x.m, x.reply)
    && Inv(x.mid, pipeSize) && Answered(x.mid, x.t, x.replies)
  }

  /** Turns that follow on each other, from `s` to `t`. */
  ghost predicate Turns(s: Server, turns: seq<Turn>, t: Server, pipeSize: nat, maxSize: nat) {
    && (forall k :: 0 <= k < |turns| ==> TurnOk(turns[k], pipeSize, maxSize))
    && (forall k :: 0 < k < |turns| ==> turns[k].s == turns[k - 1].t)
    && if turns == [] then t == s else turns[0].s == s && turns[|turns| - 1].t == t
  }

  lemma TurnsMore(s: Server, turns: seq<Turn>, x: Turn, pipeSize: nat, maxSize: nat)
    requires Turns(s, turns, x.s, pipeSize, maxSize) && TurnOk(x, pipeSize, maxSize)
    ensures Turns(s, turns + [x], x.t, pipeSize, maxSize)
  {
    hide TurnOk;
  }

  /** The turns are those of the messages that could be sent, in their order. */
  ghost predicate Received(s: Server, messages: seq<Message>, turns: seq<Turn>, t: Server)
    decreases |messages|
  {
    if messages == [] then turns == [] && t == s
    else
      var n := |messages| - 1;
      || (!Sends(t.procs, messages[n]) && Received(s, messages[..n], turns, t))
      || (turns != [] && var x := turns[|turns| - 1];
          x.m == messages[n] && x.t == t && Sends(x.s.procs, x.m) && Received(s, messages[..n], turns[..|turns| - 1], x.s))
  }

  /** The sender is not suspended; nobody is asked whether a signal or an exit may come; a process that
      is forked gets the slot of one that has no call and no descriptor. */
  ghost predicate Sends(procs: seq<Proc>, m: Message) {
    if m.UnpauseMsg? || m.ExitMsg? then m.p < |procs|
    else if m.ForkMsg? then
      && m.parent < |procs| && m.child < |procs| && m.parent != m.child && !procs[m.parent].suspended && !procs[m.child].suspended
      && forall d :: 0 <= d < |procs[m.child].fds| ==> procs[m.child].fds[d] == NIL
    else m.who < |procs| && !procs[m.who].suspended
  }

  lemma SendsIs(procs: seq<Proc>, m: Message)
    ensures Sends(procs, m) <==> CanSend(procs, m)
  {}

  lemma ReceivedStart(s: Server)
    ensures Received(s, [], [], s)
  {}

  lemma ReceivedOne(s: Server, messages: seq<Message>, i: nat, turns: seq<Turn>, x: Turn)
    requires i < |messages| && Received(s, messages[..i], turns, x.s) && x.m == messages[i] && CanSend(x.s.procs, x.m)
    ensures Received(s, messages[..i + 1], turns + [x], x.t)
  {
    SendsIs(x.s.procs, x.m);
    assert messages[..i + 1][..i] == messages[..i] && (turns + [x])[..|turns|] == turns;
  }

  lemma ReceivedNone(s: Server, messages: seq<Message>, i: nat, turns: seq<Turn>, t: Server)
    requires i < |messages| && Received(s, messages[..i], turns, t) && !CanSend(t.procs, messages[i])
    ensures Received(s, messages[..i + 1], turns, t)
  {
    SendsIs(t.procs, messages[i]);
    assert messages[..i + 1][..i] == messages[..i];
  }

  /** Any sequence of messages.  Before each one is received, and at the end, nobody is left to be
      revived, nobody sleeps without a reason, and what was delivered of each pipe is a prefix of
      what was accepted, which only grows. */
  method Run(fs: FileServer, messages: seq<Message>) returns (ghost turns: seq<Turn>)
    requires fs.Valid() && fs.reviving == 0
    modifies fs
    ensures fs.Valid() && fs.reviving == 0 && Grows(old(fs.Model()), fs.Model())
    ensures Turns(old(fs.Model()), turns, fs.Model(), fs.pipeSize, fs.maxSize) && Received(old(fs.Model()), messages, turns, fs.Model())
  {
    hide Inv, Grows, Served, Answered, CanSend, Received;
    ReceivedStart(fs.Model());
    ghost var s := fs.Model();
    GrowsRefl(s);
    turns := [];
    var i := 0;
    while i < |messages|
      invariant i <= |messages| && fs.Valid() && fs.reviving == 0 && Grows(s, fs.Model())
      invariant Turns(s, turns, fs.Model(), fs.pipeSize, fs.maxSize) && Received(s, messages[..i], turns, fs.Model())
    {
      ghost var t := fs.Model();
      if CanSend(fs.procs, messages[i]) {
        var reply := Handle(fs, messages[i]);
        ghost var u := fs.Model();
        var replies := fs.Quiesce();
        GrowsThen(t, u, fs.Model());
        GrowsThen(s, t, fs.Model());
        TurnsMore(s, turns, Turn(t, messages[i], reply, u, replies, fs.Model()), fs.pipeSize, fs.maxSize);
        ReceivedOne(s, messages, i, turns, Turn(t, messages[i], reply, u, replies, fs.Model()));
        turns := turns + [Turn(t, messages[i], reply, u, replies, fs.Model())];
      } else {
        ReceivedNone(s, messages, i, turns, t);
      }
      i := i + 1;
    }
    assert messages[..i] == messages;
  }

  /** What Valid means to a process at the time of a receive. */
  lemma AtReceive(s: Server, pipeSize: nat, p: nat)
    requires Inv(s, pipeSize) && s.reviving == 0 && p < |s.procs| && s.procs[p].suspended
    ensures s.procs[p].fd < |s.procs[p].fds| && 0 <= s.procs[p].fds[s.procs[p].fd] < |s.filps|
    ensures var ip := s.filps[s.procs[p].fds[s.procs[p].fd]].ino;
      && ip < |s.pipes| && |s.pipes[ip]| <= pipeSize && s.delivered[ip] <= s.accepted[ip]
      && (s.procs[p].call == Reader ==> s.pipes[ip] == [] && HasEnd(s, ip, Writer) && s.delivered[ip] == s.accepted[ip])
      && (s.procs[p].call == Writer ==> HasEnd(s, ip, Reader) && s.whole[p] == s.sent[p] + s.procs[p].data)
      && Tallied(s, p, s.procs[p].call)
      && forall q :: !SleepsOn(s, q, ip, Other(s.procs[p].call))
    ensures s.suspCount == Total(s.procs, Suspended) + s.interrupted
  {
    NobodyRevived(s, pipeSize);
    assert ValidProc(s, p) && Waiting(s, p);
    RefCounts(s, p, s.procs[p].fd);
    var f := s.procs[p].fds[s.procs[p].fd];
    var ip := s.filps[f].ino;
    assert SleepsOn(s, p, ip, s.procs[p].call) && PosOk(s, f);
    TotalSameKind(s.procs);
  }

  lemma {:induction false} TotalSameKind(procs: seq<Proc>)
    requires forall p :: 0 <= p < |procs| ==> !procs[p].revived
    ensures Total(procs, Suspended) == Total(procs, Asleep)
  {
    if procs != [] {
      var rest := procs[..|procs| - 1];
      forall p | 0 <= p < |rest| ensures !rest[p].revived { assert rest[p] == procs[p]; }
      TotalSameKind(rest);
    }
  }
}
