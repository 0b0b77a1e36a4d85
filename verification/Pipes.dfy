/** Pipes between processes: who is suspended on which end, and what must hold of that. */
module Pipes {
  import opened Storage

  datatype End = Reader | Writer

  /** The filp and fproc slots as far as pipes need them.  A suspended process keeps its call in
      `call`, `fd`, `data` (the bytes still to be written, from fp_buffer on) and `nbytes`;
      `partial` is fp_cum_io_partial. */
  datatype Filp = Filp(count: nat, mode: End, nonblock: bool, ino: nat, pos: nat)
  datatype Proc = Proc(fds: seq<int>, suspended: bool, revived: bool, call: End, fd: nat, data: seq<byte>, nbytes: nat, partial: nat)

  /** `pipes` are the contents of the pipe inodes; `accepted` and `delivered` are all bytes ever
      written into and read from each pipe; `whole` and `sent` are, for each process in a write
      call, the bytes it asked to write and those of them that were accepted so far; `carried` is
      fp_cum_io_partial of each process as it was when its call was received, and `interrupted`
      counts the suspended calls that were ended by a signal. */
  datatype Server = Server(procs: seq<Proc>, filps: seq<Filp>, pipes: seq<seq<byte>>, suspCount: int, reviving: int,
                           accepted: seq<seq<byte>>, delivered: seq<seq<byte>>, whole: seq<seq<byte>>, sent: seq<seq<byte>>,
                           carried: seq<nat>, interrupted: nat)

  // ---------- Counting over the process table ----------

  datatype Kind = Revived | Asleep | WakingReader | WakingWriter | Suspended | Bytes | RefTo(f: int)

  function CountIn(fds: seq<int>, f: int): nat {
    if fds == [] then 0 else CountIn(fds[..|fds| - 1], f) + (if fds[|fds| - 1] == f then 1 else 0)
  }

  function Weight(p: Proc, k: Kind): nat {
    match k
    case Revived => if p.revived then 1 else 0
    case Asleep => if p.suspended && !p.revived then 1 else 0
    case WakingReader => if p.suspended && p.revived && p.call == Reader then 1 else 0
    case WakingWriter => if p.suspended && p.revived && p.call == Writer then 1 else 0
    case Suspended => if p.suspended then 1 else 0
    case Bytes => if p.suspended then |p.data| else 0
    case RefTo(f) => CountIn(p.fds, f)
  }

  function Total(procs: seq<Proc>, k: Kind): nat {
    if procs == [] then 0 else Total(procs[..|procs| - 1], k) + Weight(procs[|procs| - 1], k)
  }

  lemma {:induction false} TotalUpdate(procs: seq<Proc>, i: nat, q: Proc, k: Kind)
    requires i < |procs|
    ensures Total(procs[i := q], k) + Weight(procs[i], k) == Total(procs, k) + Weight(q, k)
  {
    var n := |procs| - 1;
    if i < n {
      TotalUpdate(procs[..n], i, q, k);
      assert procs[i := q][..n] == procs[..n][i := q];
    } else {
      assert procs[i := q][..n] == procs[..n];
    }
  }

  lemma {:induction false} TotalOne(procs: seq<Proc>, i: nat, k: Kind)
    requires i < |procs|
    ensures Weight(procs[i], k) <= Total(procs, k)
  {
    if i < |procs| - 1 {
      TotalOne(procs[..|procs| - 1], i, k);
      assert procs[..|procs| - 1][i] == procs[i];
    }
  }

  lemma {:induction false} TotalSome(procs: seq<Proc>, k: Kind)
    requires Total(procs, k) > 0
    ensures exists i :: 0 <= i < |procs| && Weight(procs[i], k) > 0
  {
    if Weight(procs[|procs| - 1], k) == 0 {
      TotalSome(procs[..|procs| - 1], k);
      var i :| 0 <= i < |procs| - 1 && Weight(procs[..|procs| - 1][i], k) > 0;
      assert procs[i] == procs[..|procs| - 1][i];
    }
  }

  lemma {:induction false} TotalBound(procs: seq<Proc>, k: Kind)
    requires forall i :: 0 <= i < |procs| ==> Weight(procs[i], k) <= 1
    ensures Total(procs, k) <= |procs|
  {
    if procs != [] {
      var rest := procs[..|procs| - 1];
      forall i | 0 <= i < |rest| ensures Weight(rest[i], k) <= 1 { assert rest[i] == procs[i]; }
      TotalBound(rest, k);
    }
  }

  lemma {:induction false} CountUpdate(fds: seq<int>, d: nat, g: int, f: int)
    requires d < |fds|
    ensures CountIn(fds[d := g], f) + (if fds[d] == f then 1 else 0) == CountIn(fds, f) + (if g == f then 1 else 0)
  {
    var n := |fds| - 1;
    if d < n {
      CountUpdate(fds[..n], d, g, f);
      assert fds[d := g][..n] == fds[..n][d := g];
    } else {
      assert fds[d := g][..n] == fds[..n];
    }
  }

  lemma {:induction false} CountSome(fds: seq<int>, f: int)
    ensures CountIn(fds, f) > 0 <==> f in fds
  {
    if fds != [] {
      CountSome(fds[..|fds| - 1], f);
      assert fds == fds[..|fds| - 1] + [fds[|fds| - 1]];
    }
  }

  // ---------- The ends of a pipe ----------

  function Other(e: End): End {
    if e == Reader then Writer else Reader
  }


  /** Filp `f` is open on end `e` of pipe `ip`. */
  ghost predicate OpenOn(s: Server, f: int, ip: int, e: End) {
    0 <= f < |s.filps| && s.filps[f].count > 0 && s.filps[f].ino == ip && s.filps[f].mode == e
  }

  ghost predicate HasEnd(s: Server, ip: int, e: End) {
    exists f :: OpenOn(s, f, ip, e)
  }

  ghost predicate ValidProc(s: Server, p: int) {
    0 <= p < |s.procs|
  }

  /** Process `p` is suspended in call `e` on pipe `ip` and nobody has woken it. */
  ghost predicate SleepsOn(s: Server, p: int, ip: int, e: End) {
    && ValidProc(s, p) && s.procs[p].suspended && !s.procs[p].revived && s.procs[p].call == e
    && s.procs[p].fd < |s.procs[p].fds| && OpenOn(s, s.procs[p].fds[s.procs[p].fd], ip, e)
  }

  // ---------- What holds between any two requests ----------

  /** File descriptors lead to open filps, which count them. */
  ghost predicate Tables(s: Server) {
    && (forall f :: 0 <= f < |s.filps| ==> s.filps[f].count == Total(s.procs, RefTo(f)))
    && (forall p, d :: 0 <= p < |s.procs| && 0 <= d < |s.procs[p].fds| ==> s.procs[p].fds[d] == NIL || 0 <= s.procs[p].fds[d] < |s.filps|)
    && |s.accepted| == |s.pipes| && |s.delivered| == |s.pipes| && |s.whole| == |s.procs| && |s.sent| == |s.procs|
  }

  /** A suspended process waits at the end it has open. */
  ghost predicate Waiting(s: Server, p: int)
    requires ValidProc(s, p)
  {
    var q := s.procs[p];
    && (q.revived ==> q.suspended)
    && (q.suspended ==>
         && q.fd < |q.fds| && 0 <= q.fds[q.fd] < |s.filps| && s.filps[q.fds[q.fd]].mode == q.call
         && q.nbytes > 0 && (q.call == Writer ==> |q.data| == q.nbytes) && (q.call == Reader ==> q.data == []))
  }

  ghost predicate Sleepers(s: Server) {
    && (forall p :: ValidProc(s, p) ==> Waiting(s, p))
    && s.reviving == Total(s.procs, Revived) && s.suspCount == Total(s.procs, Asleep) + s.interrupted
  }

  /** Each pipe has at most one filp for each end; the writer is at the end of the contents. */
  ghost predicate Ends(s: Server) {
    && (forall f | 0 <= f < |s.filps| && s.filps[f].count > 0 :: s.filps[f].ino < |s.pipes|)
    && (forall f, g, ip, e | OpenOn(s, f, ip, e) && OpenOn(s, g, ip, e) :: f == g)
  }

  ghost predicate PosOk(s: Server, f: int)
    requires 0 <= f < |s.filps| && s.filps[f].ino < |s.pipes| && |s.accepted| == |s.pipes| && |s.delivered| == |s.pipes|
  {
    var fl := s.filps[f];
    var bytes := s.pipes[fl.ino];
    && (fl.mode == Writer ==> fl.pos == |bytes|)
    && (fl.mode == Reader ==>
         && (fl.pos < |bytes| || (fl.pos == 0 && bytes == []))
         && s.accepted[fl.ino] == s.delivered[fl.ino] + bytes[fl.pos..])
  }

  /** First in, first out, and never more than the pipe holds. */
  ghost predicate Fifo(s: Server, pipeSize: nat) {
    && |s.accepted| == |s.pipes| && |s.delivered| == |s.pipes|
    && (forall i :: 0 <= i < |s.pipes| ==> |s.pipes[i]| <= pipeSize && s.delivered[i] <= s.accepted[i])
    && (forall f | 0 <= f < |s.filps| && s.filps[f].count > 0 :: s.filps[f].ino < |s.pipes| && PosOk(s, f))
  }

  /** Nobody sleeps without a reason: a reader only while the pipe is empty and can be written
      to, a writer only while somebody can read, and never a reader and a writer of one pipe. */
  ghost predicate NoLostWakeup(s: Server) {
    && (forall p, ip | SleepsOn(s, p, ip, Reader) :: 0 <= ip < |s.pipes| && s.pipes[ip] == [] && HasEnd(s, ip, Writer))
    && (forall p, ip | SleepsOn(s, p, ip, Writer) :: HasEnd(s, ip, Reader))
    && (forall p, q, ip | SleepsOn(s, p, ip, Reader) && SleepsOn(s, q, ip, Writer) :: false)
  }

  /** The count kept for process `p` is what it was when the call was received, and what the call
      has moved since. */
  ghost predicate Tallied(s: Server, p: int, call: End) {
    && 0 <= p < |s.procs| == |s.sent| == |s.carried|
    && s.procs[p].partial == s.carried[p] + if call == Writer then |s.sent[p]| else 0
  }

  /** A process suspended in a write call has yet to write exactly what was not accepted, and has the
      right count of the rest. */
  ghost predicate Resumable(s: Server) {
    && |s.whole| == |s.procs| && |s.sent| == |s.procs| && |s.carried| == |s.procs|
    && (forall p :: ValidProc(s, p) && s.procs[p].suspended && s.procs[p].call == Writer ==> s.whole[p] == s.sent[p] + s.procs[p].data)
    && forall p :: ValidProc(s, p) && s.procs[p].suspended ==> Tallied(s, p, s.procs[p].call)
  }

  ghost predicate Inv(s: Server, pipeSize: nat) {
    Tables(s) && Sleepers(s) && Ends(s) && Fifo(s, pipeSize) && NoLostWakeup(s) && Resumable(s)
  }

  /** All of it but the reasons for sleeping. */
  ghost predicate Core(s: Server, pipeSize: nat) {
    Tables(s) && Sleepers(s) && Ends(s) && Fifo(s, pipeSize) && Resumable(s)
  }

  // ---------- Waking ----------

  lemma {:induction false} TotalSame(a: seq<Proc>, b: seq<Proc>, k: Kind)
    requires |a| == |b| && forall p :: 0 <= p < |a| ==> Weight(a[p], k) == Weight(b[p], k)
    ensures Total(a, k) == Total(b, k)
  {
    if a != [] {
      var x, y := a[..|a| - 1], b[..|b| - 1];
      forall p | 0 <= p < |x| ensures Weight(x[p], k) == Weight(y[p], k) { assert x[p] == a[p] && y[p] == b[p]; }
      TotalSame(x, y, k);
    }
  }

  /** From `s` to `t` those of the first `n` processes that slept in call `e` on pipe `ip` were woken. */
  ghost predicate WokenUpTo(s: Server, t: Server, ip: int, e: End, n: nat) {
    && |t.procs| == |s.procs| && t == s.(procs := t.procs, reviving := t.reviving, suspCount := t.suspCount)
    && (forall p :: 0 <= p < |s.procs| ==>
         t.procs[p] == if p < n && SleepsOn(s, p, ip, e) then s.procs[p].(revived := true) else s.procs[p])
    && t.reviving - Total(t.procs, Revived) == s.reviving - Total(s.procs, Revived)
    && t.suspCount - Total(t.procs, Asleep) == s.suspCount - Total(s.procs, Asleep)
  }

  ghost predicate Woken(s: Server, t: Server, ip: int, e: End) {
    WokenUpTo(s, t, ip, e, |s.procs|)
  }

  lemma WokenTotals(s: Server, t: Server, ip: int, e: End, n: nat, k: Kind)
    requires WokenUpTo(s, t, ip, e, n) && (k.RefTo? || k.Suspended? || k.Bytes?)
    ensures Total(t.procs, k) == Total(s.procs, k)
  {
    TotalSame(s.procs, t.procs, k);
  }

  lemma WokenCore(s: Server, t: Server, ip: int, e: End, pipeSize: nat)
    requires Core(s, pipeSize) && Woken(s, t, ip, e)
    ensures Core(t, pipeSize)
  {
    assert Tables(t) by {
      forall f | 0 <= f < |t.filps| ensures t.filps[f].count == Total(t.procs, RefTo(f)) { WokenTotals(s, t, ip, e, |s.procs|, RefTo(f)); }
    }
    assert Sleepers(t) by {
      forall p | ValidProc(t, p) ensures Waiting(t, p) { assert Waiting(s, p); }
    }
    assert Ends(t) by { assert forall f, i, x :: OpenOn(t, f, i, x) <==> OpenOn(s, f, i, x); }
    assert Fifo(t, pipeSize) by { assert forall f | 0 <= f < |t.filps| && t.filps[f].count > 0 :: PosOk(s, f) && PosOk(t, f); }
  }

  /** Afterwards none of them sleeps, and the others sleep as before. */
  lemma WokenSleepers(s: Server, t: Server, ip: int, e: End, p: int, i: int, x: End)
    requires Woken(s, t, ip, e)
    ensures SleepsOn(t, p, i, x) <==> SleepsOn(s, p, i, x) && (i != ip || x != e)
    ensures HasEnd(t, i, x) <==> HasEnd(s, i, x)
  {
    if HasEnd(s, i, x) { var f :| OpenOn(s, f, i, x); assert OpenOn(t, f, i, x); }
    if HasEnd(t, i, x) { var f :| OpenOn(t, f, i, x); assert OpenOn(s, f, i, x); }
    if ValidProc(s, p) && SleepsOn(s, p, i, x) && SleepsOn(s, p, ip, e) { assert i == ip && x == e; }
  }

  lemma WokenNoLost(s: Server, t: Server, ip: int, e: End)
    requires NoLostWakeup(s) && Woken(s, t, ip, e)
    ensures NoLostWakeup(t) && forall p :: !SleepsOn(t, p, ip, e)
  {
    hide SleepsOn, HasEnd;
    assert t.pipes == s.pipes;
    hide Woken;
    forall p, i, x ensures SleepsOn(t, p, i, x) <==> SleepsOn(s, p, i, x) && (i != ip || x != e) { WokenSleepers(s, t, ip, e, p, i, x); }
    forall i, x ensures HasEnd(t, i, x) <==> HasEnd(s, i, x) { WokenSleepers(s, t, ip, e, 0, i, x); }
  }

  // ---------- Falling asleep ----------

  function Suspend(s: Server, who: nat, call: End, fd: nat, data: seq<byte>, nbytes: nat): Server
    requires who < |s.procs|
  {
    s.(procs := s.procs[who := s.procs[who].(suspended := true, call := call, fd := fd, data := data, nbytes := nbytes)],
       suspCount := s.suspCount + 1)
  }

  ghost predicate MaySuspend(s: Server, who: nat, call: End, fd: nat, data: seq<byte>, nbytes: nat) {
    && who < |s.procs| && !s.procs[who].suspended && fd < |s.procs[who].fds| && 0 <= s.procs[who].fds[fd] < |s.filps|
    && s.filps[s.procs[who].fds[fd]].mode == call && nbytes > 0 && |s.whole| == |s.procs| && |s.sent| == |s.procs|
    && (call == Writer ==> |data| == nbytes && s.whole[who] == s.sent[who] + data) && (call == Reader ==> data == [])
    && Tallied(s, who, call)
  }

  lemma SuspendCore(s: Server, who: nat, call: End, fd: nat, data: seq<byte>, nbytes: nat, pipeSize: nat)
    requires Core(s, pipeSize) && MaySuspend(s, who, call, fd, data, nbytes)
    ensures Core(Suspend(s, who, call, fd, data, nbytes), pipeSize)
  {
    var t := Suspend(s, who, call, fd, data, nbytes);
    var q := t.procs[who];
    assert Waiting(s, who);
    assert Tables(t) by {
      forall f | 0 <= f < |t.filps| ensures t.filps[f].count == Total(t.procs, RefTo(f)) { TotalUpdate(s.procs, who, q, RefTo(f)); }
    }
    assert Sleepers(t) by {
      TotalUpdate(s.procs, who, q, Revived);
      TotalUpdate(s.procs, who, q, Asleep);
      forall p | ValidProc(t, p) ensures Waiting(t, p) { assert Waiting(s, p); }
    }
    assert Ends(t) by { assert forall f, i, x :: OpenOn(t, f, i, x) <==> OpenOn(s, f, i, x); }
    assert Fifo(t, pipeSize) by { assert forall f | 0 <= f < |t.filps| && t.filps[f].count > 0 :: PosOk(s, f) && PosOk(t, f); }
  }

  lemma SuspendSleepers(s: Server, who: nat, call: End, fd: nat, data: seq<byte>, nbytes: nat, p: int, i: int, x: End)
    requires MaySuspend(s, who, call, fd, data, nbytes) && (s.procs[who].revived ==> s.procs[who].suspended)
    ensures var t := Suspend(s, who, call, fd, data, nbytes);
      && (SleepsOn(t, p, i, x) <==> SleepsOn(s, p, i, x) || (p == who && x == call && OpenOn(s, s.procs[who].fds[fd], i, x)))
      && (HasEnd(t, i, x) <==> HasEnd(s, i, x))
  {
    var t := Suspend(s, who, call, fd, data, nbytes);
    if HasEnd(s, i, x) { var f :| OpenOn(s, f, i, x); assert OpenOn(t, f, i, x); }
    if HasEnd(t, i, x) { var f :| OpenOn(t, f, i, x); assert OpenOn(s, f, i, x); }
  }

  /** A process may fall asleep for a reason, if nobody sleeps at the other end. */
  lemma SuspendNoLost(s: Server, who: nat, call: End, fd: nat, data: seq<byte>, nbytes: nat, ip: int)
    requires NoLostWakeup(s) && MaySuspend(s, who, call, fd, data, nbytes) && (s.procs[who].revived ==> s.procs[who].suspended)
    requires OpenOn(s, s.procs[who].fds[fd], ip, call)
    requires call == Reader ==> 0 <= ip < |s.pipes| && s.pipes[ip] == [] && HasEnd(s, ip, Writer)
    requires call == Writer ==> HasEnd(s, ip, Reader)
    requires forall p :: !SleepsOn(s, p, ip, Other(call))
    ensures NoLostWakeup(Suspend(s, who, call, fd, data, nbytes))
  {
    var t := Suspend(s, who, call, fd, data, nbytes);
    assert t.pipes == s.pipes;
    assert forall i, x | OpenOn(s, s.procs[who].fds[fd], i, x) :: i == ip && x == call;
    forall p ensures !SleepsOn(s, p, ip, Writer) || call == Writer { assert !SleepsOn(s, p, ip, Other(call)); }
    forall p ensures !SleepsOn(s, p, ip, Reader) || call == Reader { assert !SleepsOn(s, p, ip, Other(call)); }
    hide SleepsOn, HasEnd, Suspend, MaySuspend, OpenOn;
    forall p, i, x ensures SleepsOn(t, p, i, x) <==> SleepsOn(s, p, i, x) || (p == who && x == call && OpenOn(s, s.procs[who].fds[fd], i, x)) {
      SuspendSleepers(s, who, call, fd, data, nbytes, p, i, x);
    }
    forall i, x ensures HasEnd(t, i, x) <==> HasEnd(s, i, x) { SuspendSleepers(s, who, call, fd, data, nbytes, 0, i, x); }
  }

  /** A reader that falls asleep on an empty pipe and then wakes the writers. */
  lemma SleepAndWake(s: Server, u: Server, who: nat, fd: nat, nbytes: nat, ip: int)
    requires NoLostWakeup(s) && MaySuspend(s, who, Reader, fd, [], nbytes) && (s.procs[who].revived ==> s.procs[who].suspended)
    requires OpenOn(s, s.procs[who].fds[fd], ip, Reader) && 0 <= ip < |s.pipes| && s.pipes[ip] == [] && HasEnd(s, ip, Writer)
    requires Woken(Suspend(s, who, Reader, fd, [], nbytes), u, ip, Writer)
    ensures NoLostWakeup(u)
  {
    var t := Suspend(s, who, Reader, fd, [], nbytes);
    assert u.pipes == s.pipes;
    assert forall i, x | OpenOn(s, s.procs[who].fds[fd], i, x) :: i == ip && x == Reader;
    hide SleepsOn, HasEnd, Suspend, MaySuspend, OpenOn, Woken;
    forall p, i, x ensures SleepsOn(u, p, i, x) <==>
      (SleepsOn(s, p, i, x) || (p == who && x == Reader && OpenOn(s, s.procs[who].fds[fd], i, x))) && (i != ip || x != Writer)
    {
      SuspendSleepers(s, who, Reader, fd, [], nbytes, p, i, x);
      WokenSleepers(t, u, ip, Writer, p, i, x);
    }
    forall i, x ensures HasEnd(u, i, x) <==> HasEnd(s, i, x) {
      SuspendSleepers(s, who, Reader, fd, [], nbytes, 0, i, x);
      WokenSleepers(t, u, ip, Writer, 0, i, x);
    }
  }

  // ---------- Moving bytes ----------

  /** `chunk` goes into pipe `ip` through filp `f` on behalf of `who`. */
  function Put(s: Server, f: nat, ip: nat, who: nat, chunk: seq<byte>): Server
    requires f < |s.filps| && ip < |s.pipes| && ip < |s.accepted| && who < |s.sent|
  {
    s.(pipes := s.pipes[ip := s.pipes[ip] + chunk], filps := s.filps[f := s.filps[f].(pos := s.filps[f].pos + |chunk|)],
       accepted := s.accepted[ip := s.accepted[ip] + chunk], sent := s.sent[who := s.sent[who] + chunk])
  }

  lemma PutCore(s: Server, f: nat, ip: nat, who: nat, chunk: seq<byte>, pipeSize: nat)
    requires Core(s, pipeSize) && OpenOn(s, f, ip, Writer) && ip < |s.pipes| && who < |s.procs| && !s.procs[who].suspended
    requires |s.pipes[ip]| + |chunk| <= pipeSize && chunk != []
    ensures Core(Put(s, f, ip, who, chunk), pipeSize)
  {
    var t := Put(s, f, ip, who, chunk);
    assert Tables(t);
    assert Sleepers(t) by { forall p | ValidProc(t, p) ensures Waiting(t, p) { assert Waiting(s, p); } }
    assert Ends(t) by { assert forall g, i, x :: OpenOn(t, g, i, x) <==> OpenOn(s, g, i, x); }
    assert Fifo(t, pipeSize) by {
      forall g | 0 <= g < |t.filps| && t.filps[g].count > 0 ensures t.filps[g].ino < |t.pipes| && PosOk(t, g) {
        assert PosOk(s, g);
        assert OpenOn(s, g, s.filps[g].ino, s.filps[g].mode);
        if s.filps[g].ino == ip && s.filps[g].mode == Reader {
          assert (s.pipes[ip] + chunk)[s.filps[g].pos..] == s.pipes[ip][s.filps[g].pos..] + chunk;
        }
      }
      forall i | 0 <= i < |t.pipes| ensures |t.pipes[i]| <= pipeSize && t.delivered[i] <= t.accepted[i] {
        assert s.delivered[i] <= s.accepted[i];
      }
    }
  }

  lemma PutNoLost(s: Server, f: nat, ip: nat, who: nat, chunk: seq<byte>)
    requires NoLostWakeup(s) && f < |s.filps| && ip < |s.pipes| == |s.accepted| && who < |s.sent|
    requires forall p :: !SleepsOn(s, p, ip, Reader)
    ensures NoLostWakeup(Put(s, f, ip, who, chunk))
  {
    var t := Put(s, f, ip, who, chunk);
    forall g, i, x ensures OpenOn(t, g, i, x) <==> OpenOn(s, g, i, x) {}
    forall i, x ensures HasEnd(t, i, x) <==> HasEnd(s, i, x) {
      if HasEnd(s, i, x) { var g :| OpenOn(s, g, i, x); assert OpenOn(t, g, i, x); }
    }
    forall p, i, x ensures SleepsOn(t, p, i, x) <==> SleepsOn(s, p, i, x) {}
    hide SleepsOn, HasEnd, OpenOn;
    assert forall i :: 0 <= i < |s.pipes| && i != ip ==> t.pipes[i] == s.pipes[i];
  }

  /** `n` bytes go out of pipe `ip` through filp `f`; an emptied pipe starts over. */
  function Get(s: Server, f: nat, w: int, ip: nat, n: nat): Server
    requires f < |s.filps| && ip < |s.pipes| && ip < |s.delivered| && s.filps[f].pos + n <= |s.pipes[ip]|
  {
    var pos := s.filps[f].pos + n;
    var delivered := s.delivered[ip := s.delivered[ip] + s.pipes[ip][s.filps[f].pos..pos]];
    if pos < |s.pipes[ip]| then s.(filps := s.filps[f := s.filps[f].(pos := pos)], delivered := delivered)
    else
      var filps := s.filps[f := s.filps[f].(pos := 0)];
      s.(filps := if 0 <= w < |filps| then filps[w := filps[w].(pos := 0)] else filps,
         pipes := s.pipes[ip := []], delivered := delivered)
  }

  lemma GetCore(s: Server, f: nat, w: int, ip: nat, n: nat, pipeSize: nat)
    requires Core(s, pipeSize) && OpenOn(s, f, ip, Reader) && ip < |s.pipes| && 0 < n && s.filps[f].pos + n <= |s.pipes[ip]|
    requires if w == NIL then !HasEnd(s, ip, Writer) else OpenOn(s, w, ip, Writer)
    ensures Core(Get(s, f, w, ip, n), pipeSize)
  {
    GetFifo(s, f, w, ip, n, pipeSize);
    GetRest(s, f, w, ip, n);
  }

  lemma GetRest(s: Server, f: nat, w: int, ip: nat, n: nat)
    requires Tables(s) && Sleepers(s) && Ends(s) && Resumable(s) && f < |s.filps| && ip < |s.pipes| && s.filps[f].pos + n <= |s.pipes[ip]|
    ensures var t := Get(s, f, w, ip, n); Tables(t) && Sleepers(t) && Ends(t) && Resumable(t)
  {
    var t := Get(s, f, w, ip, n);
    assert t.procs == s.procs && |t.filps| == |s.filps| && |t.pipes| == |s.pipes| && t.whole == s.whole && t.sent == s.sent
      && t.carried == s.carried && t.reviving == s.reviving && t.suspCount == s.suspCount && t.interrupted == s.interrupted && |t.accepted| == |t.pipes| && |t.delivered| == |t.pipes|;
    assert forall g :: 0 <= g < |s.filps| ==> t.filps[g].(pos := 0) == s.filps[g].(pos := 0);
    hide Get;
    forall p | ValidProc(t, p) ensures Waiting(t, p) { assert Waiting(s, p); }
    assert forall g, i, x :: OpenOn(t, g, i, x) <==> OpenOn(s, g, i, x);
  }

  lemma GetFifo(s: Server, f: nat, w: int, ip: nat, n: nat, pipeSize: nat)
    requires Fifo(s, pipeSize) && Ends(s) && OpenOn(s, f, ip, Reader) && ip < |s.pipes| && 0 < n && s.filps[f].pos + n <= |s.pipes[ip]|
    requires if w == NIL then !HasEnd(s, ip, Writer) else OpenOn(s, w, ip, Writer)
    ensures Fifo(Get(s, f, w, ip, n), pipeSize)
  {
    var t := Get(s, f, w, ip, n);
    var pos, old_ := s.filps[f].pos + n, s.filps[f].pos;
    assert PosOk(s, f);
    assert s.pipes[ip][old_..] == s.pipes[ip][old_..pos] + s.pipes[ip][pos..];
    forall g | 0 <= g < |t.filps| && t.filps[g].count > 0 ensures t.filps[g].ino < |t.pipes| && PosOk(t, g) {
      assert PosOk(s, g);
      assert OpenOn(s, g, s.filps[g].ino, s.filps[g].mode);
    }
    forall i | 0 <= i < |t.pipes| ensures |t.pipes[i]| <= pipeSize && t.delivered[i] <= t.accepted[i] {
      assert s.delivered[i] <= s.accepted[i];
    }
  }

  lemma GetNoLost(s: Server, f: nat, w: int, ip: nat, n: nat)
    requires NoLostWakeup(s) && f < |s.filps| && ip < |s.pipes| == |s.delivered| && 0 < n && s.filps[f].pos + n <= |s.pipes[ip]|
    ensures NoLostWakeup(Get(s, f, w, ip, n))
  {
    var t := Get(s, f, w, ip, n);
    forall g, i, x ensures OpenOn(t, g, i, x) <==> OpenOn(s, g, i, x) {}
    forall i, x ensures HasEnd(t, i, x) <==> HasEnd(s, i, x) {
      if HasEnd(s, i, x) { var g :| OpenOn(s, g, i, x); assert OpenOn(t, g, i, x); }
    }
    forall p, i, x ensures SleepsOn(t, p, i, x) <==> SleepsOn(s, p, i, x) {}
    hide SleepsOn, HasEnd, OpenOn;
    assert forall i :: 0 <= i < |s.pipes| && s.pipes[i] == [] ==> t.pipes[i] == [];
  }

  // ---------- Going on with a suspended call ----------

  /** get_work picks process `p`. */
  function Resume(s: Server, p: nat): Server
    requires p < |s.procs|
  {
    s.(procs := s.procs[p := s.procs[p].(suspended := false, revived := false)], reviving := s.reviving - 1)
  }

  lemma ResumeCore(s: Server, p: nat, pipeSize: nat)
    requires Core(s, pipeSize) && p < |s.procs| && s.procs[p].revived
    ensures Core(Resume(s, p), pipeSize)
  {
    var t := Resume(s, p);
    AwakeCore(s, t, p, t.procs[p], pipeSize);
  }

  /** A process that does not sleep may change everything but its descriptors. */
  lemma AwakeCore(s: Server, t: Server, p: nat, q: Proc, pipeSize: nat)
    requires Core(s, pipeSize) && p < |s.procs| && q.fds == s.procs[p].fds && !q.suspended && !q.revived
    requires t == s.(procs := s.procs[p := q], reviving := t.reviving, suspCount := t.suspCount, interrupted := t.interrupted)
    requires t.reviving == s.reviving - (if s.procs[p].revived then 1 else 0)
    requires t.suspCount - t.interrupted == s.suspCount - s.interrupted - (if s.procs[p].suspended && !s.procs[p].revived then 1 else 0)
    ensures Core(t, pipeSize)
  {
    assert Tables(t) by {
      forall f | 0 <= f < |t.filps| ensures t.filps[f].count == Total(t.procs, RefTo(f)) { TotalUpdate(s.procs, p, q, RefTo(f)); }
    }
    assert Sleepers(t) by {
      TotalUpdate(s.procs, p, q, Revived);
      TotalUpdate(s.procs, p, q, Asleep);
      forall x | ValidProc(t, x) ensures Waiting(t, x) { assert Waiting(s, x); }
    }
    assert Ends(t) by { assert forall f, i, x :: OpenOn(t, f, i, x) <==> OpenOn(s, f, i, x); }
    assert Fifo(t, pipeSize) by { assert forall f | 0 <= f < |t.filps| && t.filps[f].count > 0 :: PosOk(s, f) && PosOk(t, f); }
  }

  lemma AwakeNoLost(s: Server, t: Server, p: nat, q: Proc)
    requires NoLostWakeup(s) && p < |s.procs| && !q.suspended
    requires t == s.(procs := s.procs[p := q], reviving := t.reviving, suspCount := t.suspCount, interrupted := t.interrupted)
    ensures NoLostWakeup(t)
  {
    forall f, i, x ensures OpenOn(t, f, i, x) <==> OpenOn(s, f, i, x) {}
    forall i, x ensures HasEnd(t, i, x) <==> HasEnd(s, i, x) {
      if HasEnd(s, i, x) { var g :| OpenOn(s, g, i, x); assert OpenOn(t, g, i, x); }
    }
    forall y, i, x ensures SleepsOn(t, y, i, x) ==> SleepsOn(s, y, i, x) {}
    hide SleepsOn, HasEnd, OpenOn;
  }
}
