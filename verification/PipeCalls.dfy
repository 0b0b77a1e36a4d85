/** What one read or write call on a pipe does to the server. */
module PipeCalls {
  import opened Storage
  import opened Pipes
  import opened PipeTables

  /** How much suspended callers still have to do. */
  function Work(s: Server): nat {
    Total(s.procs, Suspended) + Total(s.procs, Bytes)
  }

  lemma InvParts(s: Server, pipeSize: nat)
    requires Inv(s, pipeSize)
    ensures Core(s, pipeSize) && NoLostWakeup(s)
  {
  }

  lemma CoreInv(s: Server, pipeSize: nat)
    requires Core(s, pipeSize) && NoLostWakeup(s)
    ensures Inv(s, pipeSize)
  {
  }

  // ---------- What can be said of a process that makes a call ----------

  /** Process `who`, not suspended, has filp `f` open as `fd` on end `e` of pipe `ip`. */
  ghost predicate Calling(s: Server, who: nat, fd: nat, f: int, ip: nat, e: End, data: seq<byte>, nbytes: nat) {
    && who < |s.procs| && !s.procs[who].suspended && !s.procs[who].revived && fd < |s.procs[who].fds| && s.procs[who].fds[fd] == f
    && OpenOn(s, f, ip, e) && ip < |s.pipes| && nbytes > 0
    && |s.whole| == |s.procs| && |s.sent| == |s.procs| && |s.accepted| == |s.pipes| && |s.delivered| == |s.pipes|
    && (e == Writer ==> |data| == nbytes && s.whole[who] == s.sent[who] + data) && (e == Reader ==> data == [])
  }

  lemma CallingPos(s: Server, who: nat, fd: nat, f: int, ip: nat, e: End, data: seq<byte>, nbytes: nat, pipeSize: nat)
    requires Inv(s, pipeSize) && Calling(s, who, fd, f, ip, e, data, nbytes)
    ensures |s.pipes[ip]| <= pipeSize
    ensures e == Writer ==> s.filps[f].pos == |s.pipes[ip]|
    ensures e == Reader ==> s.filps[f].pos <= |s.pipes[ip]| && (s.filps[f].pos == |s.pipes[ip]| ==> s.pipes[ip] == [])
  {
    assert PosOk(s, f);
  }

  lemma CallingMay(s: Server, who: nat, fd: nat, f: int, ip: nat, e: End, data: seq<byte>, nbytes: nat)
    requires Calling(s, who, fd, f, ip, e, data, nbytes)
    ensures Tallied(s, who, e) ==> MaySuspend(s, who, e, fd, data, nbytes)
    ensures OpenOn(s, s.procs[who].fds[fd], ip, e)
  {
  }

  /** A call that ends before any byte is moved: nothing but sleeping and waking happens. */
  ghost predicate SameData(s: Server, t: Server) {
    && t.pipes == s.pipes && t.filps == s.filps && t.accepted == s.accepted && t.delivered == s.delivered && t.whole == s.whole
    && t.sent == s.sent && t.carried == s.carried && t.interrupted == s.interrupted && |t.procs| == |s.procs|
  }

  /** Other processes keep their saved calls. */
  ghost predicate SameCalls(s: Server, t: Server, who: nat) {
    && |t.procs| == |s.procs|
    && forall p :: 0 <= p < |s.procs| && p != who ==> t.procs[p].(revived := false) == s.procs[p].(revived := false)
  }

  /** The descriptors of the caller are as before; if it sleeps, it is in this call. */
  ghost predicate SameOwn(q: Proc, r: Proc, fd: nat, call: End) {
    r.fds == q.fds && (r.suspended ==> r.fd == fd && r.call == call)
  }

  /** Only file positions have changed. */
  ghost predicate SameFlags(a: seq<Filp>, b: seq<Filp>) {
    |a| == |b| && forall f :: 0 <= f < |a| ==> b[f].(pos := 0) == a[f].(pos := 0)
  }

  /** What a call of `who` leaves alone. */
  ghost predicate Frame(s: Server, t: Server, who: nat, fd: nat, call: End) {
    && who < |s.procs| && SameCalls(s, t, who) && SameOwn(s.procs[who], t.procs[who], fd, call) && SameFlags(s.filps, t.filps)
    && t.whole == s.whole && t.carried == s.carried && |t.sent| == |s.sent| == |s.procs| && forall p :: 0 <= p < |s.procs| && p != who ==> t.sent[p] == s.sent[p]
  }

  lemma WokenSame(s: Server, t: Server, ip: int, e: End, who: nat)
    requires Woken(s, t, ip, e) && who < |s.procs| && !s.procs[who].suspended
    ensures SameData(s, t) && SameCalls(s, t, who) && Work(t) == Work(s) && t.procs[who] == s.procs[who]
    ensures e == Writer ==> Total(t.procs, WakingReader) == Total(s.procs, WakingReader)
  {
    WokenTotals(s, t, ip, e, |s.procs|, Suspended);
    WokenTotals(s, t, ip, e, |s.procs|, Bytes);
    if e == Writer { TotalSame(s.procs, t.procs, WakingReader); }
  }

  lemma SuspendSame(s: Server, who: nat, call: End, fd: nat, data: seq<byte>, nbytes: nat)
    requires who < |s.procs| && !s.procs[who].suspended && !s.procs[who].revived
    ensures var t := Suspend(s, who, call, fd, data, nbytes);
      && SameData(s, t) && SameCalls(s, t, who) && Work(t) == Work(s) + 1 + |data|
      && Total(t.procs, WakingReader) == Total(s.procs, WakingReader) && Total(t.procs, WakingWriter) == Total(s.procs, WakingWriter)
      && t.procs[who].suspended && t.procs[who].data == data && t.procs[who].call == call && t.procs[who].fd == fd && t.procs[who].nbytes == nbytes
      && t.procs[who].partial == s.procs[who].partial && !t.procs[who].revived && t.procs[who].fds == s.procs[who].fds
  {
    var q := s.procs[who].(suspended := true, call := call, fd := fd, data := data, nbytes := nbytes);
    TotalUpdate(s.procs, who, q, Suspended);
    TotalUpdate(s.procs, who, q, Bytes);
    TotalUpdate(s.procs, who, q, WakingReader);
    TotalUpdate(s.procs, who, q, WakingWriter);
  }

  // ---------- Waking the other end, and calling on ----------

  lemma WokenInv(s: Server, t: Server, ip: int, e: End, pipeSize: nat)
    requires Inv(s, pipeSize) && Woken(s, t, ip, e)
    ensures Inv(t, pipeSize) && forall p :: !SleepsOn(t, p, ip, e)
  {
    WokenCore(s, t, ip, e, pipeSize);
    WokenNoLost(s, t, ip, e);
  }

  lemma WokenCalling(s: Server, t: Server, i: int, x: End, who: nat, fd: nat, f: int, ip: nat, e: End, data: seq<byte>, nbytes: nat)
    requires Woken(s, t, i, x) && Calling(s, who, fd, f, ip, e, data, nbytes)
    ensures Calling(t, who, fd, f, ip, e, data, nbytes)
  {
  }

  /** A reader of an empty pipe with a writer goes to sleep, then the writers are woken. */
  lemma ReaderSleeps(s: Server, u: Server, who: nat, fd: nat, f: int, ip: nat, nbytes: nat, pipeSize: nat)
    requires Inv(s, pipeSize) && Calling(s, who, fd, f, ip, Reader, [], nbytes) && s.pipes[ip] == [] && HasEnd(s, ip, Writer) && Tallied(s, who, Reader)
    requires Woken(Suspend(s, who, Reader, fd, [], nbytes), u, ip, Writer)
    ensures Inv(u, pipeSize) && SameData(s, u) && SameCalls(s, u, who) && Work(u) == Work(s) + 1 && u.procs[who].suspended
    ensures Total(u.procs, WakingReader) == Total(s.procs, WakingReader)
  {
    hide Woken, Core, NoLostWakeup, Suspend, SleepsOn, HasEnd, Total, MaySuspend;
    InvParts(s, pipeSize);
    CallingMay(s, who, fd, f, ip, Reader, [], nbytes);
    SuspendCore(s, who, Reader, fd, [], nbytes, pipeSize);
    var t := Suspend(s, who, Reader, fd, [], nbytes);
    WokenCore(t, u, ip, Writer, pipeSize);
    SleepAndWake(s, u, who, fd, nbytes, ip);
    CoreInv(u, pipeSize);
    SuspendSame(s, who, Reader, fd, [], nbytes);
    SleeperKept(t, u, ip, Writer, who);
  }

  lemma SleeperKept(s: Server, t: Server, ip: int, e: End, who: nat)
    requires Woken(s, t, ip, e) && who < |s.procs| && e == Writer && s.procs[who].suspended && s.procs[who].call == Reader
    ensures SameData(s, t) && SameCalls(s, t, who) && Work(t) == Work(s) && t.procs[who] == s.procs[who]
    ensures Total(t.procs, WakingReader) == Total(s.procs, WakingReader)
  {
    WokenTotals(s, t, ip, e, |s.procs|, Suspended);
    WokenTotals(s, t, ip, e, |s.procs|, Bytes);
    TotalSame(s.procs, t.procs, WakingReader);
  }

  /** A writer sleeps while somebody can read and no reader sleeps. */
  lemma WriterSleeps(s: Server, who: nat, fd: nat, f: int, ip: nat, data: seq<byte>, nbytes: nat, pipeSize: nat)
    requires Inv(s, pipeSize) && Calling(s, who, fd, f, ip, Writer, data, nbytes) && HasEnd(s, ip, Reader)
    requires (forall p :: !SleepsOn(s, p, ip, Reader)) && Tallied(s, who, Writer)
    ensures Inv(Suspend(s, who, Writer, fd, data, nbytes), pipeSize)
  {
    hide Core, NoLostWakeup, Suspend, SleepsOn, HasEnd, Total, MaySuspend;
    InvParts(s, pipeSize);
    CallingMay(s, who, fd, f, ip, Writer, data, nbytes);
    SuspendCore(s, who, Writer, fd, data, nbytes, pipeSize);
    SuspendNoLost(s, who, Writer, fd, data, nbytes, ip);
    CoreInv(Suspend(s, who, Writer, fd, data, nbytes), pipeSize);
  }

  /** Nobody sleeps reading a pipe with bytes in it. */
  lemma NonEmptyNoReader(s: Server, ip: nat)
    requires NoLostWakeup(s) && ip < |s.pipes| && s.pipes[ip] != []
    ensures forall p :: !SleepsOn(s, p, ip, Reader)
  {
  }

  // ---------- After the bytes are moved ----------

  function SetPartial(s: Server, who: nat, n: nat): Server
    requires who < |s.procs|
  {
    s.(procs := s.procs[who := s.procs[who].(partial := n)])
  }

  lemma PartialInv(s: Server, who: nat, n: nat, pipeSize: nat)
    requires Inv(s, pipeSize) && who < |s.procs| && !s.procs[who].suspended && !s.procs[who].revived
    ensures Inv(SetPartial(s, who, n), pipeSize) && Work(SetPartial(s, who, n)) == Work(s) && SameCalls(s, SetPartial(s, who, n), who)
  {
    var t := SetPartial(s, who, n);
    var q := t.procs[who];
    AwakeCore(s, t, who, q, pipeSize);
    AwakeNoLost(s, t, who, q);
    TotalUpdate(s.procs, who, q, Suspended);
    TotalUpdate(s.procs, who, q, Bytes);
  }

  lemma PutInv(s: Server, who: nat, fd: nat, f: int, ip: nat, data: seq<byte>, nbytes: nat, n: nat, pipeSize: nat)
    requires Inv(s, pipeSize) && Calling(s, who, fd, f, ip, Writer, data, nbytes)
    requires 0 < n <= |data| && |s.pipes[ip]| + n <= pipeSize && forall p :: !SleepsOn(s, p, ip, Reader)
    ensures var t := Put(s, f, ip, who, data[..n]);
      && Inv(t, pipeSize) && t.procs == s.procs && t.whole == s.whole && |t.sent| == |s.sent| && t.sent[who] == s.sent[who] + data[..n] && t.carried == s.carried
      && t.whole[who] == t.sent[who] + data[n..]
      && (n < |data| ==> Calling(t, who, fd, f, ip, Writer, data[n..], nbytes - n))
      && (forall p :: !SleepsOn(t, p, ip, Reader)) && (HasEnd(s, ip, Reader) ==> HasEnd(t, ip, Reader))
  {
    hide Core, NoLostWakeup;
    InvParts(s, pipeSize);
    PutCore(s, f, ip, who, data[..n], pipeSize);
    PutNoLost(s, f, ip, who, data[..n]);
    var t := Put(s, f, ip, who, data[..n]);
    CoreInv(t, pipeSize);
    assert s.sent[who] + data == s.sent[who] + data[..n] + data[n..];
    if HasEnd(s, ip, Reader) { var g :| OpenOn(s, g, ip, Reader); assert OpenOn(t, g, ip, Reader); }
    forall p ensures !SleepsOn(t, p, ip, Reader) { assert SleepsOn(t, p, ip, Reader) <==> SleepsOn(s, p, ip, Reader); }
  }

  lemma GetInv(s: Server, who: nat, fd: nat, f: int, w: int, ip: nat, nbytes: nat, n: nat, pipeSize: nat)
    requires Inv(s, pipeSize) && Calling(s, who, fd, f, ip, Reader, [], nbytes)
    requires 0 < n && s.filps[f].pos + n <= |s.pipes[ip]|
    requires if w == NIL then !HasEnd(s, ip, Writer) else OpenOn(s, w, ip, Writer)
    ensures Inv(Get(s, f, w, ip, n), pipeSize) && Get(s, f, w, ip, n).procs == s.procs
  {
    hide Core, NoLostWakeup;
    InvParts(s, pipeSize);
    GetCore(s, f, w, ip, n, pipeSize);
    GetNoLost(s, f, w, ip, n);
    CoreInv(Get(s, f, w, ip, n), pipeSize);
  }

  // ---------- The effect of a call ----------

  /** A write call put the first `k` bytes of `data` into the pipe and nothing else anywhere; if
      the caller is suspended, the rest is what it has saved. */
  ghost predicate WroteSome(s: Server, t: Server, who: nat, ip: nat, data: seq<byte>, k: nat) {
    && k <= |data| && ip < |s.accepted| == |s.delivered| == |s.pipes| && who < |s.sent| == |s.procs|
    && t.accepted == s.accepted[ip := s.accepted[ip] + data[..k]] && t.delivered == s.delivered
    && t.pipes == s.pipes[ip := s.pipes[ip] + data[..k]]
    && t.sent == s.sent[who := s.sent[who] + data[..k]] && t.whole == s.whole && t.carried == s.carried
    && SameCalls(s, t, who) && (t.procs[who].suspended ==> t.procs[who].data == data[k..])
  }

  /** A read call took the next bytes out of the pipe and nothing else. */
  ghost predicate ReadSome(s: Server, t: Server, who: nat, ip: nat, bytes: seq<byte>) {
    && ip < |s.delivered| == |s.accepted| == |s.pipes| && t.accepted == s.accepted && t.delivered == s.delivered[ip := s.delivered[ip] + bytes]
    && |t.pipes| == |s.pipes| && (forall i :: 0 <= i < |s.pipes| && i != ip ==> t.pipes[i] == s.pipes[i])
    && t.sent == s.sent && t.whole == s.whole && t.carried == s.carried && SameCalls(s, t, who)
  }

  lemma WroteNone(s: Server, t: Server, who: nat, ip: nat, data: seq<byte>)
    requires SameData(s, t) && SameCalls(s, t, who) && ip < |s.accepted| == |s.delivered| == |s.pipes| && who < |s.sent| == |s.procs|
    requires t.procs[who].suspended ==> t.procs[who].data == data
    ensures WroteSome(s, t, who, ip, data, 0)
  {
    assert data[..0] == [] && data[0..] == data;
    assert s.accepted[ip] + [] == s.accepted[ip] && s.pipes[ip] + [] == s.pipes[ip] && s.sent[who] + [] == s.sent[who];
  }

  lemma ReadNone(s: Server, t: Server, who: nat, ip: nat)
    requires SameData(s, t) && SameCalls(s, t, who) && ip < |s.accepted| == |s.delivered| == |s.pipes|
    ensures ReadSome(s, t, who, ip, [])
  {
    assert s.delivered[ip] + [] == s.delivered[ip];
  }
}
