/** What the counts of pipe calls are worth, and two runs that end otherwise than one might expect. */
module PipeExamples {
  import opened Storage
  import opened Pipes
  import opened PipeTables
  import opened PipeCalls
  import opened PipeServer
  import opened PipeRuns

  /** A call that is answered at once is told the number of bytes it moved if and only if
      fp_cum_io_partial was 0 when its message came. */
  lemma FreshCountRight(s: Server, t: Server, pipeSize: nat, maxSize: nat, m: Message, reply: Reply)
    requires Served(s, t, pipeSize, maxSize, m, reply)
    ensures m.WriteMsg? && m.data != [] && reply.Count? ==>
      m.who < |s.procs| && m.who < |t.sent| && (reply.n == |t.sent[m.who]| <==> s.procs[m.who].partial == 0)
    ensures m.ReadMsg? && m.nbytes > 0 && reply.Got? && reply.bytes != [] ==>
      m.who < |s.procs| && (reply.n == |reply.bytes| <==> s.procs[m.who].partial == 0)
  {
    hide CallResult;
    if m.WriteMsg? && m.data != [] {
      var k :| CallResult(Begun(s, m.who, m.data), t, pipeSize, maxSize, m.who, m.fd, Writer, m.data, |m.data|, reply, k);
      CountTold(Begun(s, m.who, m.data), t, pipeSize, maxSize, m.who, m.fd, Writer, m.data, |m.data|, reply, k);
    } else if m.ReadMsg? && m.nbytes > 0 {
      var k :| CallResult(Begun(s, m.who, []), t, pipeSize, maxSize, m.who, m.fd, Reader, [], m.nbytes, reply, k);
      CountTold(Begun(s, m.who, []), t, pipeSize, maxSize, m.who, m.fd, Reader, [], m.nbytes, reply, k);
    }
  }

  /** A call that was suspended and is answered in the revival loop is told the number of bytes it
      moved in all if and only if fp_cum_io_partial was 0 when its message came. */
  lemma RevivedCountRight(s: Server, t: Server, replies: seq<(nat, Reply)>, j: nat)
    requires Answered(s, t, replies) && j < |replies|
    ensures var p, reply := replies[j].0, replies[j].1;
      && p < |t.carried| && p < |t.sent| && t.carried == s.carried
      && (reply.Count? ==> (reply.n == |t.sent[p]| <==> s.carried[p] == 0))
      && (reply.Got? && reply.bytes != [] ==> (reply.n == |reply.bytes| <==> s.carried[p] == 0))
  {
    assert AnswerOk(s, t, replies[j].0, replies[j].1);
  }

  // ---------- One process with both ends of one pipe ----------

  /** The only process has both ends of the only pipe. */
  ghost predicate OnePipe(s: Server, d0: nat, d1: nat, nonblock: bool, bytes: seq<byte>, partial: nat, suspended: bool) {
    && |s.procs| == 1 && s.procs[0].suspended == suspended && s.procs[0].partial == partial && s.reviving == 0
    && d0 < |s.procs[0].fds| && d1 < |s.procs[0].fds| && s.pipes == [bytes]
    && OpenOn(s, s.procs[0].fds[d0], 0, Reader) && OpenOn(s, s.procs[0].fds[d1], 0, Writer)
    && s.filps[s.procs[0].fds[d1]].nonblock == nonblock
  }

  lemma Alone(s: Server, pipeSize: nat)
    requires Inv(s, pipeSize) && |s.procs| == 1 && (s.procs[0].suspended ==> !s.procs[0].revived)
    ensures s.reviving == 0
  {
    assert Waiting(s, 0);
    if s.reviving > 0 { TotalSome(s.procs, Revived); }
  }

  lemma WriterPos(s: Server, pipeSize: nat, f: int)
    requires Inv(s, pipeSize) && OpenOn(s, f, 0, Writer)
    ensures |s.pipes| > 0 && s.filps[f].pos == |s.pipes[0]|
  {
    assert PosOk(s, f);
  }

  lemma SameFlag(a: seq<Filp>, b: seq<Filp>, f: int)
    requires SameFlags(a, b) && 0 <= f < |a|
    ensures 0 <= f < |b| && b[f].count == a[f].count && b[f].mode == a[f].mode && b[f].ino == a[f].ino && b[f].nonblock == a[f].nonblock
  {
    assert b[f].(pos := 0) == a[f].(pos := 0);
  }

  /** What a write does there. */
  lemma WriteStep(s: Server, t: Server, pipeSize: nat, maxSize: nat, d0: nat, d1: nat, nonblock: bool, bytes: seq<byte>, partial: nat,
                  data: seq<byte>, reply: Reply) returns (k: nat)
    requires OnePipe(s, d0, d1, nonblock, bytes, partial, false) && Inv(s, pipeSize) && Inv(t, pipeSize)
    requires data != [] && |bytes| + |data| <= maxSize && Served(s, t, pipeSize, maxSize, WriteMsg(0, d1, data), reply)
    ensures |bytes| <= pipeSize && WriteOutcome(nonblock, pipeSize - |bytes|, |data|, pipeSize, reply, k) && k <= |data|
    ensures !reply.Error? ==>
      OnePipe(t, d0, d1, nonblock, bytes + data[..k], if reply == Suspend_ then partial + k else 0, reply == Suspend_)
  {
    var f := s.procs[0].fds[d1];
    var b := Begun(s, 0, data);
    WriterPos(s, pipeSize, f);
    SameFlag(s.filps, t.filps, f);
    SameFlag(s.filps, t.filps, s.procs[0].fds[d0]);
    assert OpenOn(b, s.procs[0].fds[d0], 0, Reader);
    k :| CallResult(b, t, pipeSize, maxSize, 0, d1, Writer, data, |data|, reply, k);
    assert WriteResult(b, t, pipeSize, 0, f, 0, data, reply, k);
    Alone(t, pipeSize);
  }

  method FreshPipe(pipeSize: nat, maxSize: nat) returns (fs: FileServer, d0: nat, d1: nat)
    requires pipeSize > 0
    ensures fresh(fs) && fs.Valid() && fs.pipeSize == pipeSize && fs.maxSize == maxSize
    ensures OnePipe(fs.Model(), d0, d1, false, [], 0, false)
  {
    hide Inv;
    fs := new FileServer(1, 2, 2, pipeSize, maxSize);
    ghost var s := fs.Model();
    assert s.procs[0].fds[0] == NIL && s.procs[0].fds[1] == NIL && s.filps[0].count == 0 && s.filps[1].count == 0;
    var r, f0, f1;
    r, d0, d1, f0, f1 := DoPipe(fs, 0, true);
  }

  /** With O_NONBLOCK a writer can be suspended all the same: by a write of just as many bytes as a
      pipe holds, into a pipe with a byte in it. */
  method NonblockingSuspends(pipeSize: nat, maxSize: nat, one: byte, data: seq<byte>) returns (reply: Reply)
    requires 0 < pipeSize == |data| && 1 + |data| <= maxSize
    ensures reply == Suspend_
  {
    hide Inv, Served, CallResult, WriteResult;
    var fs, d0, d1 := FreshPipe(pipeSize, maxSize);
    ghost var s := fs.Model();
    var _ := Handle(fs, FlagMsg(0, d1, true));
    ghost var t := fs.Model();
    FlagStep(s, t, pipeSize, maxSize, d0, d1);
    var first := Handle(fs, WriteMsg(0, d1, [one]));
    ghost var u := fs.Model();
    ghost var k := WriteStep(t, u, pipeSize, maxSize, d0, d1, true, [], 0, [one], first);
    reply := Handle(fs, WriteMsg(0, d1, data));
    k := WriteStep(u, fs.Model(), pipeSize, maxSize, d0, d1, true, [] + [one][..k], 0, data, reply);
  }

  lemma FlagStep(s: Server, t: Server, pipeSize: nat, maxSize: nat, d0: nat, d1: nat)
    requires OnePipe(s, d0, d1, false, [], 0, false)
    requires exists reply :: Served(s, t, pipeSize, maxSize, FlagMsg(0, d1, true), reply)
    ensures OnePipe(t, d0, d1, true, [], 0, false)
  {
    var reply :| Served(s, t, pipeSize, maxSize, FlagMsg(0, d1, true), reply);
  }

  /** A signal ends a write call that has moved as much as the pipe holds; the next call, a read of
      one byte, is told that it has read that much more. */
  method StaleCount(pipeSize: nat, maxSize: nat, data: seq<byte>) returns (reply: Reply)
    requires 0 < pipeSize && |data| == pipeSize + 1 <= maxSize
    ensures reply.Got? && |reply.bytes| == 1 && reply.n == pipeSize + 1
  {
    hide Inv, Served, CallResult, WriteResult, ReadResult;
    var fs, d0, d1 := FreshPipe(pipeSize, maxSize);
    ghost var s := fs.Model();
    var first := Handle(fs, WriteMsg(0, d1, data));
    ghost var t := fs.Model();
    ghost var k := WriteStep(s, t, pipeSize, maxSize, d0, d1, false, [], 0, data, first);
    var _ := Handle(fs, UnpauseMsg(0));
    ghost var u := fs.Model();
    UnpauseStep(t, u, pipeSize, maxSize, d0, d1, [] + data[..k], k);
    reply := Handle(fs, ReadMsg(0, d0, 1));
    ReadStep(u, fs.Model(), pipeSize, maxSize, d0, d1, [] + data[..k], k, reply);
  }

  lemma UnpauseStep(s: Server, t: Server, pipeSize: nat, maxSize: nat, d0: nat, d1: nat, bytes: seq<byte>, partial: nat)
    requires OnePipe(s, d0, d1, false, bytes, partial, true)
    requires exists reply :: Served(s, t, pipeSize, maxSize, UnpauseMsg(0), reply)
    ensures OnePipe(t, d0, d1, false, bytes, partial, false)
  {
    var reply :| Served(s, t, pipeSize, maxSize, UnpauseMsg(0), reply);
  }

  lemma ReadStep(s: Server, t: Server, pipeSize: nat, maxSize: nat, d0: nat, d1: nat, bytes: seq<byte>, partial: nat, reply: Reply)
    requires OnePipe(s, d0, d1, false, bytes, partial, false) && bytes != [] && Served(s, t, pipeSize, maxSize, ReadMsg(0, d0, 1), reply)
    ensures reply.Got? && |reply.bytes| == 1 && reply.n == partial + 1
  {
    var b := Begun(s, 0, []);
    var k :| CallResult(b, t, pipeSize, maxSize, 0, d0, Reader, [], 1, reply, k);
    assert ReadResult(b, t, 0, s.procs[0].fds[d0], 0, 1, reply);
  }
}
