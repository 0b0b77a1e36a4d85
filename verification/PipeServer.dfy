/** Pipe requests in place: one message at a time, with suspended callers revived later. */
module PipeServer {
  import opened Storage
  import opened Pipes
  import opened PipeTables
  import opened PipeCalls

  datatype Failure = EBADF | EFBIG | EPIPE | EAGAIN | EMFILE | ENFILE | EINVAL
  datatype Reply = Suspend_ | Count(n: nat) | Got(n: nat, bytes: seq<byte>) | Error(code: Failure)
  datatype Check = GoOn(canWrite: nat) | Stop(reply: Reply)

  /** A server on which nothing is open. */
  ghost function Closed(procNr: nat, openMax: nat, filpNr: nat): Server {
    Server(seq(procNr, _ => Proc(seq(openMax, _ => NIL), false, false, Reader, 0, [], 0, 0)), seq(filpNr, _ => Filp(0, Reader, false, 0, 0)),
           [], 0, 0, [], [], seq(procNr, _ => []), seq(procNr, _ => []), seq(procNr, _ => 0), 0)
  }

  class FileServer {
    const pipeSize: nat
    const maxSize: nat
    var procs: seq<Proc>
    var filps: seq<Filp>
    var pipes: seq<seq<byte>>
    var suspCount: int
    var reviving: int
    ghost var accepted: seq<seq<byte>>
    ghost var delivered: seq<seq<byte>>
    ghost var whole: seq<seq<byte>>
    ghost var sent: seq<seq<byte>>
    ghost var carried: seq<nat>
    ghost var interrupted: nat

    ghost function Model(): Server
      reads this
    {
      Server(procs, filps, pipes, suspCount, reviving, accepted, delivered, whole, sent, carried, interrupted)
    }

    ghost predicate Valid()
      reads this
    {
      pipeSize > 0 && Inv(Model(), pipeSize)
    }

    /** A server on which nothing is open. */
    constructor (procNr: nat, openMax: nat, filpNr: nat, pipeSize: nat, maxSize: nat)
      requires pipeSize > 0
      ensures Valid() && this.pipeSize == pipeSize && this.maxSize == maxSize
      ensures Model() == Closed(procNr, openMax, filpNr)
    {
      this.pipeSize, this.maxSize := pipeSize, maxSize;
      procs := seq(procNr, _ => Proc(seq(openMax, _ => NIL), false, false, Reader, 0, [], 0, 0));
      filps := seq(filpNr, _ => Filp(0, Reader, false, 0, 0));
      pipes, suspCount, reviving := [], 0, 0;
      accepted, delivered := [], [];
      whole, sent := seq(procNr, _ => []), seq(procNr, _ => []);
      carried, interrupted := seq(procNr, _ => 0), 0;
      new;
      assert Model() == Closed(procNr, openMax, filpNr);
      NothingOpen(Model(), pipeSize);
    }

    /** find_filp: is somebody still interested in an end of a pipe? */
    method FindFilp(ip: nat, e: End) returns (f: int)
      ensures if f == NIL then !HasEnd(Model(), ip, e) else OpenOn(Model(), f, ip, e)
    {
      f := 0;
      while f < |filps|
        invariant 0 <= f <= |filps| && forall g :: 0 <= g < f ==> !OpenOn(Model(), g, ip, e)
      {
        if filps[f].count != 0 && filps[f].ino == ip && filps[f].mode == e { return; }
        f := f + 1;
      }
      f := NIL;
    }

    /** revive, for a process suspended on a pipe. */
    method Revive(p: nat)
      requires p < |procs|
      modifies this`procs, this`reviving
      ensures
        if !old(procs)[p].suspended || old(procs)[p].revived then procs == old(procs) && reviving == old(reviving)
        else procs == old(procs)[p := old(procs)[p].(revived := true)] && reviving == old(reviving) + 1
    {
      if !procs[p].suspended || procs[p].revived { return; }
      procs := procs[p := procs[p].(revived := true)];
      reviving := reviving + 1;
    }

    /** release: wake the processes that are hanging on an end of a pipe, at most `count0` of them. */
    method Release(ip: nat, e: End, count0: int)
      requires Core(Model(), pipeSize) && count0 >= Total(procs, Asleep)
      modifies this`procs, this`reviving, this`suspCount
      ensures Woken(old(Model()), Model(), ip, e)
    {
      hide Core, Waiting, Tables, Sleepers, Ends, Fifo, Resumable, Total, WokenUpTo;
      ghost var s := Model();
      var count := count0;
      var rp := 0;
      WokenNone(s, ip, e);
      while rp < |procs|
        invariant 0 <= rp <= |procs| && |procs| == |s.procs| && WokenUpTo(s, Model(), ip, e, rp) && count >= Total(procs, Asleep)
        decreases |s.procs| - rp
      {
        ghost var t := Model();
        Untouched(s, t, ip, e, rp, pipeSize);
        if procs[rp].suspended && !procs[rp].revived && procs[rp].call == e && filps[procs[rp].fds[procs[rp].fd]].ino == ip {
          WokenOne(s, t, ip, e, rp);
          Revive(rp);
          suspCount := suspCount - 1;
          count := count - 1;
          if count == 0 {
            NobodyLeft(s, Model(), ip, e, rp + 1);
            return;
          }
        } else {
          WokenSkip(s, t, ip, e, rp);
        }
        rp := rp + 1;
      }
    }

    /** suspend, for a pipe. */
    method SuspendCall(who: nat, call: End, fd: nat, data: seq<byte>, nbytes: nat)
      requires who < |procs|
      modifies this`procs, this`suspCount
      ensures Model() == Suspend(old(Model()), who, call, fd, data, nbytes)
    {
      suspCount := suspCount + 1;
      procs := procs[who := procs[who].(suspended := true, call := call, fd := fd, data := data, nbytes := nbytes)];
    }

    /** pipe_check for a reader. */
    method CheckRead(who: nat, fd: nat, f: int, ip: nat, nbytes: nat, nonblock: bool, position: nat) returns (stop: bool, reply: Reply)
      requires Valid() && Calling(Model(), who, fd, f, ip, Reader, [], nbytes) && position == filps[f].pos && Tallied(Model(), who, Reader)
      modifies this`procs, this`reviving, this`suspCount
      ensures Valid() && SameData(old(Model()), Model()) && SameCalls(old(Model()), Model(), who)
      ensures if stop then pipes[ip] == [] else Model() == old(Model()) && position < |pipes[ip]|
      ensures stop ==> reply in {Suspend_, Got(0, []), Error(EAGAIN)}
      ensures stop && reply == Suspend_ ==> procs[who].suspended && !procs[who].revived && HasEnd(old(Model()), ip, Writer) && !nonblock
      ensures stop && reply == Suspend_ ==> Work(Model()) == Work(old(Model())) + 1 && Total(procs, WakingReader) == Total(old(procs), WakingReader)
      ensures stop && reply != Suspend_ ==> procs[who] == old(procs)[who] && Work(Model()) == Work(old(Model()))
      ensures stop ==> (reply == Got(0, []) <==> !HasEnd(old(Model()), ip, Writer))
      ensures stop && HasEnd(old(Model()), ip, Writer) ==> reply == if nonblock then Error(EAGAIN) else Suspend_
      ensures procs[who].partial == old(procs)[who].partial
      ensures SameOwn(old(procs)[who], procs[who], fd, Reader)
    {
      hide Inv, Core, HasEnd, Woken, Suspend, Total;
      ghost var s := Model();
      CallingPos(s, who, fd, f, ip, Reader, [], nbytes, pipeSize);
      SameDataRefl(s, who);
      reply := Got(0, []);
      if position < |pipes[ip]| { return false, reply; }
      stop := true;
      var w := FindFilp(ip, Writer);
      EndFound(s, w, ip, Writer);
      if w != NIL {
        if nonblock {
          reply := Error(EAGAIN);
        } else {
          SuspendCall(who, Reader, fd, [], nbytes);
          reply := Suspend_;
        }
        ghost var t := Model();
        SleepersCount(s, t, who, fd, f, ip, nbytes, pipeSize);
        if suspCount > 0 {
          Release(ip, Writer, suspCount);
        } else {
          NothingToWake(t, ip, Writer, pipeSize);
        }
        if nonblock {
          WokenInv(s, Model(), ip, Writer, pipeSize);
          WokenSame(s, Model(), ip, Writer, who);
        } else {
          ReaderSleeps(s, Model(), who, fd, f, ip, nbytes, pipeSize);
          SleepsStill(t, Model(), ip, Writer, who, fd, nbytes, s);
        }
      }
    }

    /** pipe_check for a writer. */
    method CheckWrite(who: nat, fd: nat, f: int, ip: nat, data: seq<byte>, nbytes: nat, nonblock: bool, position: nat) returns (c: Check)
      requires Valid() && Calling(Model(), who, fd, f, ip, Writer, data, nbytes) && position == filps[f].pos && Tallied(Model(), who, Writer)
      modifies this`procs, this`reviving, this`suspCount
      ensures Valid() && SameData(old(Model()), Model()) && SameCalls(old(Model()), Model(), who)
      ensures c.Stop? ==> c.reply in {Suspend_, Error(EPIPE), Error(EAGAIN)} && (c.reply == Error(EPIPE) <==> !HasEnd(old(Model()), ip, Reader))
      ensures c.Stop? && c.reply == Suspend_ ==>
        && procs[who].suspended && !procs[who].revived && procs[who].data == data && |pipes[ip]| + nbytes > pipeSize
        && procs[who].partial == old(procs)[who].partial && Work(Model()) == Work(old(Model())) + 1 + |data|
        && Total(procs, WakingReader) == Total(old(procs), WakingReader) && Total(procs, WakingWriter) == Total(old(procs), WakingWriter)
      ensures c.Stop? && c.reply != Suspend_ ==> Model() == old(Model())
      ensures HasEnd(old(Model()), ip, Reader) ==>
        && (c == Stop(Suspend_) <==> |pipes[ip]| + nbytes > pipeSize && (if nonblock then nbytes == pipeSize else nbytes <= pipeSize || |pipes[ip]| == pipeSize))
        && (c == Stop(Error(EAGAIN)) <==> |pipes[ip]| + nbytes > pipeSize && nonblock && (nbytes < pipeSize || (nbytes > pipeSize && |pipes[ip]| == pipeSize)))
      ensures c.GoOn? ==>
        && Calling(Model(), who, fd, f, ip, Writer, data, nbytes) && HasEnd(Model(), ip, Reader) && HasEnd(old(Model()), ip, Reader)
        && procs[who] == old(procs)[who] && Tallied(Model(), who, Writer)
        && (forall p :: !SleepsOn(Model(), p, ip, Reader)) && Work(Model()) == Work(old(Model()))
        && (if c.canWrite == 0 then |pipes[ip]| + nbytes <= pipeSize else c.canWrite == pipeSize - |pipes[ip]| && nbytes > pipeSize)
      ensures SameOwn(old(procs)[who], procs[who], fd, Writer)
    {
      hide Inv, Core, HasEnd, Woken, Suspend, Total, SleepsOn;
      ghost var s := Model();
      CallingPos(s, who, fd, f, ip, Writer, data, nbytes, pipeSize);
      SameDataRefl(s, who);
      var r := FindFilp(ip, Reader);
      EndFound(s, r, ip, Reader);
      if r == NIL { return Stop(Error(EPIPE)); }
      var canWrite: nat := 0;
      if position + nbytes > pipeSize {
        if nonblock && nbytes < pipeSize { return Stop(Error(EAGAIN)); }
        if nonblock && nbytes > pipeSize && pipeSize - position <= 0 { return Stop(Error(EAGAIN)); }
        if nbytes > pipeSize && pipeSize - position > 0 {
          canWrite := pipeSize - position;
          AsleepCounted(s, pipeSize);
          Release(ip, Reader, suspCount);
          WokenGo(s, Model(), ip, Reader, who, fd, f, ip, data, nbytes, pipeSize);
          return GoOn(canWrite);
        }
        InvParts(s, pipeSize);
        NonEmptyNoReader(s, ip);
        WriterSleeps(s, who, fd, f, ip, data, nbytes, pipeSize);
        SuspendSame(s, who, Writer, fd, data, nbytes);
        SuspendCall(who, Writer, fd, data, nbytes);
        return Stop(Suspend_);
      }
      if position == 0 {
        AsleepCounted(s, pipeSize);
        Release(ip, Reader, suspCount);
        WokenGo(s, Model(), ip, Reader, who, fd, f, ip, data, nbytes, pipeSize);
      } else {
        InvParts(s, pipeSize);
        NonEmptyNoReader(s, ip);
      }
      c := GoOn(0);
    }

    /** The rest of read_write for a writer, once pipe_check has let it go on with `n` bytes; the
        blocks of the pipe file are one sequence here.  `again` says that more is to follow. */
    method MoveIn(who: nat, fd: nat, f: int, ip: nat, data: seq<byte>, nbytes: nat, n: nat, again: bool) returns (reply: Reply)
      requires Valid() && Calling(Model(), who, fd, f, ip, Writer, data, nbytes) && HasEnd(Model(), ip, Reader) && Tallied(Model(), who, Writer)
      requires (forall p :: !SleepsOn(Model(), p, ip, Reader)) && 0 < n <= nbytes && |pipes[ip]| + n <= pipeSize && (again ==> n < nbytes)
      modifies this
      ensures Valid() && WroteSome(old(Model()), Model(), who, ip, data, n)
      ensures if again then reply == Suspend_ && procs[who].suspended && !procs[who].revived && procs[who].partial == old(procs)[who].partial + n
              else reply == Count(old(procs)[who].partial + n) && !procs[who].suspended && procs[who].partial == 0
      ensures Work(Model()) == Work(old(Model())) + (if again then 1 + |data| - n else 0)
      ensures SameOwn(old(procs)[who], procs[who], fd, Writer) && SameFlags(old(filps), filps)
    {
      hide Inv, HasEnd, SleepsOn, Total, Suspend, SetPartial;
      ghost var s := Model();
      CallingPos(s, who, fd, f, ip, Writer, data, nbytes, pipeSize);
      PutInv(s, who, fd, f, ip, data, nbytes, n, pipeSize);
      var cumIo := procs[who].partial + n;
      pipes := pipes[ip := pipes[ip] + data[..n]];
      filps := filps[f := filps[f].(pos := filps[f].pos + n)];
      accepted := accepted[ip := accepted[ip] + data[..n]];
      sent := sent[who := sent[who] + data[..n]];
      ghost var t := Model();
      assert t == Put(s, f, ip, who, data[..n]);
      var kept := if again then cumIo else 0;
      PartialInv(t, who, kept, pipeSize);
      procs := procs[who := procs[who].(partial := kept)];
      PartialIs(t, who, kept);
      ghost var u := Model();
      if again {
        PartialCalling(t, who, fd, f, ip, data[n..], nbytes - n, kept);
        WriterSleeps(u, who, fd, f, ip, data[n..], nbytes - n, pipeSize);
        SuspendSame(u, who, Writer, fd, data[n..], nbytes - n);
        SuspendCall(who, Writer, fd, data[n..], nbytes - n);
        reply := Suspend_;
      } else {
        reply := Count(cumIo);
      }
    }

    /** The rest of read_write for a reader: take up to `nbytes` bytes. */
    method MoveOut(who: nat, fd: nat, f: int, ip: nat, nbytes: nat) returns (reply: Reply)
      requires Valid() && Calling(Model(), who, fd, f, ip, Reader, [], nbytes) && filps[f].pos < |pipes[ip]|
      modifies this
      ensures Valid() && reply.Got? && reply.bytes != [] && ReadSome(old(Model()), Model(), who, ip, reply.bytes)
      ensures reply.n == old(procs)[who].partial + |reply.bytes| && |reply.bytes| <= nbytes
      ensures |reply.bytes| == nbytes || old(filps)[f].pos + |reply.bytes| == |old(pipes)[ip]|
      ensures !procs[who].suspended && procs[who].partial == 0 && Work(Model()) == Work(old(Model()))
      ensures SameOwn(old(procs)[who], procs[who], fd, Reader) && SameFlags(old(filps), filps)
    {
      hide Inv, HasEnd, Total, SetPartial, Calling, SameFlags;
      ghost var s := Model();
      CallingSays(s, who, fd, f, ip, Reader, [], nbytes);
      var position := filps[f].pos;
      var n := if nbytes < |pipes[ip]| - position then nbytes else |pipes[ip]| - position;
      var bytes := pipes[ip][position..position + n];
      var cumIo := procs[who].partial + n;
      delivered := delivered[ip := delivered[ip] + bytes];
      ghost var w0;
      if position + n >= |pipes[ip]| {
        var wf := FindFilp(ip, Writer);
        w0 := wf;
        SameOpen(s, Model(), ip, Writer, wf);
        pipes := pipes[ip := []];
        filps := filps[f := filps[f].(pos := 0)];
        if wf != NIL {
          filps := filps[wf := filps[wf].(pos := 0)];
        }
      } else {
        w0 := if HasEnd(s, ip, Writer) then SomeEnd(s, ip, Writer) else NIL;
        SomeEndIs(s, ip, Writer);
        filps := filps[f := filps[f].(pos := position + n)];
      }
      GetInv(s, who, fd, f, w0, ip, nbytes, n, pipeSize);
      ghost var t := Model();
      assert t == Get(s, f, w0, ip, n);
      GetFlags(s, f, w0, ip, n);
      PartialInv(t, who, 0, pipeSize);
      procs := procs[who := procs[who].(partial := 0)];
      PartialIs(t, who, 0);
      reply := Got(cumIo, bytes);
    }

    /** read_write on a pipe, for a call that is new or has been suspended before: the caller's
        `data` are the bytes still to be written.  Answers what the caller is told, and how many
        bytes were written. */
    method ReadWrite(who: nat, fd: nat, flag: End, data: seq<byte>, nbytes: nat) returns (reply: Reply, ghost k: nat)
      requires Valid() && who < |procs| && !procs[who].suspended
      requires Tallied(Model(), who, flag) && if flag == Writer then |data| == nbytes && whole[who] == sent[who] + data else data == []
      modifies this
      ensures Valid() && k <= |data|
      ensures CallResult(old(Model()), Model(), pipeSize, maxSize, who, fd, flag, data, nbytes, reply, k)
      ensures Progress(old(Model()), Model(), who, flag, data, reply, k)
      ensures Frame(old(Model()), Model(), who, fd, flag)
    {
      hide Inv, HasEnd, SleepsOn, Total, Calling, Work, ReadSome, SameData, SameCalls, SameOwn, SameFlags, Frame, WriteResult;
      k := 0;
      ghost var s := Model();
      FrameRefl(s, who, fd, flag, pipeSize);
      SizesOf(s, pipeSize);
      Trivial(s, who, flag, data);
      if fd >= |procs[who].fds| || procs[who].fds[fd] == NIL { return Error(EBADF), 0; }
      FdValid(s, who, fd, pipeSize);
      var f := procs[who].fds[fd];
      if filps[f].mode != flag { return Error(EBADF), 0; }
      if nbytes == 0 { return if flag == Writer then Count(0) else Got(0, []), 0; }
      var position, ip, nonblock := filps[f].pos, filps[f].ino, filps[f].nonblock;
      // The difference is unsigned: for more bytes than a file can have it is a huge number.
      if flag == Writer && nbytes <= maxSize && position > maxSize - nbytes { return Error(EFBIG), 0; }
      IsCalling(s, who, fd, f, ip, flag, data, nbytes, pipeSize);
      CallingPos(s, who, fd, f, ip, flag, data, nbytes, pipeSize);
      CallingSays(s, who, fd, f, ip, flag, data, nbytes);
      if flag == Reader {
        var stop;
        stop, reply := CheckRead(who, fd, f, ip, nbytes, nonblock, position);
        if stop {
          ReadNone(s, Model(), who, ip);
          ReadSizes(s, Model(), who, ip, []);
          FrameCheck(s, Model(), who, fd, flag);
          return;
        }
        reply := MoveOut(who, fd, f, ip, nbytes);
        FrameRead(s, Model(), who, fd, ip, reply.bytes);
        ReadSizes(s, Model(), who, ip, reply.bytes);
      } else {
        reply, k := WriteOn(who, fd, f, ip, data, nbytes, nonblock, position);
        FrameSize(s, Model(), who, fd, flag);
      }
    }

    /** The part of read_write for a writer that has its pipe in hand. */
    method WriteOn(who: nat, fd: nat, f: int, ip: nat, data: seq<byte>, nbytes: nat, nonblock: bool, position: nat)
      returns (reply: Reply, ghost k: nat)
      requires Valid() && Calling(Model(), who, fd, f, ip, Writer, data, nbytes) && 0 <= f < |filps|
      requires position == filps[f].pos && nonblock == filps[f].nonblock && |data| == nbytes > 0 && Tallied(Model(), who, Writer)
      modifies this
      ensures Valid() && k <= |data| && WriteResult(old(Model()), Model(), pipeSize, who, f, ip, data, reply, k)
      ensures Progress(old(Model()), Model(), who, Writer, data, reply, k) && Frame(old(Model()), Model(), who, fd, Writer)
      ensures (reply == Suspend_ <==> procs[who].suspended) && (reply == Suspend_ ==> !procs[who].revived)
    {
      hide Inv, HasEnd, SleepsOn, Total, Calling, Work, WroteSome, SameData, SameCalls, SameOwn, SameFlags, Frame;
      ghost var s := Model();
      SizesOf(s, pipeSize);
      CallingPos(s, who, fd, f, ip, Writer, data, nbytes, pipeSize);
      CallingSays(s, who, fd, f, ip, Writer, data, nbytes);
      var c := CheckWrite(who, fd, f, ip, data, nbytes, nonblock, position);
      ghost var t := Model();
      if c.Stop? {
        WroteNone(s, t, who, ip, data);
        WroteSizes(s, t, who, ip, data, 0);
        FrameCheck(s, t, who, fd, Writer);
        return c.reply, 0;
      }
      var n := if c.canWrite > 0 then c.canWrite else nbytes;
      k := n;
      reply := MoveIn(who, fd, f, ip, data, nbytes, n, c.canWrite > 0 && !nonblock);
      WroteAfter(s, t, Model(), who, ip, data, n);
      WroteSizes(s, Model(), who, ip, data, n);
      FrameWrite(s, Model(), who, fd, ip, data, n);
    }

    /** get_work, when a suspended process must be revived: restore its call. */
    method GetWork() returns (who: nat)
      requires Valid() && reviving != 0
      modifies this`procs, this`reviving
      ensures who < |procs| == |old(procs)| && old(procs)[who].revived && Model() == Resume(old(Model()), who) && Valid()
    {
      hide Inv, Core;
      ghost var s := Model();
      SomebodyRevived(s, pipeSize);
      who := 0;
      while !procs[who].revived
        invariant who < |procs| && exists p :: who <= p < |procs| && procs[p].revived
        decreases |procs| - who
      {
        who := who + 1;
      }
      ResumeInv(s, who, pipeSize);
      procs := procs[who := procs[who].(suspended := false, revived := false)];
      reviving := reviving - 1;
    }

    /** The main loop until the next message can be received: all revived processes try their
        calls again.  It always gets there. */
    method Quiesce() returns (replies: seq<(nat, Reply)>)
      requires Valid()
      modifies this
      ensures Valid() && reviving == 0 && Grows(old(Model()), Model())
      ensures Answered(old(Model()), Model(), replies)
    {
      hide Inv, Core, CallResult, Work, Total, Progress, Grows, Answered, Frame;
      replies := [];
      AnsweredNone(Model(), pipeSize);
      GrowsRefl(Model());
      while reviving != 0
        invariant Valid() && Grows(old(Model()), Model()) && Answered(old(Model()), Model(), replies)
        decreases Work(Model()), Total(procs, WakingReader), Total(procs, WakingWriter)
      {
        ghost var s := Model();
        var who := GetWork();
        ghost var t := Model();
        Resumed(s, who, pipeSize);
        SizesOf(s, pipeSize);
        var q := procs[who];
        var reply;
        ghost var k;
        reply, k := ReadWrite(who, q.fd, q.call, q.data, q.nbytes);
        Progressed(s, t, Model(), who, reply, k);
        CallGrows(t, Model(), pipeSize, maxSize, who, q.fd, q.call, q.data, q.nbytes, reply, k);
        ResumeGrows(old(Model()), s, who, Model());
        RetriedIs(s, who, Model(), pipeSize, maxSize, reply, k);
        AnsweredMore(old(Model()), s, who, Model(), replies, reply);
        if reply != Suspend_ { replies := replies + [(who, reply)]; }
      }
    }
  }

  lemma GetFlags(s: Server, f: nat, w: int, ip: nat, n: nat)
    requires f < |s.filps| && ip < |s.pipes| && ip < |s.delivered| && s.filps[f].pos + n <= |s.pipes[ip]|
    ensures SameFlags(s.filps, Get(s, f, w, ip, n).filps)
  {}

  lemma FrameRefl(s: Server, who: nat, fd: nat, call: End, pipeSize: nat)
    requires Inv(s, pipeSize) && who < |s.procs| && !s.procs[who].suspended
    ensures Frame(s, s, who, fd, call)
  {}

  lemma FrameSize(s: Server, t: Server, who: nat, fd: nat, call: End)
    requires Frame(s, t, who, fd, call)
    ensures |t.procs| == |s.procs| && who < |s.procs|
  {}

  lemma FrameCheck(s: Server, t: Server, who: nat, fd: nat, call: End)
    requires SameData(s, t) && SameCalls(s, t, who) && who < |s.procs| && SameOwn(s.procs[who], t.procs[who], fd, call) && |s.sent| == |s.procs|
    ensures Frame(s, t, who, fd, call)
  {}

  lemma FrameWrite(s: Server, t: Server, who: nat, fd: nat, ip: nat, data: seq<byte>, k: nat)
    requires WroteSome(s, t, who, ip, data, k) && SameOwn(s.procs[who], t.procs[who], fd, Writer) && SameFlags(s.filps, t.filps)
    ensures Frame(s, t, who, fd, Writer)
  {}

  lemma FrameRead(s: Server, t: Server, who: nat, fd: nat, ip: nat, bytes: seq<byte>)
    requires ReadSome(s, t, who, ip, bytes) && who < |s.procs| && SameOwn(s.procs[who], t.procs[who], fd, Reader)
    requires SameFlags(s.filps, t.filps) && |s.sent| == |s.procs|
    ensures Frame(s, t, who, fd, Reader)
  {}

  /** Process `p` is in a call on a filp without O_NONBLOCK. */
  ghost predicate Blocking(s: Server, p: nat)
    requires p < |s.procs|
  {
    var q := s.procs[p];
    q.fd < |q.fds| && 0 <= q.fds[q.fd] < |s.filps| && !s.filps[q.fds[q.fd]].nonblock
  }

  /** From `s` to `t` calls were retried: whoever was suspended is so still, in the same call, or was
      answered, once; a writer that may block was answered a count only when all its bytes had gone
      into the pipe, and counts are what was carried over and what the whole call has moved.  Nobody else
      was answered or suspended. */
  ghost predicate Answered(s: Server, t: Server, replies: seq<(nat, Reply)>) {
    && |t.procs| == |s.procs| == |t.sent| == |s.sent| && t.whole == s.whole && t.carried == s.carried && |s.whole| == |s.procs| && SameFlags(s.filps, t.filps)
    && (forall p :: 0 <= p < |s.procs| ==> t.procs[p].fds == s.procs[p].fds)
    && (forall p :: 0 <= p < |s.procs| && t.procs[p].suspended ==>
      s.procs[p].suspended && t.procs[p].fd == s.procs[p].fd && t.procs[p].call == s.procs[p].call)
    && (forall p :: 0 <= p < |s.procs| && !s.procs[p].suspended ==> t.procs[p].partial == s.procs[p].partial)
    && (forall p :: 0 <= p < |s.procs| && s.procs[p].suspended && !t.procs[p].suspended ==> exists j :: 0 <= j < |replies| && replies[j].0 == p)
    && (forall j :: 0 <= j < |replies| ==> AnswerOk(s, t, replies[j].0, replies[j].1))
    && forall i, j :: 0 <= i < j < |replies| ==> replies[i].0 != replies[j].0
  }

  ghost predicate AnswerOk(s: Server, t: Server, p: nat, reply: Reply) {
    && p < |s.procs| == |t.procs| && s.procs[p].suspended && !t.procs[p].suspended && reply != Suspend_
    && (reply.Count? && s.procs[p].call == Writer && Blocking(s, p) && p < |t.sent| && p < |t.whole| ==> t.sent[p] == t.whole[p])
    && CountOk(t, p, reply) && LeftBehind(t, p, s.procs[p].call, reply)
  }

  lemma AnsweredNone(s: Server, pipeSize: nat)
    requires Inv(s, pipeSize)
    ensures Answered(s, s, [])
  {}

  /** A writer that may block and is told a count has no bytes left. */
  lemma AllSent(s: Server, t: Server, pipeSize: nat, maxSize: nat, who: nat, fd: nat, data: seq<byte>, reply: Reply, k: nat)
    requires CallResult(s, t, pipeSize, maxSize, who, fd, Writer, data, |data|, reply, k) && reply.Count? && data != []
    requires who < |s.sent| && who < |s.whole| && s.whole[who] == s.sent[who] + data
    requires fd < |s.procs[who].fds| && 0 <= s.procs[who].fds[fd] < |s.filps| && !s.filps[s.procs[who].fds[fd]].nonblock
    ensures who < |t.sent| && who < |t.whole| && t.sent[who] == t.whole[who]
  {
    assert data[..|data|] == data;
  }

  /** What a call is told is the count kept when it was received, and the bytes moved since. */
  lemma CountTold(s: Server, t: Server, pipeSize: nat, maxSize: nat, who: nat, fd: nat, flag: End, data: seq<byte>, nbytes: nat, reply: Reply, k: nat)
    requires CallResult(s, t, pipeSize, maxSize, who, fd, flag, data, nbytes, reply, k) && Tallied(s, who, flag) && nbytes > 0
    requires flag == Writer ==> nbytes == |data|
    ensures who < |t.sent| && who < |t.carried|
    ensures reply.Count? ==> flag == Writer && reply.n == t.carried[who] + |t.sent[who]|
    ensures reply.Got? && reply.bytes != [] ==> flag == Reader && reply.n == t.carried[who] + |reply.bytes|
    ensures reply != Suspend_ ==> LeftBehind(t, who, flag, reply)
  {
  }

  /** What is left in fp_cum_io_partial when a call has been answered: nothing if a count was told, and
      else what was there before and what the call has moved. */
  ghost predicate LeftBehind(t: Server, p: nat, call: End, reply: Reply) {
    && p < |t.procs| == |t.carried| == |t.sent|
    && t.procs[p].partial == if Told(reply) then 0 else t.carried[p] + if call == Writer then |t.sent[p]| else 0
  }

  /** The process is told how many bytes its call has moved. */
  predicate Told(reply: Reply) {
    reply.Count? || (reply.Got? && reply.bytes != [])
  }

  /** What retrying the call of process `who` does to the process table. */
  ghost predicate Retried(s: Server, who: nat, u: Server, reply: Reply) {
    && who < |s.procs| == |u.procs| && u.whole == s.whole && |u.sent| == |s.sent| == |s.procs| && SameFlags(s.filps, u.filps)
    && (forall p :: 0 <= p < |s.procs| ==> u.procs[p].fds == s.procs[p].fds)
    && (forall p :: 0 <= p < |s.procs| && p != who ==> u.procs[p].suspended == s.procs[p].suspended && u.sent[p] == s.sent[p])
    && (forall p :: 0 <= p < |s.procs| && p != who ==> u.procs[p].partial == s.procs[p].partial)
    && (forall p :: 0 <= p < |s.procs| && u.procs[p].suspended ==> u.procs[p].fd == s.procs[p].fd && u.procs[p].call == s.procs[p].call)
    && (u.procs[who].suspended <==> reply == Suspend_) && s.procs[who].suspended
    && (reply.Count? && s.procs[who].call == Writer && Blocking(s, who) && who < |u.whole| ==> u.sent[who] == u.whole[who])
    && u.carried == s.carried && CountOk(u, who, reply) && (reply != Suspend_ ==> LeftBehind(u, who, s.procs[who].call, reply))
  }

  /** The count that process `p` is told. */
  ghost predicate CountOk(t: Server, p: nat, reply: Reply) {
    && p < |t.carried| && p < |t.sent|
    && (reply.Count? ==> reply.n == t.carried[p] + |t.sent[p]|)
    && (reply.Got? && reply.bytes != [] ==> reply.n == t.carried[p] + |reply.bytes|)
  }

  lemma RetriedIs(s: Server, who: nat, u: Server, pipeSize: nat, maxSize: nat, reply: Reply, k: nat)
    requires who < |s.procs| && s.procs[who].suspended && |s.whole| == |s.procs| == |s.sent|
    requires var q := s.procs[who]; var t := Resume(s, who);
      && Frame(t, u, who, q.fd, q.call) && CallResult(t, u, pipeSize, maxSize, who, q.fd, q.call, q.data, q.nbytes, reply, k)
      && (if q.call == Writer then |q.data| == q.nbytes && t.whole[who] == t.sent[who] + q.data else q.data == [])
      && q.nbytes > 0 && Tallied(t, who, q.call)
    ensures Retried(s, who, u, reply)
  {
    var q, t := s.procs[who], Resume(s, who);
    assert u.procs[who].suspended <==> reply == Suspend_;
    if reply.Count? && q.call == Writer && Blocking(s, who) { AllSent(t, u, pipeSize, maxSize, who, q.fd, q.data, reply, k); }
    CountTold(t, u, pipeSize, maxSize, who, q.fd, q.call, q.data, q.nbytes, reply, k);
    hide CallResult;
    forall p | 0 <= p < |s.procs| && p != who ensures u.procs[p].(revived := false) == s.procs[p].(revived := false) {
      assert t.procs[p] == s.procs[p];
    }
    forall p | 0 <= p < |s.procs| && p != who
      ensures u.procs[p].partial == s.procs[p].partial
      ensures u.procs[p].fds == s.procs[p].fds && u.procs[p].suspended == s.procs[p].suspended && u.procs[p].fd == s.procs[p].fd && u.procs[p].call == s.procs[p].call
    {
      assert u.procs[p].(revived := false).fds == u.procs[p].fds;
    }
  }

  lemma SameBlocking(s0: Server, s: Server, replies: seq<(nat, Reply)>, p: nat)
    requires Answered(s0, s, replies) && p < |s.procs| && s.procs[p].suspended
    ensures s0.procs[p].suspended && s0.procs[p].call == s.procs[p].call && Blocking(s0, p) == Blocking(s, p)
  {
    var q := s.procs[p];
    if q.fd < |q.fds| && 0 <= q.fds[q.fd] < |s.filps| {
      var f := q.fds[q.fd];
      assert s.filps[f].(pos := 0).nonblock == s0.filps[f].(pos := 0).nonblock;
    }
  }

  lemma SameFlagsThen(a: seq<Filp>, b: seq<Filp>, c: seq<Filp>)
    requires SameFlags(a, b) && SameFlags(b, c)
    ensures SameFlags(a, c)
  {}

  lemma AnsweredMore(s0: Server, s: Server, who: nat, u: Server, replies: seq<(nat, Reply)>, reply: Reply)
    requires Answered(s0, s, replies) && Retried(s, who, u, reply)
    ensures Answered(s0, u, if reply == Suspend_ then replies else replies + [(who, reply)])
  {
    hide SameFlags, Blocking;
    SameFlagsThen(s0.filps, s.filps, u.filps);
    SameBlocking(s0, s, replies, who);
    AnswersKept(s0, s, who, u, replies, reply);
    var more := if reply == Suspend_ then replies else replies + [(who, reply)];
    AnswersAll(s0, s, who, u, replies, more, reply);
  }

  lemma AnswersKept(s0: Server, s: Server, who: nat, u: Server, replies: seq<(nat, Reply)>, reply: Reply)
    requires Answered(s0, s, replies) && Retried(s, who, u, reply)
    ensures forall j :: 0 <= j < |replies| ==> replies[j].0 != who && AnswerOk(s0, u, replies[j].0, replies[j].1)
  {
    hide SameFlags, Blocking;
    forall j | 0 <= j < |replies| ensures replies[j].0 != who && AnswerOk(s0, u, replies[j].0, replies[j].1) {
      assert AnswerOk(s0, s, replies[j].0, replies[j].1);
    }
  }

  lemma AnswersAll(s0: Server, s: Server, who: nat, u: Server, replies: seq<(nat, Reply)>, more: seq<(nat, Reply)>, reply: Reply)
    requires Answered(s0, s, replies) && Retried(s, who, u, reply)
    requires more == if reply == Suspend_ then replies else replies + [(who, reply)]
    ensures forall p :: 0 <= p < |s0.procs| && s0.procs[p].suspended && !u.procs[p].suspended ==> exists j :: 0 <= j < |more| && more[j].0 == p
  {
    hide SameFlags, Blocking, AnswerOk;
    forall p | 0 <= p < |s0.procs| && s0.procs[p].suspended && !u.procs[p].suspended ensures exists j :: 0 <= j < |more| && more[j].0 == p {
      if p == who {
        assert more[|replies|].0 == p;
      } else {
        var j :| 0 <= j < |replies| && replies[j].0 == p;
        assert more[j].0 == p;
      }
    }
  }

  /** Whatever has been written or read stays so. */
  ghost predicate Grows(s: Server, t: Server) {
    && |s.accepted| <= |t.accepted| && |s.delivered| <= |t.delivered| && |t.procs| == |s.procs|
    && (forall i :: 0 <= i < |s.accepted| ==> s.accepted[i] <= t.accepted[i])
    && (forall i :: 0 <= i < |s.delivered| ==> s.delivered[i] <= t.delivered[i])
  }

  lemma GrowsRefl(s: Server)
    ensures Grows(s, s)
  {
  }

  lemma GrowsThen(a: Server, b: Server, c: Server)
    requires Grows(a, b) && Grows(b, c)
    ensures Grows(a, c)
  {
    forall i | 0 <= i < |a.accepted| ensures a.accepted[i] <= c.accepted[i] { assert a.accepted[i] <= b.accepted[i] <= c.accepted[i]; }
    forall i | 0 <= i < |a.delivered| ensures a.delivered[i] <= c.delivered[i] { assert a.delivered[i] <= b.delivered[i] <= c.delivered[i]; }
  }

  lemma CallGrows(s: Server, t: Server, pipeSize: nat, maxSize: nat, who: nat, fd: nat, flag: End, data: seq<byte>, nbytes: nat, reply: Reply, k: nat)
    requires CallResult(s, t, pipeSize, maxSize, who, fd, flag, data, nbytes, reply, k)
    ensures Grows(s, t)
  {
  }

  lemma ResumeGrows(a: Server, s: Server, p: nat, u: Server)
    requires Grows(a, s) && p < |s.procs| && Grows(Resume(s, p), u)
    ensures Grows(a, u)
  {
    GrowsRefl(s);
    assert Grows(s, Resume(s, p));
    GrowsThen(s, Resume(s, p), u);
    GrowsThen(a, s, u);
  }

  /** What a read or write call does, in all its outcomes, and when it has which. */
  ghost predicate CallResult(s: Server, t: Server, pipeSize: nat, maxSize: nat, who: nat, fd: nat, flag: End, data: seq<byte>, nbytes: nat, reply: Reply, k: nat) {
    && who < |s.procs| && |t.procs| == |s.procs| && k <= |data|
    && (reply == Suspend_ <==> t.procs[who].suspended) && (reply == Suspend_ ==> !t.procs[who].revived)
    && (if !(fd < |s.procs[who].fds| && 0 <= s.procs[who].fds[fd] < |s.filps| && s.filps[s.procs[who].fds[fd]].mode == flag)
        then reply == Error(EBADF) && t == s
        else if nbytes == 0 then t == s && reply == (if flag == Writer then Count(0) else Got(0, []))
        else
          var f := s.procs[who].fds[fd];
          var ip := s.filps[f].ino;
          if flag == Writer && nbytes <= maxSize < s.filps[f].pos + nbytes then reply == Error(EFBIG) && t == s
          else if flag == Writer then WriteResult(s, t, pipeSize, who, f, ip, data, reply, k)
          else ReadResult(s, t, who, f, ip, nbytes, reply))
  }

  /** A write: in order and without loss, at once or not at all if it is no longer than the pipe,
      with the right count in the end. */
  ghost predicate WriteResult(s: Server, t: Server, pipeSize: nat, who: nat, f: int, ip: nat, data: seq<byte>, reply: Reply, k: nat) {
    && who < |s.procs| == |t.procs| && 0 <= f < |s.filps| && data != []
    && WroteSome(s, t, who, ip, data, k) && |s.pipes[ip]| <= pipeSize
    && (|data| <= pipeSize ==> k == 0 || k == |data|)
    && (reply == Suspend_ ==> t.procs[who].partial == s.procs[who].partial + k && k < |data|)
    && (reply.Count? ==> reply.n == s.procs[who].partial + k && t.procs[who].partial == 0 && (k == |data| || s.filps[f].nonblock))
    && (reply.Error? ==> k == 0 && t.procs[who].partial == s.procs[who].partial && reply.code in {EPIPE, EAGAIN})
    && (reply == Error(EPIPE) <==> !HasEnd(s, ip, Reader))
    && (HasEnd(s, ip, Reader) ==> WriteOutcome(s.filps[f].nonblock, pipeSize - |s.pipes[ip]|, |data|, pipeSize, reply, k))
    && !reply.Got?
  }

  /** What happens to a write of `n` bytes to a pipe with a reader and room for `room` bytes. */
  ghost predicate WriteOutcome(nonblock: bool, room: int, n: nat, pipeSize: nat, reply: Reply, k: nat) {
    && k == (if n <= room then n else if n > pipeSize then room else 0)
    && (reply.Count? <==> n <= room || (nonblock && n > pipeSize && room > 0))
    && (!nonblock ==> (reply == Suspend_ <==> n > room))
    && (nonblock ==> (reply == Suspend_ <==> n == pipeSize && room < pipeSize))
    && (reply == Error(EAGAIN) <==> nonblock && n > room && (n < pipeSize || (n > pipeSize && room == 0)))
  }

  /** A read: the next bytes, at least one if there are any; nothing, if the pipe is empty for good. */
  ghost predicate ReadResult(s: Server, t: Server, who: nat, f: int, ip: nat, nbytes: nat, reply: Reply) {
    && who < |s.procs| == |t.procs| && 0 <= f < |s.filps| && ip < |s.pipes|
    && ReadSome(s, t, who, ip, if reply.Got? then reply.bytes else [])
    && (s.pipes[ip] == [] ==>
      (&& reply == (if !HasEnd(s, ip, Writer) then Got(0, []) else if s.filps[f].nonblock then Error(EAGAIN) else Suspend_)
      && t.procs[who].partial == s.procs[who].partial))
    && (s.pipes[ip] != [] ==>
      (&& reply.Got? && 0 < |reply.bytes| <= nbytes && reply.n == s.procs[who].partial + |reply.bytes| && t.procs[who].partial == 0
      && (|reply.bytes| == nbytes || s.filps[f].pos + |reply.bytes| == |s.pipes[ip]|)))
  }

  /** A retried call either gets on with the work to be done, or leaves fewer calls to retry. */
  ghost predicate Progress(s: Server, t: Server, who: nat, flag: End, data: seq<byte>, reply: Reply, k: nat) {
    && Work(t) == Work(s) + (if reply == Suspend_ then 1 + |data| - k else 0)
    && (reply == Suspend_ && k == 0 ==>
         && Total(t.procs, WakingReader) == Total(s.procs, WakingReader)
         && (flag == Writer ==> Total(t.procs, WakingWriter) == Total(s.procs, WakingWriter)))
  }

  lemma ReadSizes(s: Server, t: Server, who: nat, ip: nat, bytes: seq<byte>)
    requires ReadSome(s, t, who, ip, bytes)
    ensures |t.procs| == |s.procs|
  {
  }

  lemma WroteSizes(s: Server, t: Server, who: nat, ip: nat, data: seq<byte>, k: nat)
    requires WroteSome(s, t, who, ip, data, k)
    ensures |t.procs| == |s.procs|
  {
  }

  lemma SizesOf(s: Server, pipeSize: nat)
    requires Inv(s, pipeSize)
    ensures |s.whole| == |s.procs| && |s.sent| == |s.procs| && |s.carried| == |s.procs|
    ensures |s.accepted| == |s.pipes| && |s.delivered| == |s.pipes|
    ensures forall p :: 0 <= p < |s.procs| && s.procs[p].revived ==> s.procs[p].suspended
  {
    forall p | 0 <= p < |s.procs| && s.procs[p].revived ensures s.procs[p].suspended { assert ValidProc(s, p) && Waiting(s, p); }
  }

  lemma Trivial(s: Server, who: nat, flag: End, data: seq<byte>)
    ensures forall reply | reply != Suspend_ :: Progress(s, s, who, flag, data, reply, 0)
  {
  }

  lemma FdValid(s: Server, who: nat, fd: nat, pipeSize: nat)
    requires Inv(s, pipeSize) && who < |s.procs| && fd < |s.procs[who].fds| && s.procs[who].fds[fd] != NIL
    ensures 0 <= s.procs[who].fds[fd] < |s.filps| && s.filps[s.procs[who].fds[fd]].count > 0
  {
    RefCounts(s, who, fd);
  }

  lemma IsCalling(s: Server, who: nat, fd: nat, f: int, ip: nat, e: End, data: seq<byte>, nbytes: nat, pipeSize: nat)
    requires Inv(s, pipeSize) && who < |s.procs| && !s.procs[who].suspended && fd < |s.procs[who].fds| && s.procs[who].fds[fd] == f
    requires 0 <= f < |s.filps| && s.filps[f].mode == e && s.filps[f].ino == ip && nbytes > 0 && |s.whole| == |s.procs| && |s.sent| == |s.procs|
    requires if e == Writer then |data| == nbytes && s.whole[who] == s.sent[who] + data else data == []
    ensures Calling(s, who, fd, f, ip, e, data, nbytes)
  {
    assert Waiting(s, who);
    RefCounts(s, who, fd);
  }

  /** Waking readers first and then writing is still writing. */
  lemma WroteAfter(s: Server, t: Server, u: Server, who: nat, ip: nat, data: seq<byte>, n: nat)
    requires SameData(s, t) && SameCalls(s, t, who) && WroteSome(t, u, who, ip, data, n)
    ensures WroteSome(s, u, who, ip, data, n)
  {
  }

  lemma SomebodyRevived(s: Server, pipeSize: nat)
    requires Inv(s, pipeSize) && s.reviving != 0
    ensures |s.procs| > 0 && exists p :: 0 <= p < |s.procs| && s.procs[p].revived
  {
    TotalSome(s.procs, Revived);
    var p :| 0 <= p < |s.procs| && Weight(s.procs[p], Revived) > 0;
    assert s.procs[p].revived;
  }

  lemma ResumeInv(s: Server, p: nat, pipeSize: nat)
    requires Inv(s, pipeSize) && p < |s.procs| && s.procs[p].revived
    ensures Inv(Resume(s, p), pipeSize)
  {
    hide Core, NoLostWakeup;
    InvParts(s, pipeSize);
    ResumeCore(s, p, pipeSize);
    AwakeNoLost(s, Resume(s, p), p, Resume(s, p).procs[p]);
    CoreInv(Resume(s, p), pipeSize);
  }

  /** The call of a revived process is complete as saved, and leaves the table's sums. */
  lemma Resumed(s: Server, p: nat, pipeSize: nat)
    requires Inv(s, pipeSize) && p < |s.procs| && s.procs[p].revived
    ensures |s.whole| == |s.procs| && |s.sent| == |s.procs|
    ensures var t, q := Resume(s, p), s.procs[p];
      && (if q.call == Writer then |q.data| == q.nbytes && t.whole[p] == t.sent[p] + q.data else q.data == [])
      && q.nbytes > 0 && Tallied(t, p, q.call) && Work(t) + 1 + |q.data| == Work(s)
      && Total(t.procs, WakingReader) + (if q.call == Reader then 1 else 0) == Total(s.procs, WakingReader)
      && Total(t.procs, WakingWriter) + (if q.call == Writer then 1 else 0) == Total(s.procs, WakingWriter)
  {
    assert ValidProc(s, p) && Waiting(s, p);
    var q := Resume(s, p).procs[p];
    TotalUpdate(s.procs, p, q, Suspended);
    TotalUpdate(s.procs, p, q, Bytes);
    TotalUpdate(s.procs, p, q, WakingReader);
    TotalUpdate(s.procs, p, q, WakingWriter);
  }

  lemma Progressed(s: Server, t: Server, u: Server, p: nat, reply: Reply, k: nat)
    requires p < |s.procs| && t == Resume(s, p) && k <= |s.procs[p].data| && (s.procs[p].call == Reader ==> s.procs[p].data == [])
    requires Progress(t, u, p, s.procs[p].call, s.procs[p].data, reply, k)
    requires Work(t) + 1 + |s.procs[p].data| == Work(s)
    requires Total(t.procs, WakingReader) + (if s.procs[p].call == Reader then 1 else 0) == Total(s.procs, WakingReader)
    requires Total(t.procs, WakingWriter) + (if s.procs[p].call == Writer then 1 else 0) == Total(s.procs, WakingWriter)
    ensures Work(u) < Work(s) || (Work(u) == Work(s) &&
      (Total(u.procs, WakingReader) < Total(s.procs, WakingReader) ||
       (Total(u.procs, WakingReader) == Total(s.procs, WakingReader) && Total(u.procs, WakingWriter) < Total(s.procs, WakingWriter))))
  {
    hide Work, Total;
  }

  lemma NobodyRevived(s: Server, pipeSize: nat)
    requires Inv(s, pipeSize) && s.reviving == 0
    ensures forall p :: 0 <= p < |s.procs| ==> !s.procs[p].revived
  {
    forall p | 0 <= p < |s.procs| ensures !s.procs[p].revived { TotalOne(s.procs, p, Revived); }
  }

  lemma CallingSays(s: Server, who: nat, fd: nat, f: int, ip: nat, e: End, data: seq<byte>, nbytes: nat)
    requires Calling(s, who, fd, f, ip, e, data, nbytes)
    ensures who < |s.procs| && !s.procs[who].suspended && !s.procs[who].revived && 0 <= f < |s.filps| && ip < |s.pipes| && nbytes > 0
    ensures |s.accepted| == |s.pipes| && |s.delivered| == |s.pipes| && OpenOn(s, f, ip, e)
  {
  }

  lemma PartialIs(s: Server, who: nat, n: nat)
    requires who < |s.procs|
    ensures SetPartial(s, who, n) == s.(procs := s.procs[who := s.procs[who].(partial := n)])
  {
  }

  lemma PartialCalling(s: Server, who: nat, fd: nat, f: int, ip: nat, data: seq<byte>, nbytes: nat, n: nat)
    requires Calling(s, who, fd, f, ip, Writer, data, nbytes)
    ensures var t := SetPartial(s, who, n);
      && Calling(t, who, fd, f, ip, Writer, data, nbytes) && (HasEnd(s, ip, Reader) ==> HasEnd(t, ip, Reader))
      && ((forall p :: !SleepsOn(s, p, ip, Reader)) ==> forall p :: !SleepsOn(t, p, ip, Reader))
  {
    var t := SetPartial(s, who, n);
    if HasEnd(s, ip, Reader) { var g :| OpenOn(s, g, ip, Reader); assert OpenOn(t, g, ip, Reader); }
    forall p ensures SleepsOn(t, p, ip, Reader) <==> SleepsOn(s, p, ip, Reader) {}
  }

  ghost function SomeEnd(s: Server, ip: int, e: End): int
    requires HasEnd(s, ip, e)
  {
    var f :| OpenOn(s, f, ip, e);
    f
  }

  lemma SomeEndIs(s: Server, ip: int, e: End)
    ensures HasEnd(s, ip, e) ==> OpenOn(s, SomeEnd(s, ip, e), ip, e) && SomeEnd(s, ip, e) != NIL
  {
  }

  lemma SameOpen(s: Server, t: Server, ip: int, e: End, f: int)
    requires t.filps == s.filps && if f == NIL then !HasEnd(t, ip, e) else OpenOn(t, f, ip, e)
    ensures if f == NIL then !HasEnd(s, ip, e) else OpenOn(s, f, ip, e) && 0 <= f < |s.filps|
  {
    if HasEnd(s, ip, e) { var g :| OpenOn(s, g, ip, e); assert OpenOn(t, g, ip, e); }
  }

  lemma SameDataRefl(s: Server, who: nat)
    ensures SameData(s, s) && SameCalls(s, s, who)
  {
  }

  lemma EndFound(s: Server, f: int, ip: int, e: End)
    requires if f == NIL then !HasEnd(s, ip, e) else OpenOn(s, f, ip, e)
    ensures HasEnd(s, ip, e) <==> f != NIL
  {
  }

  lemma AsleepCounted(s: Server, pipeSize: nat)
    requires Inv(s, pipeSize)
    ensures Core(s, pipeSize) && s.suspCount >= Total(s.procs, Asleep)
  {
  }

  lemma SleepersCount(s: Server, t: Server, who: nat, fd: nat, f: int, ip: nat, nbytes: nat, pipeSize: nat)
    requires Inv(s, pipeSize) && Calling(s, who, fd, f, ip, Reader, [], nbytes) && Tallied(s, who, Reader)
    requires t == s || t == Suspend(s, who, Reader, fd, [], nbytes)
    ensures Core(t, pipeSize) && t.suspCount >= Total(t.procs, Asleep)
  {
    if t != s {
      CallingMay(s, who, fd, f, ip, Reader, [], nbytes);
      SuspendCore(s, who, Reader, fd, [], nbytes, pipeSize);
    }
  }

  lemma NothingToWake(s: Server, ip: int, e: End, pipeSize: nat)
    requires Core(s, pipeSize) && s.suspCount <= 0 && s.suspCount >= Total(s.procs, Asleep)
    ensures Woken(s, s, ip, e)
  {
    forall p ensures !SleepsOn(s, p, ip, e) { if ValidProc(s, p) { TotalOne(s.procs, p, Asleep); } }
  }

  lemma SleepsStill(t: Server, u: Server, ip: int, e: End, who: nat, fd: nat, nbytes: nat, s: Server)
    requires who < |s.procs| && t == Suspend(s, who, Reader, fd, [], nbytes) && Woken(t, u, ip, e) && e == Writer && !s.procs[who].revived
    ensures u.procs[who].suspended && !u.procs[who].revived && u.procs[who].partial == s.procs[who].partial && SameOwn(s.procs[who], u.procs[who], fd, Reader)
  {
  }

  lemma WokenGo(s: Server, t: Server, i: int, x: End, who: nat, fd: nat, f: int, ip: nat, data: seq<byte>, nbytes: nat, pipeSize: nat)
    requires Inv(s, pipeSize) && Woken(s, t, i, x) && Calling(s, who, fd, f, ip, Writer, data, nbytes)
    ensures Inv(t, pipeSize) && Calling(t, who, fd, f, ip, Writer, data, nbytes) && SameData(s, t) && SameCalls(s, t, who) && Work(t) == Work(s)
    ensures t.procs[who] == s.procs[who] && (forall p :: !SleepsOn(t, p, i, x)) && (HasEnd(s, ip, Reader) <==> HasEnd(t, ip, Reader))
  {
    hide Inv, Core, Woken, Total, SleepsOn, HasEnd;
    WokenInv(s, t, i, x, pipeSize);
    WokenCalling(s, t, i, x, who, fd, f, ip, Writer, data, nbytes);
    WokenSame(s, t, i, x, who);
    WokenSleepers(s, t, i, x, 0, ip, Reader);
  }

  lemma NothingOpen(s: Server, pipeSize: nat)
    requires s.pipes == [] && s.accepted == [] && s.delivered == [] && s.suspCount == 0 && s.reviving == 0 && s.interrupted == 0
    requires |s.whole| == |s.procs| && |s.sent| == |s.procs| && |s.carried| == |s.procs|
    requires forall f :: 0 <= f < |s.filps| ==> s.filps[f].count == 0
    requires forall p :: 0 <= p < |s.procs| ==> !s.procs[p].suspended && !s.procs[p].revived
    requires forall p, d :: 0 <= p < |s.procs| && 0 <= d < |s.procs[p].fds| ==> s.procs[p].fds[d] == NIL
    ensures Inv(s, pipeSize)
  {
    NoTotal(s.procs, Revived);
    NoTotal(s.procs, Asleep);
    forall f | 0 <= f < |s.filps| ensures Total(s.procs, RefTo(f)) == 0 {
      forall p | 0 <= p < |s.procs| ensures Weight(s.procs[p], RefTo(f)) == 0 { CountNone(s.procs[p].fds, f); }
      NoTotal(s.procs, RefTo(f));
    }
  }

  lemma {:induction false} NoTotal(procs: seq<Proc>, k: Kind)
    requires forall p :: 0 <= p < |procs| ==> Weight(procs[p], k) == 0
    ensures Total(procs, k) == 0
  {
    if Total(procs, k) > 0 { TotalSome(procs, k); }
  }

  lemma WokenNone(s: Server, ip: int, e: End)
    ensures WokenUpTo(s, s, ip, e, 0)
  {
  }

  /** The process about to be looked at is as it was, and what it is suspended on exists. */
  lemma Untouched(s: Server, t: Server, ip: int, e: End, p: nat, pipeSize: nat)
    requires Core(s, pipeSize) && WokenUpTo(s, t, ip, e, p) && p < |s.procs|
    ensures |t.procs| == |s.procs| && t.procs[p] == s.procs[p] && t.filps == s.filps
    ensures s.procs[p].suspended ==> s.procs[p].fd < |s.procs[p].fds| && 0 <= s.procs[p].fds[s.procs[p].fd] < |s.filps|
    ensures (s.procs[p].suspended && !s.procs[p].revived && s.procs[p].call == e && s.filps[s.procs[p].fds[s.procs[p].fd]].ino == ip)
      <==> SleepsOn(s, p, ip, e)
  {
    assert Waiting(s, p);
    if s.procs[p].suspended { RefCounts(s, p, s.procs[p].fd); }
  }

  lemma WokenOne(s: Server, t: Server, ip: int, e: End, p: nat)
    requires WokenUpTo(s, t, ip, e, p) && p < |s.procs| && SleepsOn(s, p, ip, e)
    ensures p < |t.procs| && t.procs[p].suspended && !t.procs[p].revived
    ensures var u := t.(procs := t.procs[p := t.procs[p].(revived := true)], reviving := t.reviving + 1, suspCount := t.suspCount - 1);
      WokenUpTo(s, u, ip, e, p + 1) && Total(u.procs, Asleep) == Total(t.procs, Asleep) - 1
  {
    var q := t.procs[p].(revived := true);
    TotalUpdate(t.procs, p, q, Revived);
    TotalUpdate(t.procs, p, q, Asleep);
  }

  lemma WokenSkip(s: Server, t: Server, ip: int, e: End, p: nat)
    requires WokenUpTo(s, t, ip, e, p) && p < |s.procs| && !SleepsOn(s, p, ip, e)
    ensures WokenUpTo(s, t, ip, e, p + 1)
  {
  }

  /** When no process sleeps at all any more, the rest of the table need not be searched. */
  lemma NobodyLeft(s: Server, t: Server, ip: int, e: End, n: nat)
    requires WokenUpTo(s, t, ip, e, n) && Total(t.procs, Asleep) <= 0
    ensures Woken(s, t, ip, e)
  {
    forall p | n <= p < |s.procs| ensures !SleepsOn(s, p, ip, e) { TotalOne(t.procs, p, Asleep); }
  }
}
