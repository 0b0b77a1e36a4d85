module PipeCounts {
  /** Who has a count left over from a call that was never told it, over any run. */

  import opened Storage
  import opened Pipes
  import opened PipeTables
  import opened PipeCalls
  import opened PipeServer
  import opened PipeRuns
  import opened PipeExamples

  /** `left[p]` says of process `p` whether fp_cum_io_partial was not 0 when its last call was received,
      or, if it is in no call, is not 0. */
  ghost predicate LeftOk(left: seq<bool>, s: Server) {
    && |left| == |s.procs| == |s.carried|
    && forall p :: 0 <= p < |left| ==> (left[p] <==> (if s.procs[p].suspended then s.carried[p] else s.procs[p].partial) > 0)
  }

  /** A write call of process `p` has moved bytes and waits to move the rest. */
  predicate Underway(s: Server, p: nat)
    requires p < |s.procs| && p < |s.sent|
  {
    s.procs[p].suspended && s.procs[p].call == Writer && s.sent[p] != []
  }

  /** After a message: a count that is told is left over no more, a signal or an exit leaves the count
      of a write underway, and a child has what its parent has. */
  function LeftAfter(left: seq<bool>, s: Server, m: Message, reply: Reply): (r: seq<bool>)
    requires |left| == |s.procs| == |s.sent| && CanSend(s.procs, m)
    ensures |r| == |left|
  {
    match m
    case WriteMsg(who, _, data) => if reply.Count? && data != [] then left[who := false] else left
    case ReadMsg(who, _, _) => if reply.Got? && reply.bytes != [] then left[who := false] else left
    case UnpauseMsg(p) => if Underway(s, p) then left[p := true] else left
    case ExitMsg(p) => if Underway(s, p) then left[p := true] else left
    case ForkMsg(parent, child) => left[child := left[parent]]
    case _ => left
  }

  /** After calls were retried: a count that is told is left over no more, and an error leaves the count
      of the bytes that were moved. */
  ghost function LeftAnswered(left: seq<bool>, s: Server, t: Server, replies: seq<(nat, Reply)>): (r: seq<bool>)
    requires |left| == |s.procs| == |t.sent|
    ensures |r| == |left|
  {
    seq(|left|, p requires 0 <= p < |left| =>
      if exists j :: 0 <= j < |replies| && replies[j].0 == p && Told(replies[j].1) then false
      else if (exists j :: 0 <= j < |replies| && replies[j].0 == p) && s.procs[p].call == Writer && t.sent[p] != [] then true
      else left[p])
  }

  /** A call that is made. */
  lemma CallLeft(left: seq<bool>, s: Server, t: Server, pipeSize: nat, maxSize: nat, who: nat, fd: nat, flag: End, data: seq<byte>,
                 nbytes: nat, reply: Reply, k: nat)
    requires LeftOk(left, s) && who < |s.procs| == |s.whole| == |s.sent| && !s.procs[who].suspended && (flag == Writer ==> nbytes == |data|)
    requires Frame(Begun(s, who, data), t, who, fd, flag)
    requires CallResult(Begun(s, who, data), t, pipeSize, maxSize, who, fd, flag, data, nbytes, reply, k)
    ensures LeftOk(if nbytes > 0 && Told(reply) then left[who := false] else left, t)
  {
    var b := Begun(s, who, data);
    if nbytes > 0 { CountTold(b, t, pipeSize, maxSize, who, fd, flag, data, nbytes, reply, k); }
    CallEmpty(b, t, pipeSize, maxSize, who, fd, flag, data, nbytes, reply, k);
    hide CallResult;
    forall p | 0 <= p < |s.procs| && p != who
      ensures t.procs[p].partial == s.procs[p].partial && t.procs[p].suspended == s.procs[p].suspended && t.carried[p] == s.carried[p]
    {
      assert t.procs[p].(revived := false) == b.procs[p].(revived := false);
      assert t.procs[p].(revived := false).partial == t.procs[p].partial;
    }
  }

  lemma CallEmpty(s: Server, t: Server, pipeSize: nat, maxSize: nat, who: nat, fd: nat, flag: End, data: seq<byte>,
                  nbytes: nat, reply: Reply, k: nat)
    requires CallResult(s, t, pipeSize, maxSize, who, fd, flag, data, nbytes, reply, k)
    ensures who < |s.procs| == |t.procs| && (reply == Suspend_ <==> t.procs[who].suspended)
    ensures nbytes == 0 ==> t == s && reply != Suspend_
    ensures nbytes > 0 && flag == Writer && |data| == nbytes && !Told(reply) && reply != Suspend_ && who < |s.sent| ==>
      who < |t.sent| && t.sent[who] == s.sent[who]
    ensures t.carried == s.carried
  {
  }

  /** A call that is over without an answer. */
  lemma EndedLeft(left: seq<bool>, s: Server, t: Server, pipeSize: nat, p: nat)
    requires LeftOk(left, s) && Inv(s, pipeSize) && p < |s.procs| == |s.sent| && SameTallies(s, t, p) && !t.procs[p].suspended
    ensures LeftOk(if Underway(s, p) then left[p := true] else left, t)
  {
    hide Sleepers, Ends, NoLostWakeup, Fifo;
    if s.procs[p].suspended {
      assert ValidProc(s, p);
      assert Tallied(s, p, s.procs[p].call);
    }
  }

  lemma MessageLeft(left: seq<bool>, s: Server, t: Server, pipeSize: nat, maxSize: nat, m: Message, reply: Reply)
    requires LeftOk(left, s) && Inv(s, pipeSize) && CanSend(s.procs, m) && Served(s, t, pipeSize, maxSize, m, reply)
    ensures LeftOk(LeftAfter(left, s, m, reply), t)
  {
    hide Inv, CallResult, Frame, RoomForPipe, WokenFor;
    match m
    case ReadMsg(who, fd, nbytes) =>
      var k :| CallResult(Begun(s, who, []), t, pipeSize, maxSize, who, fd, Reader, [], nbytes, reply, k);
      CallLeft(left, s, t, pipeSize, maxSize, who, fd, Reader, [], nbytes, reply, k);
      ReadTold(Begun(s, who, []), t, pipeSize, maxSize, who, fd, nbytes, reply, k);
    case WriteMsg(who, fd, data) =>
      var k :| CallResult(Begun(s, who, data), t, pipeSize, maxSize, who, fd, Writer, data, |data|, reply, k);
      CallLeft(left, s, t, pipeSize, maxSize, who, fd, Writer, data, |data|, reply, k);
      WriteTold(Begun(s, who, data), t, pipeSize, maxSize, who, fd, data, reply, k);
    case CloseMsg(who, fd) => if OpenFd(s, who, fd) { ClosedTallies(s, t, who, fd); }
    case PipeMsg(who, inodeFree) =>
    case DupMsg(who, fd, start) =>
    case ForkMsg(parent, child) =>
    case FlagMsg(who, fd, nonblock) =>
    case UnpauseMsg(p) => EndedLeft(left, s, t, pipeSize, p);
    case ExitMsg(p) => EndedLeft(left, s, t, pipeSize, p);
  }

  lemma ReadTold(s: Server, t: Server, pipeSize: nat, maxSize: nat, who: nat, fd: nat, nbytes: nat, reply: Reply, k: nat)
    requires CallResult(s, t, pipeSize, maxSize, who, fd, Reader, [], nbytes, reply, k)
    ensures nbytes > 0 && Told(reply) <==> reply.Got? && reply.bytes != []
  {
  }

  lemma WriteTold(s: Server, t: Server, pipeSize: nat, maxSize: nat, who: nat, fd: nat, data: seq<byte>, reply: Reply, k: nat)
    requires CallResult(s, t, pipeSize, maxSize, who, fd, Writer, data, |data|, reply, k)
    ensures |data| > 0 && Told(reply) <==> reply.Count? && data != []
  {
  }

  lemma RetriesLeft(left: seq<bool>, s: Server, t: Server, replies: seq<(nat, Reply)>)
    requires LeftOk(left, s) && Answered(s, t, replies)
    ensures LeftOk(LeftAnswered(left, s, t, replies), t)
  {
    hide CountOk, SameFlags, Blocking;
    var next := LeftAnswered(left, s, t, replies);
    forall p | 0 <= p < |left|
      ensures next[p] <==> (if t.procs[p].suspended then t.carried[p] else t.procs[p].partial) > 0
    {
      if exists j :: 0 <= j < |replies| && replies[j].0 == p {
        var j :| 0 <= j < |replies| && replies[j].0 == p;
        assert AnswerOk(s, t, replies[j].0, replies[j].1);
        assert forall i :: 0 <= i < |replies| && replies[i].0 == p ==> i == j;
      }
    }
  }

  // ---------- Over a run ----------

  /** Turns of a server with `n` processes. */
  ghost predicate AllOk(turns: seq<Turn>, n: nat, pipeSize: nat, maxSize: nat) {
    forall i :: 0 <= i < |turns| ==> TurnOk(turns[i], pipeSize, maxSize) && |turns[i].s.procs| == n
  }

  /** The flags after the first `k` turns. */
  ghost function LeftAt(left: seq<bool>, turns: seq<Turn>, k: nat, pipeSize: nat, maxSize: nat): (r: seq<bool>)
    requires k <= |turns| && AllOk(turns, |left|, pipeSize, maxSize)
    ensures |r| == |left|
  {
    hide TurnOk;
    if k == 0 then left
    else
      var x := turns[k - 1];
      TurnSizes(x, pipeSize, maxSize);
      LeftAnswered(LeftAfter(LeftAt(left, turns, k - 1, pipeSize, maxSize), x.s, x.m, x.reply), x.mid, x.t, x.replies)
  }

  lemma TurnSizes(x: Turn, pipeSize: nat, maxSize: nat)
    requires TurnOk(x, pipeSize, maxSize)
    ensures |x.s.procs| == |x.s.sent| == |x.mid.procs| == |x.t.sent| == |x.t.procs| && CanSend(x.s.procs, x.m)
  {
    hide CallResult, Frame, Inv, RoomForPipe, WokenFor;
  }

  lemma {:induction false} TurnsSizes(s: Server, turns: seq<Turn>, t: Server, k: nat, pipeSize: nat, maxSize: nat)
    requires Turns(s, turns, t, pipeSize, maxSize) && k <= |turns|
    ensures forall i :: 0 <= i < k ==> |turns[i].s.procs| == |s.procs|
    ensures k < |turns| ==> |turns[k].s.procs| == |s.procs|
  {
    hide TurnOk;
    if k > 0 {
      TurnsSizes(s, turns, t, k - 1, pipeSize, maxSize);
      TurnSizes(turns[k - 1], pipeSize, maxSize);
    }
  }

  lemma TurnLeft(left: seq<bool>, x: Turn, pipeSize: nat, maxSize: nat)
    requires TurnOk(x, pipeSize, maxSize) && LeftOk(left, x.s)
    ensures |x.s.procs| == |x.s.sent| == |x.mid.procs| == |x.t.sent| == |left| && CanSend(x.s.procs, x.m)
    ensures LeftOk(LeftAnswered(LeftAfter(left, x.s, x.m, x.reply), x.mid, x.t, x.replies), x.t)
  {
    hide Served, Answered, Inv, LeftAnswered, LeftAfter, CanSend, LeftOk;
    TurnSizes(x, pipeSize, maxSize);
    LeftSize(left, x.s);
    MessageLeft(left, x.s, x.mid, pipeSize, maxSize, x.m, x.reply);
    RetriesLeft(LeftAfter(left, x.s, x.m, x.reply), x.mid, x.t, x.replies);
  }

  lemma LeftSize(left: seq<bool>, s: Server)
    requires LeftOk(left, s)
    ensures |left| == |s.procs| == |s.carried|
  {
  }

  /** Over any run the flags say who has a count left over: whoever's last call that moved bytes was a
      write that ended by an error, a signal or an exit, and whoever was forked by such a process. */
  lemma {:induction false} LeftThrough(left: seq<bool>, s: Server, turns: seq<Turn>, t: Server, k: nat, pipeSize: nat, maxSize: nat)
    requires Turns(s, turns, t, pipeSize, maxSize) && LeftOk(left, s) && k <= |turns|
    ensures AllOk(turns, |left|, pipeSize, maxSize)
    ensures LeftOk(LeftAt(left, turns, k, pipeSize, maxSize), if k == |turns| then t else turns[k].s)
  {
    hide TurnOk, LeftOk, LeftAnswered, LeftAfter;
    LeftSize(left, s);
    TurnsSizes(s, turns, t, |turns|, pipeSize, maxSize);
    if k > 0 {
      LeftThrough(left, s, turns, t, k - 1, pipeSize, maxSize);
      TurnLeft(LeftAt(left, turns, k - 1, pipeSize, maxSize), turns[k - 1], pipeSize, maxSize);
    }
  }

  /** In any run, from a server where the flags say it: a call is told the number of bytes it has moved
      if and only if nothing was left over when its message came. */
  lemma ToldRight(left: seq<bool>, s: Server, turns: seq<Turn>, t: Server, k: nat, pipeSize: nat, maxSize: nat)
    requires Turns(s, turns, t, pipeSize, maxSize) && LeftOk(left, s) && k < |turns|
    ensures AllOk(turns, |left|, pipeSize, maxSize)
    ensures var x, now := turns[k], LeftAt(left, turns, k, pipeSize, maxSize);
      && (x.m.WriteMsg? && x.m.data != [] && x.reply.Count? ==>
            x.m.who < |now| && x.m.who < |x.mid.sent| && (x.reply.n == |x.mid.sent[x.m.who]| <==> !now[x.m.who]))
      && (x.m.ReadMsg? && x.m.nbytes > 0 && x.reply.Got? && x.reply.bytes != [] ==>
            x.m.who < |now| && (x.reply.n == |x.reply.bytes| <==> !now[x.m.who]))
    ensures var x := turns[k];
      var now := LeftAt(left, turns, k, pipeSize, maxSize);
      |now| == |x.s.procs| == |x.s.sent| && CanSend(x.s.procs, x.m) &&
      var called := LeftAfter(now, x.s, x.m, x.reply);
      forall j :: 0 <= j < |x.replies| ==>
        var p, reply := x.replies[j].0, x.replies[j].1;
        && p < |called| && p < |x.t.sent|
        && (reply.Count? ==> (reply.n == |x.t.sent[p]| <==> !called[p]))
        && (reply.Got? && reply.bytes != [] ==> (reply.n == |reply.bytes| <==> !called[p]))
  {
    hide LeftAnswered, Inv, LeftAt, Answered, Served;
    LeftThrough(left, s, turns, t, k, pipeSize, maxSize);
    var x, now := turns[k], LeftAt(left, turns, k, pipeSize, maxSize);
    TurnSizes(x, pipeSize, maxSize);
    FreshCountRight(x.s, x.mid, pipeSize, maxSize, x.m, x.reply);
    MessageLeft(now, x.s, x.mid, pipeSize, maxSize, x.m, x.reply);
    if x.m.WriteMsg? || x.m.ReadMsg? { CallerAwake(x.s, x.m); }
    forall j | 0 <= j < |x.replies|
      ensures var p, reply := x.replies[j].0, x.replies[j].1; var called := LeftAfter(now, x.s, x.m, x.reply);
        && p < |called| && p < |x.t.sent|
        && (reply.Count? ==> (reply.n == |x.t.sent[p]| <==> !called[p]))
        && (reply.Got? && reply.bytes != [] ==> (reply.n == |reply.bytes| <==> !called[p]))
    {
      RevivedCountRight(x.mid, x.t, x.replies, j);
      AnsweredOne(x.mid, x.t, x.replies, j);
    }
  }

  lemma CallerAwake(s: Server, m: Message)
    requires CanSend(s.procs, m) && (m.WriteMsg? || m.ReadMsg?)
    ensures m.who < |s.procs| && !s.procs[m.who].suspended
  {
  }

  lemma AnsweredOne(s: Server, t: Server, replies: seq<(nat, Reply)>, j: nat)
    requires Answered(s, t, replies) && j < |replies|
    ensures replies[j].0 < |s.procs| == |t.procs| == |t.sent| && s.procs[replies[j].0].suspended
  {
    assert AnswerOk(s, t, replies[j].0, replies[j].1);
  }

  /** At the start nothing is left over. */
  lemma FreshLeft(s: Server)
    requires |s.carried| == |s.procs| && forall p :: 0 <= p < |s.procs| ==> !s.procs[p].suspended && s.procs[p].partial == 0
    ensures LeftOk(seq(|s.procs|, _ => false), s)
  {
  }
}
