module LockRuns {
  /** The lock table over whole runs: messages are served one after the other, and before the next
      one is received every revived process has made its request again. */

  import opened Storage
  import opened Locks
  import opened LockServer

  /** A call of fcntl, the closing of a file by the process with this id, a signal to a process, the exit
      of a process that has these files open, or a fork into a free slot. */
  datatype Message =
    | CallMsg(p: nat, call: Call) | CloseMsg(p: nat, ino: nat, pid: int) | SignalMsg(p: nat) | ExitMsg(p: nat, files: seq<nat>, pid: int)
    | ForkMsg(p: nat, child: nat)

  /** A process that waits sends nothing. */
  predicate CanSend(w: seq<Waiter>, m: Message) {
    && m.p < |w| && (m.SignalMsg? || m.ExitMsg? || !w[m.p].suspended)
    && (m.ForkMsg? ==> m.child < |w| && !w[m.child].suspended)
  }

  ghost function Reviving(w: seq<Waiter>): (s: set<nat>) {
    set p: nat | p < |w| && w[p].revived
  }

  /** Whom a retry leaves waiting: just those that are told so, with the call they had made. */
  ghost predicate Retried(w0: seq<Waiter>, w: seq<Waiter>, told: map<nat, Answer>) {
    && |w| == |w0|
    && forall p :: 0 <= p < |w| ==>
         if p in told then !w[p].revived && w[p].call == w0[p].call && (w[p].suspended <==> told[p] == SUSPEND)
         else w[p] == w0[p]
  }

  lemma RetriedNobody(w: seq<Waiter>)
    ensures Retried(w, w, map[]) && Reviving(w) == Reviving(w) - {}
  {
  }

  /** A call to set a lock concerns no process but its own. */
  lemma SetConcerns(t0: seq<Slot>, t: seq<Slot>, w0: seq<Waiter>, w: seq<Waiter>, p: nat, call: Call, at: Place, a: Answer)
    requires Served(t0, t, w0, w, p, call, at, a) && p < |w0| && call.req == SetLkW && call.ltype != UnlockType && !w0[p].suspended
    ensures |w| == |w0| && (forall q :: 0 <= q < |w| && q != p ==> w[q] == w0[q])
    ensures if a == SUSPEND then w[p].suspended && !w[p].revived && w[p].call == call else w[p] == w0[p]
  {
    hide Conflict, Added, FirstUnused;
  }

  lemma RetriedOne(w0: seq<Waiter>, w: seq<Waiter>, w1: seq<Waiter>, told: map<nat, Answer>, p: nat, a: Answer)
    requires Retried(w0, w, told) && p !in told
    requires p < |w| && |w1| == |w| && forall q :: 0 <= q < |w| && q != p ==> w1[q] == w[q]
    requires !w1[p].revived && w1[p].call == w[p].call && (w1[p].suspended <==> a == SUSPEND)
    ensures Retried(w0, w1, told[p := a])
  {
    var next := told[p := a];
    forall q | 0 <= q < |w1|
      ensures if q in next then !w1[q].revived && w1[q].call == w0[q].call && (w1[q].suspended <==> next[q] == SUSPEND)
              else w1[q] == w0[q]
    {
      assert w[q] == w[q];
    }
  }

  lemma OneFewer(w0: seq<Waiter>, w: seq<Waiter>, w1: seq<Waiter>, told: map<nat, Answer>, p: nat, a: Answer)
    requires told.Keys <= Reviving(w0) && Reviving(w) == Reviving(w0) - told.Keys
    requires p < |w| && w[p].revived && |w1| == |w| && (forall q :: 0 <= q < |w| && q != p ==> w1[q] == w[q]) && !w1[p].revived
    ensures told[p := a].Keys <= Reviving(w0) && Reviving(w1) == Reviving(w0) - told[p := a].Keys
    ensures p !in told && |Reviving(w1)| < |Reviving(w)|
  {
    assert p in Reviving(w);
    assert Reviving(w1) == Reviving(w) - {p};
    assert told[p := a].Keys == told.Keys + {p};
  }

  lemma NobodyRevived(w: seq<Waiter>, w0: seq<Waiter>, told: map<nat, Answer>)
    requires forall q :: 0 <= q < |w| ==> !w[q].revived
    requires Reviving(w) == Reviving(w0) - told.Keys && told.Keys <= Reviving(w0)
    ensures Reviving(w) == {} && told.Keys == Reviving(w0)
  {
    assert Reviving(w) == {};
    assert Reviving(w0) - told.Keys == {};
    forall p | p in Reviving(w0) ensures p in told.Keys {
      assert p !in Reviving(w0) - told.Keys;
    }
  }

  /** The table and the processes at some time. */
  datatype State = State(slots: seq<Slot>, waiters: seq<Waiter>)

  /** The first process being revived makes its request again. */
  ghost predicate RetriedNext(s: State, t: State, p: nat, at: Place, a: Answer) {
    && p < |s.waiters| && s.waiters[p].revived && (forall q :: 0 <= q < p ==> !s.waiters[q].revived)
    && Served(s.slots, t.slots, s.waiters[p := s.waiters[p].(suspended := false, revived := false)], t.waiters, p,
              s.waiters[p].call, at, a)
  }

  /** The processes in `order` are served one after the other, and told what they are told. */
  ghost predicate RetriedAll(s: State, t: State, told: map<nat, Answer>, place: (nat, nat) -> Place, turn: nat) {
    exists order: seq<nat>, trace: seq<State> :: RetriedThrough(s, t, told, place, turn, order, trace)
  }

  ghost predicate RetriedThrough(s: State, t: State, told: map<nat, Answer>, place: (nat, nat) -> Place, turn: nat,
                                 order: seq<nat>, trace: seq<State>) {
    && |trace| == |order| + 1 && trace[0] == s && trace[|order|] == t
    && (forall p :: p in told <==> p in order)
    && forall i :: 0 <= i < |order| ==>
         order[i] in told && RetriedNext(trace[i], trace[i + 1], order[i], place(turn, order[i]), told[order[i]])
  }

  lemma RetriedNone(s: State, place: (nat, nat) -> Place, turn: nat)
    ensures RetriedAll(s, s, map[], place, turn)
  {
    assert RetriedThrough(s, s, map[], place, turn, [], [s]);
  }

  lemma RetriedMore(s: State, t: State, u: State, told: map<nat, Answer>, place: (nat, nat) -> Place, turn: nat, p: nat, a: Answer)
    requires RetriedAll(s, t, told, place, turn) && p !in told && RetriedNext(t, u, p, place(turn, p), a)
    ensures RetriedAll(s, u, told[p := a], place, turn)
  {
    hide RetriedNext;
    var order: seq<nat>, trace: seq<State> :| RetriedThrough(s, t, told, place, turn, order, trace);
    var order', trace' := order + [p], trace + [u];
    forall i | 0 <= i < |order'|
      ensures order'[i] in told[p := a]
      ensures RetriedNext(trace'[i], trace'[i + 1], order'[i], place(turn, order'[i]), told[p := a][order'[i]])
    {
      if i < |order| { assert order'[i] == order[i] && trace'[i] == trace[i] && trace'[i + 1] == trace[i + 1]; }
    }
    forall q ensures q in told[p := a] <==> q in order' {}
    assert RetriedThrough(s, u, told[p := a], place, turn, order', trace');
  }

  /** The first process being revived. */
  method FindRevived(lt: LockTable) returns (p: nat)
    ensures p <= |lt.waiters| && (p < |lt.waiters| ==> lt.waiters[p].revived) && forall q :: 0 <= q < p ==> !lt.waiters[q].revived
  {
    p := 0;
    while p < |lt.waiters| && !lt.waiters[p].revived
      invariant p <= |lt.waiters| && forall q :: 0 <= q < p ==> !lt.waiters[q].revived
    {
      p := p + 1;
    }
  }

  /** get_work as long as processes are being revived: each of them is served once and either gets an
      answer or waits again, now for a lock that is in its way. */
  method Quiesce(lt: LockTable, place: (nat, nat) -> Place, turn: nat) returns (told: map<nat, Answer>)
    requires lt.Valid()
    modifies lt
    ensures lt.Valid() && |lt.slots| == |old(lt.slots)|
    ensures Reviving(lt.waiters) == {} && told.Keys == Reviving(old(lt.waiters)) && Retried(old(lt.waiters), lt.waiters, told)
    ensures RetriedAll(State(old(lt.slots), old(lt.waiters)), State(lt.slots, lt.waiters), told, place, turn)
    ensures old(lt.NoLostWakeup()) ==> lt.NoLostWakeup()
  {
    hide Safe, Used, Served, Conflict, Retried, Reviving, NoneLost, RetriedAll;
    ghost var s := State(lt.slots, lt.waiters);
    RetriedNone(s, place, turn);
    told := map[];
    ghost var w0 := lt.waiters;
    RetriedNobody(w0);
    while true
      invariant lt.Valid() && |lt.slots| == |old(lt.slots)| && Retried(w0, lt.waiters, told)
      invariant Reviving(lt.waiters) == Reviving(w0) - told.Keys && told.Keys <= Reviving(w0)
      invariant RetriedAll(s, State(lt.slots, lt.waiters), told, place, turn)
      invariant old(lt.NoLostWakeup()) ==> lt.NoLostWakeup()
      decreases |Reviving(lt.waiters)|
    {
      var p := FindRevived(lt);
      if p == |lt.waiters| {
        NobodyRevived(lt.waiters, w0, told);
        return;
      }
      ghost var t, w := lt.slots, lt.waiters;
      assert Waits(w[p]);
      var a := lt.Retry(p, place(turn, p));
      SetConcerns(t, lt.slots, w[p := w[p].(suspended := false, revived := false)], lt.waiters, p, w[p].call, place(turn, p), a);
      OneFewer(w0, w, lt.waiters, told, p, a);
      RetriedOne(w0, w, lt.waiters, told, p, a);
      RetriedMore(s, State(t, w), State(lt.slots, lt.waiters), told, place, turn, p, a);
      told := told[p := a];
    }
  }

  /** The locks of one process on these files are gone, and no others. */
  ghost predicate DroppedAll(t0: seq<Slot>, t: seq<Slot>, files: seq<nat>, pid: int) {
    && |t| == |t0|
    && forall i :: 0 <= i < |t| ==> t[i] == if OwnedAny(t0[i], files, pid) then t0[i].(kind := Unused) else t0[i]
  }

  predicate OwnedAny(s: Slot, files: seq<nat>, pid: int) {
    s.ino in files && Owned(s, s.ino, pid)
  }

  predicate AnyOwned(t: seq<Slot>, files: seq<nat>, pid: int) {
    exists i :: 0 <= i < |t| && OwnedAny(t[i], files, pid)
  }

  lemma DropNext(t0: seq<Slot>, t: seq<Slot>, u: seq<Slot>, files: seq<nat>, n: nat, pid: int)
    requires n < |files| && DroppedAll(t0, t, files[..n], pid) && Dropped(t, u, files[n], pid)
    ensures DroppedAll(t0, u, files[..n + 1], pid)
    ensures AnyOwned(t0, files[..n + 1], pid) <==> AnyOwned(t0, files[..n], pid) || exists i :: 0 <= i < |t| && Owned(t[i], files[n], pid)
  {
    assert files[..n + 1] == files[..n] + [files[n]];
    forall i | 0 <= i < |t0|
      ensures OwnedAny(t0[i], files[..n + 1], pid) <==> OwnedAny(t0[i], files[..n], pid) || Owned(t[i], files[n], pid)
    {
    }
    if exists i :: 0 <= i < |t| && Owned(t[i], files[n], pid) {
      var i :| 0 <= i < |t| && Owned(t[i], files[n], pid);
      assert OwnedAny(t0[i], files[..n + 1], pid);
    }
    if AnyOwned(t0, files[..n], pid) {
      var i :| 0 <= i < |t0| && OwnedAny(t0[i], files[..n], pid);
      assert OwnedAny(t0[i], files[..n + 1], pid);
    }
  }

  lemma RevivedThen(a: seq<Waiter>, b: seq<Waiter>, c: seq<Waiter>, r: bool, s: bool)
    requires Revived(a, b, r) && Revived(b, c, s)
    ensures Revived(a, c, r || s)
  {
  }

  /** do_exit, as far as locks go: the process waits no more, and every file it has open is closed. */
  method Exit(lt: LockTable, p: nat, files: seq<nat>, pid: int)
    requires lt.Valid() && p < |lt.waiters| && !lt.waiters[p].revived
    modifies lt
    ensures lt.Valid() && |lt.waiters| == |old(lt.waiters)| && |lt.slots| == |old(lt.slots)|
    ensures DroppedAll(old(lt.slots), lt.slots, files, pid)
    ensures Revived(old(lt.waiters)[p := old(lt.waiters)[p].(suspended := false)], lt.waiters, AnyOwned(old(lt.slots), files, pid))
    ensures old(lt.NoLostWakeup()) ==> lt.NoLostWakeup()
  {
    hide Safe, Used, Conflict, Dropped, DroppedAll, NoneLost, Revived, AnyOwned;
    ghost var t0 := lt.slots;
    lt.Unpause(p);
    ghost var w0 := lt.waiters;
    NothingDropped(t0, w0, files, pid);
    var i := 0;
    while i < |files|
      invariant i <= |files| && lt.Valid() && |lt.waiters| == |w0| && |lt.slots| == |t0|
      invariant DroppedAll(t0, lt.slots, files[..i], pid) && Revived(w0, lt.waiters, AnyOwned(t0, files[..i], pid))
      invariant old(lt.NoLostWakeup()) ==> lt.NoLostWakeup()
    {
      ghost var t, w := lt.slots, lt.waiters;
      lt.CloseLocks(files[i], pid);
      DropNext(t0, t, lt.slots, files, i, pid);
      RevivedThen(w0, w, lt.waiters, AnyOwned(t0, files[..i], pid), exists j :: 0 <= j < |t| && Owned(t[j], files[i], pid));
      i := i + 1;
    }
    assert files[..i] == files;
  }

  lemma NothingDropped(t: seq<Slot>, w: seq<Waiter>, files: seq<nat>, pid: int)
    ensures DroppedAll(t, t, files[..0], pid) && !AnyOwned(t, files[..0], pid) && Revived(w, w, false)
  {
  }

  /** What one message does, and what it is answered. */
  ghost predicate Handled(s: State, t: State, m: Message, at: Place, a: Answer) {
    match m
    case CallMsg(p, call) => Served(s.slots, t.slots, s.waiters, t.waiters, p, call, at, a)
    case CloseMsg(_, ino, pid) =>
      && a == OK && Dropped(s.slots, t.slots, ino, pid)
      && Revived(s.waiters, t.waiters, exists i :: 0 <= i < |s.slots| && Owned(s.slots[i], ino, pid))
    case SignalMsg(p) =>
      p < |s.waiters| && a == OK && t.slots == s.slots && t.waiters == s.waiters[p := s.waiters[p].(suspended := false)]
    case ForkMsg(p, child) =>
      p < |s.waiters| && child < |s.waiters| && a == OK && t.slots == s.slots && t.waiters == s.waiters[child := s.waiters[p]]
    case ExitMsg(p, files, pid) =>
      && p < |s.waiters| && a == OK && DroppedAll(s.slots, t.slots, files, pid)
      && Revived(s.waiters[p := s.waiters[p].(suspended := false)], t.waiters, AnyOwned(s.slots, files, pid))
  }

  /** One message. */
  method Handle(lt: LockTable, m: Message, at: Place) returns (a: Answer)
    requires lt.Valid() && CanSend(lt.waiters, m) && Reviving(lt.waiters) == {}
    modifies lt
    ensures lt.Valid() && |lt.waiters| == |old(lt.waiters)| && |lt.slots| == |old(lt.slots)|
    ensures Handled(State(old(lt.slots), old(lt.waiters)), State(lt.slots, lt.waiters), m, at, a)
    ensures old(lt.NoLostWakeup()) ==> (lt.NoLostWakeup() <==> !(m.CallMsg? && Loses(old(lt.slots), old(lt.waiters), m.call, at)))
  {
    hide Safe, Used, Served, Conflict, Dropped, NoneLost, Loses, Revived;
    match m
    case CallMsg(p, call) => a := lt.LockOp(p, call, at);
    case CloseMsg(_, ino, pid) =>
      lt.CloseLocks(ino, pid);
      a := OK;
    case SignalMsg(p) =>
      assert p !in Reviving(lt.waiters);
      lt.Unpause(p);
      a := OK;
    case ExitMsg(p, files, pid) =>
      assert p !in Reviving(lt.waiters);
      Exit(lt, p, files, pid);
      a := OK;
    case ForkMsg(parent, child) =>
      lt.Fork(parent, child);
      a := OK;
  }

  /** One turn of the server's loop: the message is served, and then whoever is revived by it. */
  ghost predicate Turn(s: State, t: State, m: Message, place: (nat, nat) -> Place, turn: nat, a: Answer) {
    var w := s.waiters;
    var sends := m.p < |w| && (m.SignalMsg? || m.ExitMsg? || !w[m.p].suspended) && (m.ForkMsg? ==> m.child < |w| && !w[m.child].suspended);
    if sends then
      exists mid: State, told: map<nat, Answer> :: Handled(s, mid, m, place(turn, m.p), a) && RetriedAll(mid, t, told, place, turn)
    else t == s && a == OK
  }

  /** The turns follow on each other. */
  ghost predicate Turns(s: State, t: State, messages: seq<Message>, place: (nat, nat) -> Place, answers: seq<Answer>) {
    exists trace: seq<State> :: TurnsThrough(s, t, messages, place, answers, trace)
  }

  ghost predicate TurnsThrough(s: State, t: State, messages: seq<Message>, place: (nat, nat) -> Place, answers: seq<Answer>, trace: seq<State>) {
    && |trace| == |answers| + 1 <= |messages| + 1 && trace[0] == s && trace[|answers|] == t
    && forall i :: 0 <= i < |answers| ==> Turn(trace[i], trace[i + 1], messages[i], place, i, answers[i])
  }

  lemma TurnsNone(s: State, messages: seq<Message>, place: (nat, nat) -> Place)
    ensures Turns(s, s, messages, place, [])
  {
    assert TurnsThrough(s, s, messages, place, [], [s]);
  }

  lemma TurnsMore(s: State, t: State, u: State, messages: seq<Message>, place: (nat, nat) -> Place, answers: seq<Answer>, a: Answer)
    requires Turns(s, t, messages, place, answers) && |answers| < |messages| && Turn(t, u, messages[|answers|], place, |answers|, a)
    ensures Turns(s, u, messages, place, answers + [a])
  {
    hide Turn;
    var trace: seq<State> :| TurnsThrough(s, t, messages, place, answers, trace);
    assert TurnsThrough(s, u, messages, place, answers + [a], trace + [u]);
  }

  /** Any sequence of messages.  At every receive, and at the end, the table is safe and nobody is
      left to be revived; and if no unlock ran out of slots, nobody waits for a lock that nothing
      keeps it from. */
  method Run(lt: LockTable, messages: seq<Message>, place: (nat, nat) -> Place) returns (answers: seq<Answer>)
    requires lt.Valid() && lt.NoLostWakeup() && Reviving(lt.waiters) == {}
    modifies lt
    ensures lt.Valid() && Reviving(lt.waiters) == {} && |answers| == |messages|
    ensures (forall i :: 0 <= i < |messages| && messages[i].CallMsg? && messages[i].call.ltype == UnlockType ==> answers[i] != ENOLCK) ==>
      lt.NoLostWakeup()
    ensures Turns(State(old(lt.slots), old(lt.waiters)), State(lt.slots, lt.waiters), messages, place, answers)
    ensures forall i, j :: 0 <= i < |lt.slots| && 0 <= j < |lt.slots| ==>
      (var s, t := lt.slots[i], lt.slots[j];
      s.kind != Unused && t.kind != Unused && s.ino == t.ino && s.pid != t.pid && s.first <= t.last && t.first <= s.last ==>
        s.kind == ReadLock && t.kind == ReadLock)
  {
    hide Safe, Used, Served, Conflict, Retried, Reviving, NoneLost, Loses, Dropped, Revived, Turns, RetriedAll, Handled;
    ghost var s := State(lt.slots, lt.waiters);
    TurnsNone(s, messages, place);
    answers := [];
    while |answers| < |messages|
      invariant |answers| <= |messages| && lt.Valid() && Reviving(lt.waiters) == {}
      invariant (forall i :: 0 <= i < |answers| && messages[i].CallMsg? && messages[i].call.ltype == UnlockType ==> answers[i] != ENOLCK) ==>
        lt.NoLostWakeup()
      invariant Turns(s, State(lt.slots, lt.waiters), messages, place, answers)
    {
      var i, a := |answers|, OK;
      ghost var t0 := State(lt.slots, lt.waiters);
      if CanSend(lt.waiters, messages[i]) {
        ghost var t, w := lt.slots, lt.waiters;
        a := Handle(lt, messages[i], place(i, messages[i].p));
        ghost var mid := State(lt.slots, lt.waiters);
        if messages[i].CallMsg? {
          HandledCall(t0, mid, messages[i], place(i, messages[i].p), a);
          LosesFails(t, lt.slots, w, lt.waiters, messages[i].p, messages[i].call, place(i, messages[i].p), a);
        }
        var told := Quiesce(lt, place, i);
        assert Handled(t0, mid, messages[i], place(i, messages[i].p), a) && RetriedAll(mid, State(lt.slots, lt.waiters), told, place, i);
      }
      TurnsMore(s, t0, State(lt.slots, lt.waiters), messages, place, answers, a);
      answers := answers + [a];
      assert answers[i] == a;
    }
    SafeSays(lt.slots);
  }

  /** Overlapping locks of different processes are read locks. */
  lemma SafeSays(slots: seq<Slot>)
    requires Safe(slots)
    ensures forall i, j :: 0 <= i < |slots| && 0 <= j < |slots| ==>
      (var s, t := slots[i], slots[j];
      s.kind != Unused && t.kind != Unused && s.ino == t.ino && s.pid != t.pid && s.first <= t.last && t.first <= s.last ==>
        s.kind == ReadLock && t.kind == ReadLock)
  {
    forall i, j | 0 <= i < |slots| && 0 <= j < |slots| ensures Together(slots[i], slots[j]) {}
  }

  lemma HandledCall(s: State, t: State, m: Message, at: Place, a: Answer)
    requires Handled(s, t, m, at, a) && m.CallMsg?
    ensures Served(s.slots, t.slots, s.waiters, t.waiters, m.p, m.call, at, a)
  {}

  /** A lost wakeup is the fault of an unlock that is answered ENOLCK. */
  lemma LosesFails(t0: seq<Slot>, t: seq<Slot>, w0: seq<Waiter>, w: seq<Waiter>, p: nat, call: Call, at: Place, a: Answer)
    requires Served(t0, t, w0, w, p, call, at, a)
    ensures Loses(t0, w0, call, at) ==> call.ltype == UnlockType && a == ENOLCK
  {
  }

  /** An unlock or a close that takes away any lock makes up for wakeups lost before it. */
  lemma RevivedLosesNone(t: seq<Slot>, w0: seq<Waiter>, w: seq<Waiter>)
    requires Revived(w0, w, true)
    ensures NoneLost(t, w)
  {
  }

  /** What the invariants mean to a process that waits, at the time of a receive. */
  lemma AtReceive(t: seq<Slot>, w: seq<Waiter>, p: nat)
    requires NoneLost(t, w) && Reviving(w) == {} && p < |w| && w[p].suspended
    ensures exists i :: 0 <= i < |t| && Blocks(t[i], w[p].range, KindOf(w[p].call.ltype), w[p].call.pid)
  {
    assert p !in Reviving(w);
  }

  // ---------- A lost wakeup ----------

  const SOMEWHERE := Place(0, 0)

  /** fcntl by process `pid` on bytes of file 0. */
  function Ask(pid: int, req: Request, ltype: Type, start: Offset, len: Offset): Call {
    Call(pid, req, ltype, true, true, true, SeekSet, start, len, 0)
  }

  /** The table is full: process 1 has bytes 5 to 9 for reading, process 2 has bytes 0 to 20. */
  function FullTable(): seq<Slot> {
    [Slot(ReadLock, 1, 0, 5, 9), Slot(ReadLock, 2, 0, 0, 20)]
  }

  /** Process 2 waits to write byte 5. */
  function OneWaits(free: Waiter): seq<Waiter> {
    [free, Waiter(true, false, Range(0, 5, 5), Ask(2, SetLkW, WriteType, 5, 1))]
  }

  lemma FullRunsOut()
    ensures Short(FullTable(), Range(0, 5, 6), 0) == 1 && RunsOut(FullTable(), Range(0, 5, 6))
  {
    var t, r := FullTable(), Range(0, 5, 6);
    assert t[..1] == [t[0]] && t[..1][..0] == [] && Used(t[..1]) == 1;
    assert !Splits(t[0], r) && !Inside(t[0], r) && Spare(t, r, 0) == 0 && Spare(t, r, 1) == 0;
    assert Stuck(t, r, 1);
  }

  /** Two locks, a waiter and an unlock for which the wakeup is lost: unlocking bytes 5 and 6 cannot
      split the second lock, and has by then trimmed the only lock in the waiter's way. */
  lemma FullTableLoses(free: Waiter)
    requires !free.suspended
    ensures NoneLost(FullTable(), OneWaits(free))
    ensures Loses(FullTable(), OneWaits(free), Ask(1, SetLk, UnlockType, 5, 2), SOMEWHERE)
  {
    var t, w, r := FullTable(), OneWaits(free), Range(0, 5, 6);
    assert Blocks(t[0], w[1].range, WriteLock, 2);
    FullRunsOut();
    assert !KeptFrom(t, r, 1, w[1].range, WriteLock, 2);
    assert w[1].suspended && !w[1].revived;
  }

  lemma FillsFirst(s: Slot)
    requires s.kind != Unused
    ensures FirstUnused([FREE, FREE], 0) == 0 && FirstUnused([s, FREE], 0) == 1
  {
  }

  /** A run that gets there: both locks are set, and process 2 waits for a good reason. */
  method FillTable() returns (lt: LockTable, answers: seq<Answer>)
    ensures fresh(lt) && lt.Valid() && lt.NoLostWakeup() && answers == [OK, OK, SUSPEND]
    ensures lt.slots == FullTable() && |lt.waiters| == 2 && !lt.waiters[0].suspended && lt.waiters == OneWaits(lt.waiters[0])
  {
    hide Safe, Used, NoneLost, FirstUnused;
    lt := new LockTable(2, 2);
    assert lt.slots == [FREE, FREE];
    FillsFirst(FullTable()[0]);
    var a := lt.LockOp(0, Ask(1, SetLk, ReadType, 5, 5), SOMEWHERE);
    assert lt.slots == [FullTable()[0], FREE];
    var b := lt.LockOp(1, Ask(2, SetLk, ReadType, 0, 21), SOMEWHERE);
    assert lt.slots == FullTable();
    assert Blocks(lt.slots[0], Range(0, 5, 5), WriteLock, 2);
    var c := lt.LockOp(1, Ask(2, SetLkW, WriteType, 5, 1), SOMEWHERE);
    assert lt.waiters == OneWaits(lt.waiters[0]);
    answers := [a, b, c];
  }

  /** Then process 1 unlocks two bytes: process 2 waits although nothing is in its way any more, and
      nobody revives it. */
  method LoseWakeup(lt: LockTable) returns (a: Answer)
    requires lt.Valid() && lt.slots == FullTable()
    requires |lt.waiters| > 0 && !lt.waiters[0].suspended && lt.waiters == OneWaits(lt.waiters[0])
    modifies lt
    ensures old(lt.NoLostWakeup()) && a == ENOLCK && lt.waiters == old(lt.waiters) && !lt.NoLostWakeup()
    ensures !Conflict(lt.slots, Range(0, 5, 5), WriteLock, 2)
  {
    hide Safe, Used, NoneLost, Conflict, Loses;
    FullTableLoses(lt.waiters[0]);
    FullRunsOut();
    ghost var w := lt.waiters;
    a := lt.LockOp(0, Ask(1, SetLk, UnlockType, 5, 2), SOMEWHERE);
    OnlyOneWaits(lt.slots, w[0]);
  }

  lemma OnlyOneWaits(t: seq<Slot>, free: Waiter)
    requires !free.suspended && !NoneLost(t, OneWaits(free))
    ensures !Conflict(t, Range(0, 5, 5), WriteLock, 2)
  {
    hide Conflict;
  }
}
