module KernelTimers {
  /** The kernel's timers: one list of active timers, and a list of expired ones for each task. */

  import opened Storage
  import opened Timers

  /** TMR_NEVER, in the expiry time of a timer that is not armed. */
  const NEVER: int := 0x7FFF_FFFF

  datatype Command = Set(t: nat, task: nat, time: int) | Clear(t: nat)

  /** The lists and the two fields of each timer that say where it belongs. */
  datatype Lists = Lists(timers: seq<nat>, exptimers: seq<seq<nat>>, exp: seq<int>, task: seq<nat>)

  predicate OnExpired(l: Lists, t: nat) {
    t < |l.task| && l.task[t] < |l.exptimers| && t in l.exptimers[l.task[t]]
  }

  /** A timer that is armed is on exactly one list: the active one, or its task's expired one. */
  ghost predicate Placed(l: Lists, t: nat)
    requires t < |l.exp| == |l.task|
  {
    && (l.exp[t] != NEVER <==> t in l.timers || OnExpired(l, t))
    && (t in l.timers ==> !OnExpired(l, t) && l.task[t] < |l.exptimers|)
    && forall k :: 0 <= k < |l.exptimers| && t in l.exptimers[k] ==> k == l.task[t]
  }

  ghost predicate AllPlaced(l: Lists) {
    |l.exp| == |l.task| && forall t :: 0 <= t < |l.exp| ==> Placed(l, t)
  }

  ghost predicate Proper(l: Lists) {
    && Sorted(l.timers, l.exp) && NoDup(l.timers)
    && forall k :: 0 <= k < |l.exptimers| ==> NoDup(l.exptimers[k]) && forall x :: x in l.exptimers[k] ==> x < |l.exp|
  }

  ghost predicate Inv(l: Lists) {
    AllPlaced(l) && Proper(l)
  }

  /** Timer `x` is where it was. */
  ghost predicate SameTimer(l: Lists, m: Lists, x: nat) {
    && |m.exp| == |l.exp| && |m.task| == |l.task| && |m.exptimers| == |l.exptimers|
    && (x < |l.exp| && x < |l.task| ==> m.exp[x] == l.exp[x] && m.task[x] == l.task[x])
    && (x in m.timers <==> x in l.timers)
    && forall k :: 0 <= k < |l.exptimers| ==> (x in m.exptimers[k] <==> x in l.exptimers[k])
  }

  predicate Handles(commands: seq<Command>, x: nat) {
    exists i :: 0 <= i < |commands| && commands[i].t == x
  }

  /** Some timer function sets or clears timer `x`. */
  predicate Handled(scripts: seq<seq<Command>>, x: nat) {
    exists k :: 0 <= k < |scripts| && Handles(scripts[k], x)
  }

  /** No function touches a timer exactly if it is not the timer of any command. */
  lemma NotHandledIs(scripts: seq<seq<Command>>, x: nat)
    ensures !Handled(scripts, x) <==> forall k, i :: 0 <= k < |scripts| && 0 <= i < |scripts[k]| ==> scripts[k][i].t != x
  {
    if k, i :| 0 <= k < |scripts| && 0 <= i < |scripts[k]| && scripts[k][i].t == x {
      assert Handles(scripts[k], x);
    }
  }

  lemma HandlesMore(commands: seq<Command>, i: nat)
    requires i < |commands|
    ensures forall x :: Handles(commands[..i], x) || x == commands[i].t ==> Handles(commands[..i + 1], x)
  {
    var more := commands[..i + 1];
    assert more[i].t == commands[i].t;
    forall x | Handles(commands[..i], x) ensures Handles(more, x) {
      var k :| 0 <= k < i && commands[..i][k].t == x;
      assert more[k].t == x;
    }
  }

  /** Timers that no function touches, while task `self` goes through its expired timers: the ones in
      `called` are off, everything else is where it was. */
  ghost predicate Ran(l: Lists, m: Lists, self: nat, called: seq<nat>, x: nat) {
    && self < |m.exptimers| == |l.exptimers| && |m.exp| == |l.exp| == |m.task| == |l.task|
    && (x < |l.exp| ==>
      var gone := x in l.exptimers[self] && x !in m.exptimers[self];
      && m.exp[x] == (if gone then NEVER else l.exp[x]) && m.task[x] == l.task[x]
      && multiset(called)[x] == if gone then 1 else 0)
    && (x in m.timers <==> x in l.timers) && (x in m.exptimers[self] ==> x in l.exptimers[self])
    && forall k :: 0 <= k < |l.exptimers| && k != self ==> (x in m.exptimers[k] <==> x in l.exptimers[k])
  }

  /** The first timer on the expired list of a task is taken off and is not armed any more. */
  function Popped(l: Lists, self: nat): Lists
    requires self < |l.exptimers| && l.exptimers[self] != [] && l.exptimers[self][0] < |l.exp|
  {
    l.(exptimers := l.exptimers[self := l.exptimers[self][1..]], exp := l.exp[l.exptimers[self][0] := NEVER])
  }

  lemma SameItself(l: Lists)
    ensures forall x: nat :: SameTimer(l, l, x)
  {}

  lemma SameThen(l: Lists, m: Lists, n: Lists, x: nat)
    requires SameTimer(l, m, x) && SameTimer(m, n, x)
    ensures SameTimer(l, n, x)
  {}

  lemma RanMore(l: Lists, m: Lists, n: Lists, self: nat, called: seq<nat>, x: nat)
    requires Ran(l, m, self, called, x) && |m.exptimers[self]| > 0 && NoDup(m.exptimers[self]) && m.exptimers[self][0] < |m.exp|
    requires SameTimer(Popped(m, self), n, x)
    ensures Ran(l, n, self, called + [m.exptimers[self][0]], x)
  {
    var t := m.exptimers[self][0];
    assert m.exptimers[self] == [t] + m.exptimers[self][1..];
    assert t !in m.exptimers[self][1..];
    assert multiset(called + [t])[x] == multiset(called)[x] + if x == t then 1 else 0;
  }

  // ---------- What a run of timer functions does ----------

  /** The timer is taken off every list, whatever the order of the others, which stays. */
  ghost predicate OffLists(l: Lists, m: Lists, t: nat) {
    && TakenOut(l.timers, m.timers, t) && |m.exptimers| == |l.exptimers|
    && forall k :: 0 <= k < |l.exptimers| ==> TakenOut(l.exptimers[k], m.exptimers[k], t)
  }

  /** The place of a timer on the active list: behind all that do not expire later. */
  ghost predicate GoesBehind(w: seq<nat>, exp: seq<int>, time: int, i: nat) {
    && i <= |w| && (forall k :: 0 <= k < |w| ==> w[k] < |exp|)
    && (forall k :: 0 <= k < i ==> exp[w[k]] <= time) && forall k :: i <= k < |w| ==> exp[w[k]] > time
  }

  /** tmr_settimer takes the timer off its list and puts it where it belongs; tmr_clrtimer takes it off. */
  ghost predicate Obeyed(l: Lists, m: Lists, c: Command) {
    if !(c.t < |l.exp| == |l.task|) then m == l
    else match c
      case Set(t, tk, time) =>
        if tk < |l.exptimers| && time < NEVER then
          && m.exp == l.exp[t := time] && m.task == l.task[t := tk]
          && exists w: seq<nat>, i: nat ::
               OffLists(l, m.(timers := w), t) && GoesBehind(w, l.exp, time, i) && m.timers == w[..i] + [t] + w[i..]
        else m == l
      case Clear(t) =>
        if l.task[t] < |l.exptimers| then OffLists(l, m, t) && m.exp == l.exp[t := NEVER] && m.task == l.task else m == l
  }

  /** All commands, one after the other, through the states of `trace`. */
  ghost predicate ObeyedAll(l: Lists, m: Lists, commands: seq<Command>) {
    exists trace: seq<Lists> :: ObeyedThrough(l, m, commands, trace)
  }

  ghost predicate ObeyedThrough(l: Lists, m: Lists, commands: seq<Command>, trace: seq<Lists>) {
    && |trace| == |commands| + 1 && trace[0] == l && trace[|commands|] == m
    && forall i :: 0 <= i < |commands| ==> Obeyed(trace[i], trace[i + 1], commands[i])
  }

  /** Each of the timers called was the first expired one of the task; it is taken off and not armed any
      more, and its function does what its script says. */
  ghost predicate RunAll(l: Lists, m: Lists, self: nat, called: seq<nat>, scripts: seq<seq<Command>>) {
    exists trace: seq<Lists> :: RunThrough(l, m, self, called, scripts, trace)
  }

  ghost predicate RunThrough(l: Lists, m: Lists, self: nat, called: seq<nat>, scripts: seq<seq<Command>>, trace: seq<Lists>) {
    && |trace| == |called| + 1 && trace[0] == l && trace[|called|] == m
    && forall i :: 0 <= i < |called| ==> RunNext(trace[i], trace[i + 1], self, called[i], if i < |scripts| then scripts[i] else [])
  }

  ghost predicate RunNext(l: Lists, m: Lists, self: nat, t: nat, script: seq<Command>) {
    && self < |l.exptimers| && l.exptimers[self] != [] && l.exptimers[self][0] == t < |l.exp|
    && ObeyedAll(l.(exptimers := l.exptimers[self := l.exptimers[self][1..]], exp := l.exp[t := NEVER]), m, script)
  }

  lemma ObeyedMore(l: Lists, m: Lists, n: Lists, commands: seq<Command>, i: nat)
    requires i < |commands| && ObeyedAll(l, m, commands[..i]) && Obeyed(m, n, commands[i])
    ensures ObeyedAll(l, n, commands[..i + 1])
  {
    hide Obeyed;
    var trace :| ObeyedThrough(l, m, commands[..i], trace);
    assert ObeyedThrough(l, n, commands[..i + 1], trace + [n]);
  }

  lemma RunMore(l: Lists, m: Lists, n: Lists, self: nat, called: seq<nat>, t: nat, scripts: seq<seq<Command>>)
    requires RunAll(l, m, self, called, scripts)
    requires RunNext(m, n, self, t, if |called| < |scripts| then scripts[|called|] else [])
    ensures RunAll(l, n, self, called + [t], scripts)
  {
    hide RunNext;
    var trace :| RunThrough(l, m, self, called, scripts, trace);
    assert RunThrough(l, n, self, called + [t], scripts, trace + [n]);
  }

  lemma NoneObeyed(l: Lists)
    ensures ObeyedAll(l, l, [])
  {
    assert ObeyedThrough(l, l, [], [l]);
  }

  lemma NoneRun(l: Lists, self: nat, scripts: seq<seq<Command>>)
    ensures RunAll(l, l, self, [], scripts)
  {
    assert RunThrough(l, l, self, [], scripts, [l]);
  }

  lemma SetIs(l: Lists, m: Lists, w: seq<nat>, t: nat, tk: nat, time: int, i: nat)
    requires t < |l.exp| == |l.task| && tk < |l.exptimers| && time < NEVER
    requires OffLists(l, m.(timers := w), t) && GoesBehind(w, l.exp, time, i) && m.timers == Insert(w, i, t)
    requires m.exp == l.exp[t := time] && m.task == l.task[t := tk]
    ensures Obeyed(l, m, Set(t, tk, time))
  {}

  lemma ClearIs(l: Lists, m: Lists, t: nat)
    requires t < |l.exp| == |l.task| && l.task[t] < |l.exptimers| && OffLists(l, m, t)
    requires m.exp == l.exp[t := NEVER] && m.task == l.task
    ensures Obeyed(l, m, Clear(t))
  {}

  /** Commands for timers or tasks that are not there do nothing. */
  lemma NotObeyed(l: Lists, c: Command)
    ensures
      && !(c.t < |l.exp| == |l.task| && (if c.Set? then c.task < |l.exptimers| && c.time < NEVER else l.task[c.t] < |l.exptimers|))
      ==> Obeyed(l, l, c)
  {}

  /** The first `n` of the list that belong to task k, the last one first. */
  function LatestFirst(timers: seq<nat>, n: nat, task: seq<nat>, k: nat): seq<nat>
    requires n <= |timers|
  {
    if n == 0 then []
    else if timers[n - 1] < |task| && task[timers[n - 1]] == k then [timers[n - 1]] + LatestFirst(timers, n - 1, task, k)
    else LatestFirst(timers, n - 1, task, k)
  }

  /** The first n timers have gone to the fronts of the expired lists of their owners, one by one. */
  ghost predicate MovedInOrder(l: Lists, m: Lists, n: nat) {
    && n <= |l.timers| && m.timers == l.timers[n..] && |m.exptimers| == |l.exptimers|
    && forall k :: 0 <= k < |l.exptimers| ==> m.exptimers[k] == LatestFirst(l.timers, n, l.task, k) + l.exptimers[k]
  }

  lemma NextInOrder(l: Lists, m: Lists, n: nat)
    requires MovedInOrder(l, m, n) && m.task == l.task && CanMove(m)
    ensures MovedInOrder(l, MoveFirst(m), n + 1)
  {
    var t := m.timers[0];
    assert t == l.timers[n] && l.timers[n..][1..] == l.timers[n + 1..];
    forall k | 0 <= k < |l.exptimers|
      ensures MoveFirst(m).exptimers[k] == LatestFirst(l.timers, n + 1, l.task, k) + l.exptimers[k]
    {
      if k == m.task[t] { assert [t] + (LatestFirst(l.timers, n, l.task, k) + l.exptimers[k]) == [t] + LatestFirst(l.timers, n, l.task, k) + l.exptimers[k]; }
    }
  }

  // ---------- Steps ----------

  lemma DropActive(l: Lists, i: nat)
    requires Inv(l) && i < |l.timers|
    ensures l.timers[i] < |l.exp| && Inv(l.(timers := Remove(l.timers, i), exp := l.exp[l.timers[i] := NEVER]))
    ensures forall x :: x in Remove(l.timers, i) <==> x in l.timers && x != l.timers[i]
  {
    var t := l.timers[i];
    var m := l.(timers := Remove(l.timers, i), exp := l.exp[t := NEVER]);
    RemoveMembers(l.timers, i);
    RemoveSorted(l.timers, l.exp, i);
    SortedElsewhere(m.timers, l.exp, t, NEVER);
    hide Sorted;
    forall x | 0 <= x < |m.exp| ensures Placed(m, x) { assert Placed(l, x); }
  }

  lemma DropExpired(l: Lists, k: nat, j: nat)
    requires Inv(l) && k < |l.exptimers| && j < |l.exptimers[k]|
    ensures l.exptimers[k][j] < |l.exp| && Inv(l.(exptimers := l.exptimers[k := Remove(l.exptimers[k], j)], exp := l.exp[l.exptimers[k][j] := NEVER]))
    ensures forall x :: x in Remove(l.exptimers[k], j) <==> x in l.exptimers[k] && x != l.exptimers[k][j]
  {
    var t := l.exptimers[k][j];
    assert t in l.exptimers[k];
    var m := l.(exptimers := l.exptimers[k := Remove(l.exptimers[k], j)], exp := l.exp[t := NEVER]);
    RemoveMembers(l.exptimers[k], j);
    assert Placed(l, t);
    SortedElsewhere(l.timers, l.exp, t, NEVER);
    hide Sorted;
    forall x | 0 <= x < |m.exp| ensures Placed(m, x) {
      assert Placed(l, x);
      assert x in m.exptimers[k] <==> x in l.exptimers[k] && x != t;
    }
  }

  /** A timer that is not armed may belong to any task. */
  lemma AddActive(l: Lists, t: nat, tk: nat, time: int, i: nat)
    requires Inv(l) && t < |l.exp| && l.exp[t] == NEVER && tk < |l.exptimers| && time != NEVER && i <= |l.timers|
    requires i > 0 ==> l.timers[i - 1] < |l.exp| && l.exp[l.timers[i - 1]] <= time
    requires i < |l.timers| ==> l.timers[i] < |l.exp| && time <= l.exp[l.timers[i]]
    ensures Inv(l.(timers := Insert(l.timers, i, t), exp := l.exp[t := time], task := l.task[t := tk]))
  {
    var m := l.(timers := Insert(l.timers, i, t), exp := l.exp[t := time], task := l.task[t := tk]);
    assert Placed(l, t);
    SortedElsewhere(l.timers, l.exp, t, time);
    assert forall k :: 0 <= k < |l.timers| ==> l.timers[k] != t;
    InsertSorted(l.timers, m.exp, i, t);
    hide Sorted;
    forall x | 0 <= x < |m.exp| ensures Placed(m, x) { assert Placed(l, x); }
  }

  ghost predicate CanMove(l: Lists) {
    && l.timers != [] && l.timers[0] < |l.exp| == |l.task| && l.task[l.timers[0]] < |l.exptimers|
    && l.timers[0] !in l.timers[1..]
  }

  /** The first active timer goes to the front of its task's expired list. */
  ghost function MoveFirst(l: Lists): Lists
    requires CanMove(l)
  {
    var t := l.timers[0];
    l.(timers := l.timers[1..], exptimers := l.exptimers[l.task[t] := [t] + l.exptimers[l.task[t]]])
  }

  ghost function Alert(l: Lists, self: nat): seq<nat>
    requires CanMove(l)
  {
    var p := l.task[l.timers[0]];
    if l.exptimers[p] == [] && p != self then [p] else []
  }

  lemma MoveToExpired(l: Lists)
    requires Inv(l) && l.timers != []
    ensures CanMove(l) && Inv(MoveFirst(l))
  {
    var t := l.timers[0];
    assert Placed(l, t);
    var p := l.task[t];
    RemoveMembers(l.timers, 0);
    RemoveSorted(l.timers, l.exp, 0);
    assert l.timers[1..] == Remove(l.timers, 0);
    var m := MoveFirst(l);
    assert NoDup(m.exptimers[p]);
    hide Sorted;
    forall x | 0 <= x < |m.exp| ensures Placed(m, x) {
      assert Placed(l, x);
      assert x in m.exptimers[p] <==> x == t || x in l.exptimers[p];
    }
  }

  /** Some due timers have gone to the lists of their owners; the owners whose list was empty are alerted,
      except the one that is running. */
  ghost predicate Moved(l: Lists, m: Lists, now: int, self: nat, alerted: seq<nat>) {
    && m.exp == l.exp && m.task == l.task && |l.exp| == |l.task| && |m.exptimers| == |l.exptimers|
    && (forall x :: x in m.timers ==> x in l.timers)
    && (forall k :: 0 <= k < |l.exptimers| && m.exptimers[k] == [] ==> l.exptimers[k] == [])
    && (forall x :: 0 <= x < |l.exp| && x in l.timers && x !in m.timers ==> l.exp[x] <= now)
    && (forall k, x :: 0 <= k < |l.exptimers| && 0 <= x < |l.exp| ==>
      (x in m.exptimers[k] <==> x in l.exptimers[k] || (x in l.timers && x !in m.timers && l.task[x] == k)))
    && forall k :: k in alerted <==> 0 <= k < |l.exptimers| && l.exptimers[k] == [] && m.exptimers[k] != [] && k != self
  }

  lemma MovedLength(l: Lists, m: Lists, now: int, self: nat, alerted: seq<nat>)
    requires Moved(l, m, now, self, alerted)
    ensures |m.exp| == |l.exp| && |m.exptimers| == |l.exptimers|
    ensures forall k :: k in alerted ==> k < |l.exptimers| && k != self && l.exptimers[k] == []
  {}

  lemma MovedNone(l: Lists, now: int, self: nat)
    requires |l.exp| == |l.task|
    ensures Moved(l, l, now, self, [])
  {}

  lemma MovedMore(l: Lists, m: Lists, now: int, self: nat, alerted: seq<nat>)
    requires Moved(l, m, now, self, alerted) && CanMove(m) && m.exp[m.timers[0]] <= now
    ensures Moved(l, MoveFirst(m), now, self, alerted + Alert(m, self))
  {
    var n, t := MoveFirst(m), m.timers[0];
    var p := m.task[t];
    assert m.timers == [t] + m.timers[1..];
    assert forall x :: x in n.timers <==> x in m.timers && x != t;
    assert forall x :: x in n.exptimers[p] <==> x == t || x in m.exptimers[p];
    forall k ensures k in alerted + Alert(m, self) <==> k in alerted || k in Alert(m, self) {}
  }

  /** When no active timer is due, all due ones have gone. */
  lemma MovedAll(l: Lists, m: Lists, now: int, self: nat, alerted: seq<nat>)
    requires Moved(l, m, now, self, alerted) && forall x :: x in m.timers && x < |l.exp| ==> l.exp[x] > now
    ensures forall x :: 0 <= x < |l.exp| ==> (x in m.timers <==> x in l.timers && l.exp[x] > now)
  {}

  class ClockTask {
    var timers: seq<nat>
    var exptimers: seq<seq<nat>>
    var exp: seq<int>
    var task: seq<nat>
    var nextTimer: int
    var realtime: int

    ghost function Model(): Lists
      reads this
    {
      Lists(timers, exptimers, exp, task)
    }

    ghost predicate Valid()
      reads this
    {
      Inv(Model()) && (timers != [] && timers[0] < |exp| ==> nextTimer <= exp[timers[0]])
    }

    ghost predicate NoneDue()
      reads this
    {
      forall t :: t in timers && t < |exp| ==> exp[t] > realtime
    }

    constructor (n: nat, tasks: nat)
      ensures Valid() && |exp| == n && |exptimers| == tasks && timers == []
    {
      timers, exptimers := [], seq(tasks, _ => []);
      exp, task := seq(n, _ => NEVER), seq(n, _ => 0);
      nextTimer, realtime := NEVER, 0;
    }

    /** Position of a timer on a list, or the length of the list. */
    static method Find(list: seq<nat>, t: nat) returns (i: nat)
      ensures i <= |list| && (i < |list| ==> list[i] == t) && (i == |list| <==> t !in list)
    {
      i := 0;
      while i < |list| && list[i] != t
        invariant i <= |list| && forall k :: 0 <= k < i ==> list[k] != t
      {
        i := i + 1;
      }
    }

    /** tmr_clrtimer: take the timer off whichever list it is on. */
    method ClrTimer(t: nat)
      requires Valid() && t < |exp| && task[t] < |exptimers|
      modifies this`timers, this`exptimers, this`exp
      ensures Valid() && exp == old(exp)[t := NEVER] && |exptimers| == |old(exptimers)|
      ensures forall x :: x in timers <==> x in old(timers) && x != t
      ensures forall k :: 0 <= k < |exptimers| ==> |exptimers[k]| <= |old(exptimers)[k]| && forall x :: x in exptimers[k] <==> x in old(exptimers)[k] && x != t
      ensures OffLists(old(Model()), Model(), t)
    {
      hide Inv;
      InvSays(Model());
      Owners(Model(), t);
      var i := Find(timers, t);
      if i < |timers| {
        DropActive(Model(), i);
        timers := Remove(timers, i);
      } else {
        var p := task[t];
        var j := Find(exptimers[p], t);
        if j < |exptimers[p]| {
          DropExpired(Model(), p, j);
          exptimers := exptimers[p := Remove(exptimers[p], j)];
        } else {
          NotArmed(Model(), t);
        }
      }
      exp := exp[t := NEVER];
      InvSays(Model());
    }

    /** Where on the active list a timer goes: before the first one that expires later. */
    method Place(time: int) returns (i: nat)
      requires forall k :: 0 <= k < |timers| ==> timers[k] < |exp|
      ensures i <= |timers| && (i > 0 ==> exp[timers[i - 1]] <= time) && (i < |timers| ==> time < exp[timers[i]])
      ensures forall k :: 0 <= k < i ==> exp[timers[k]] <= time
    {
      i := 0;
      while i < |timers| && time >= exp[timers[i]]
        invariant i <= |timers| && forall k :: 0 <= k < i ==> exp[timers[k]] <= time
      {
        i := i + 1;
      }
    }

    /** tmr_settimer: arm a timer for a task. */
    method SetTimer(t: nat, tk: nat, time: int)
      requires Valid() && t < |exp| && tk < |exptimers| && time < NEVER
      modifies this`timers, this`exptimers, this`exp, this`task, this`nextTimer
      ensures Valid() && exp == old(exp)[t := time] && task == old(task)[t := tk] && |exptimers| == |old(exptimers)|
      ensures forall x :: x in timers <==> x in old(timers) || x == t
      ensures forall k :: 0 <= k < |exptimers| ==> |exptimers[k]| <= |old(exptimers)[k]| && forall x :: x in exptimers[k] <==> x in old(exptimers)[k] && x != t
      ensures Obeyed(old(Model()), Model(), Set(t, tk, time)) && timers != [] && nextTimer == exp[timers[0]]
    {
      hide Inv, Obeyed, OffLists, GoesBehind;
      InvSays(Model());
      NotArmedThen(Model());
      OffAlready(Model(), t);
      if exp[t] != NEVER { ClrTimer(t); }
      InvSays(Model());
      ghost var w := Model();
      NotArmedHere(w, t);
      var i := Place(time);
      BehindIs(w, old(Model()), t, time, i);
      AddTimer(t, tk, time, i);
      SameOff(old(Model()), w, Model().(timers := w.timers), t);
      SetIs(old(Model()), Model(), w.timers, t, tk, time, i);
    }

    /** The last part of tmr_settimer: a timer that is not armed goes to place `i` of the active list. */
    method AddTimer(t: nat, tk: nat, time: int, i: nat)
      requires Inv(Model()) && t < |exp| && exp[t] == NEVER && tk < |exptimers| && time < NEVER && i <= |timers|
      requires i > 0 ==> timers[i - 1] < |exp| && exp[timers[i - 1]] <= time
      requires i < |timers| ==> timers[i] < |exp| && time <= exp[timers[i]]
      modifies this`timers, this`exp, this`task, this`nextTimer
      ensures Valid() && exp == old(exp)[t := time] && |old(task)| == |exp| && task == old(task)[t := tk]
      ensures forall x :: x in timers <==> x in old(timers) || x == t
      ensures timers == Insert(old(timers), i, t) && nextTimer == exp[timers[0]]
    {
      hide Inv;
      InvSays(Model());
      AddActive(Model(), t, tk, time, i);
      task := task[t := tk];
      exp := exp[t := time];
      timers := Insert(timers, i, t);
      InvSays(Model());
      nextTimer := exp[timers[0]];
    }

    /** The loop of do_clocktick: move expired timers to the lists of their tasks, and alert the
        tasks other than `self` whose list was empty. */
    method MoveExpired(self: nat) returns (alerted: seq<nat>)
      requires Valid()
      modifies this`timers, this`exptimers
      ensures Valid() && NoneDue()
      ensures Moved(old(Model()), Model(), realtime, self, alerted)
      ensures forall t :: 0 <= t < |exp| ==> (t in timers <==> t in old(timers) && exp[t] > realtime)
      ensures |timers| <= |old(timers)| && MovedInOrder(old(Model()), Model(), |old(timers)| - |timers|)
    {
      hide Inv, Moved, MovedInOrder;
      OrderStarts(Model());
      ghost var l := Model();
      InvSays(l);
      MovedNone(l, realtime, self);
      alerted := [];
      while timers != [] && exp[timers[0]] <= realtime
        invariant Valid() && Moved(l, Model(), realtime, self, alerted)
        invariant |timers| <= |l.timers| && MovedInOrder(l, Model(), |l.timers| - |timers|)
        invariant forall k :: 0 <= k < |timers| ==> timers[k] < |exp|
        decreases |timers|
      {
        ghost var m, before := Model(), alerted;
        var more := MoveOne(self);
        alerted := alerted + more;
        MovedMore(l, m, realtime, self, before);
        MovedTasks(l, m, realtime, self, before);
        NextInOrder(l, m, |l.timers| - |m.timers|);
        InvSays(Model());
      }
      if timers != [] { FrontFirst(); }
      MovedAll(l, Model(), realtime, self, alerted);
    }

    /** The front timer expires first. */
    lemma FrontFirst()
      requires Valid() && timers != [] && timers[0] < |exp| && exp[timers[0]] > realtime
      ensures NoneDue()
    {
      forall t | t in timers && t < |exp| ensures exp[t] > realtime {
        var i :| 0 <= i < |timers| && timers[i] == t;
        assert exp[timers[0]] <= exp[timers[i]];
      }
    }

    /** One timer goes from the front of the active list to the front of its task's expired list. */
    method MoveOne(self: nat) returns (alerted: seq<nat>)
      requires Valid() && timers != []
      modifies this`timers, this`exptimers
      ensures Valid() && CanMove(old(Model())) && Model() == MoveFirst(old(Model()))
      ensures alerted == Alert(old(Model()), self)
    {
      hide Inv;
      MoveToExpired(Model());
      SecondLater();
      var tp := timers[0];
      alerted := [];
      timers := timers[1..];
      var p := task[tp];
      if exptimers[p] == [] && p != self { alerted := [p]; }
      exptimers := exptimers[p := [tp] + exptimers[p]];
    }

    lemma SecondLater()
      requires Valid() && timers != []
      ensures |timers| > 1 && timers[1] < |exp| ==> nextTimer <= exp[timers[1]]
    {
    }

    /** A timer function sets or clears a timer. */
    method Do(c: Command)
      requires Valid()
      modifies this`timers, this`exptimers, this`exp, this`task, this`nextTimer
      ensures Valid() && |exp| == |old(exp)| && |exptimers| == |old(exptimers)|
      ensures forall k :: 0 <= k < |exptimers| ==> |exptimers[k]| <= |old(exptimers)[k]|
      ensures forall x: nat :: x != c.t ==> SameTimer(old(Model()), Model(), x)
      ensures old(NoneDue()) && (c.Set? ==> c.time > realtime) ==> NoneDue()
      ensures Obeyed(old(Model()), Model(), c)
      ensures old(NoneDue() && nextTimer > realtime) && (c.Set? ==> c.time > realtime) ==> nextTimer > realtime
    {
      hide Obeyed, OffLists, Inv;
      ghost var l := Model();
      InvSays(l);
      NotObeyed(l, c);
      match c {
        case Set(t, tk, time) =>
          if t < |exp| && tk < |exptimers| && time < NEVER { SetTimer(t, tk, time); }
        case Clear(t) =>
          if t < |exp| && task[t] < |exptimers| {
            ClrTimer(t);
            ClearIs(l, Model(), t);
          }
      }
      InvSays(Model());
    }

    /** What a timer function does: set and clear timers. */
    method CallBack(commands: seq<Command>)
      requires Valid()
      modifies this`timers, this`exptimers, this`exp, this`task, this`nextTimer
      ensures Valid() && |exp| == |old(exp)| && |exptimers| == |old(exptimers)|
      ensures forall k :: 0 <= k < |exptimers| ==> |exptimers[k]| <= |old(exptimers)[k]|
      ensures forall x: nat :: !Handles(commands, x) ==> SameTimer(old(Model()), Model(), x)
      ensures old(NoneDue()) && Future(commands, realtime) ==> NoneDue()
      ensures ObeyedAll(old(Model()), Model(), commands)
      ensures old(NoneDue() && nextTimer > realtime) && Future(commands, realtime) ==> nextTimer > realtime
    {
      hide Inv, SameTimer, Handles, Obeyed, ObeyedAll;
      NoneObeyed(Model());
      ghost var e, l := exptimers, Model();
      ghost var n := |exp|;
      SameItself(l);
      var i := 0;
      while i < |commands|
        invariant i <= |commands| && Valid() && |exp| == n && |exptimers| == |e|
        invariant forall k :: 0 <= k < |exptimers| ==> |exptimers[k]| <= |e[k]|
        invariant forall x: nat :: !Handles(commands[..i], x) ==> SameTimer(l, Model(), x)
        invariant old(NoneDue()) && Future(commands, realtime) ==> NoneDue()
        invariant ObeyedAll(l, Model(), commands[..i])
        invariant old(NoneDue() && nextTimer > realtime) && Future(commands, realtime) ==> nextTimer > realtime
      {
        HandlesMore(commands, i);
        ghost var m := Model();
        Do(commands[i]);
        ObeyedMore(l, m, Model(), commands, i);
        forall x: nat | !Handles(commands[..i + 1], x) ensures SameTimer(l, Model(), x) { SameThen(l, m, Model(), x); }
        i := i + 1;
      }
      assert commands[..i] == commands;
    }

    /** tmr_exptimers, run by task `self`: call the functions of its expired timers, in `called`.  The
        k-th call does `scripts[k]`, later ones nothing. */
    method ExpTimers(self: nat, scripts: seq<seq<Command>>) returns (called: seq<nat>)
      requires Valid() && self < |exptimers|
      modifies this`timers, this`exptimers, this`exp, this`task, this`nextTimer
      ensures Valid() && |exp| == |old(exp)| && |exptimers| == |old(exptimers)| && exptimers[self] == []
      ensures forall x: nat :: !Handled(scripts, x) ==> Ran(old(Model()), Model(), self, called, x)
      ensures old(NoneDue()) && (forall k :: 0 <= k < |scripts| ==> Future(scripts[k], realtime)) ==> NoneDue()
      ensures RunAll(old(Model()), Model(), self, called, scripts)
      ensures old(NoneDue() && nextTimer > realtime) && (forall k :: 0 <= k < |scripts| ==> Future(scripts[k], realtime)) ==> nextTimer > realtime
    {
      hide Inv, Handled, Handles, Ran, SameTimer, NoDup, Popped, RunAll, ObeyedAll;
      NoneRun(Model(), self, scripts);
      ghost var l, n, m := Model(), |exp|, |exptimers|;
      called := [];
      InvSays(l);
      RanStarts(l, self);
      while exptimers[self] != []
        invariant Valid() && |exp| == n && |exptimers| == m
        invariant forall x: nat :: !Handled(scripts, x) ==> Ran(l, Model(), self, called, x)
        invariant old(NoneDue()) && (forall k :: 0 <= k < |scripts| ==> Future(scripts[k], realtime)) ==> NoneDue()
        invariant RunAll(l, Model(), self, called, scripts)
        invariant old(NoneDue() && nextTimer > realtime) && (forall k :: 0 <= k < |scripts| ==> Future(scripts[k], realtime)) ==> nextTimer > realtime
        decreases |exptimers[self]|
      {
        ghost var before, called0 := Model(), called;
        InvSays(before);
        ExpiredSays(before, self);
        var script := if |called| < |scripts| then scripts[|called|] else [];
        called := called + [exptimers[self][0]];
        RunFirst(self, script);
        RunMore(l, before, Model(), self, called0, before.exptimers[self][0], scripts);
        forall x: nat | !Handled(scripts, x) ensures Ran(l, Model(), self, called, x) {
          NotHandled(scripts, script, x);
          RanMore(l, before, Model(), self, called0, x);
        }
      }
    }

    /** The first expired timer of a task is off, and its function is called. */
    method RunFirst(self: nat, script: seq<Command>)
      requires Valid() && self < |exptimers| && exptimers[self] != [] && exptimers[self][0] < |exp|
      modifies this`timers, this`exptimers, this`exp, this`task, this`nextTimer
      ensures Valid() && |exp| == |old(exp)| && |exptimers| == |old(exptimers)| && |exptimers[self]| < |old(exptimers)[self]|
      ensures forall x: nat :: !Handles(script, x) ==> SameTimer(Popped(old(Model()), self), Model(), x)
      ensures old(NoneDue()) && Future(script, realtime) ==> NoneDue()
      ensures RunNext(old(Model()), Model(), self, old(exptimers)[self][0], script)
      ensures old(NoneDue() && nextTimer > realtime) && Future(script, realtime) ==> nextTimer > realtime
    {
      hide Inv, Handles, SameTimer, ObeyedAll;
      PopExpired(self);
      CallBack(script);
    }

    /** The first expired timer of a task is not armed any more. */
    method PopExpired(self: nat)
      requires Valid() && self < |exptimers| && exptimers[self] != []
      modifies this`exptimers, this`exp
      ensures Valid() && |exptimers| == |old(exptimers)| && exptimers == old(exptimers)[self := old(exptimers)[self][1..]]
      ensures old(exptimers)[self][0] !in timers
      ensures old(exptimers)[self][0] < |exp| && exp == old(exp)[old(exptimers)[self][0] := NEVER]
    {
      hide Inv;
      DropExpired(Model(), self, 0);
      OffActive(self);
      var tp := exptimers[self][0];
      assert exptimers[self][1..] == Remove(exptimers[self], 0);
      exptimers := exptimers[self := exptimers[self][1..]];
      exp := exp[tp := NEVER];
    }

    lemma OffActive(self: nat)
      requires Valid() && self < |exptimers| && exptimers[self] != []
      ensures exptimers[self][0] !in timers && |exp| == |task|
    {
      assert exptimers[self][0] in exptimers[self];
      assert Placed(Model(), exptimers[self][0]);
    }

    /** do_clocktick, as far as timers go; `self` is the clock task, whose functions run at once. */
    method ClockTick(self: nat, scripts: seq<seq<Command>>) returns (alerted: seq<nat>, called: seq<nat>)
      requires Valid() && self < |exptimers|
      modifies this`timers, this`exptimers, this`exp, this`task, this`nextTimer
      ensures Valid() && |exp| == |old(exp)| && |exptimers| == |old(exptimers)|
      ensures (forall k :: 0 <= k < |scripts| ==> Future(scripts[k], realtime)) ==> NoneDue()
      ensures old(nextTimer) > realtime ==> Model() == old(Model()) && nextTimer == old(nextTimer) && alerted == called == []
      ensures old(nextTimer) <= realtime ==> forall x: nat :: !Handled(scripts, x) ==> Ticked(old(Model()), Model(), self, realtime, called, x)
      ensures forall k :: k in alerted ==> k < |exptimers| && k != self && old(exptimers)[k] == []
      ensures (forall k :: 0 <= k < |scripts| ==> Future(scripts[k], realtime)) && realtime < NEVER ==> nextTimer > realtime
      ensures old(nextTimer) <= realtime ==> exists moved: Lists ::
        && |moved.timers| <= |old(timers)| && MovedInOrder(old(Model()), moved, |old(timers)| - |moved.timers|)
        && RunAll(moved, Model(), self, called, scripts)
    {
      hide Inv, Handled, Handles, Ran, Ticked, Moved, RunAll, MovedInOrder;
      ghost var l := Model();
      alerted, called := [], [];
      if nextTimer <= realtime {
        alerted := MoveExpired(self);
        ghost var moved := Model();
        InvSays(moved);
        nextTimer := if timers == [] then NEVER else exp[timers[0]];
        MovedLength(l, moved, realtime, self, alerted);
        called := ExpTimers(self, scripts);
        forall x: nat | !Handled(scripts, x) ensures Ticked(old(Model()), Model(), self, realtime, called, x) {
          TickedIs(l, moved, Model(), self, realtime, alerted, called, x);
        }
      } else {
        if timers != [] { InvSays(Model()); FrontFirst(); }
      }
    }
  }

  /** A timer is on no expired list but its owner's. */
  lemma Owners(l: Lists, t: nat)
    requires Inv(l) && t < |l.exp|
    ensures |l.task| == |l.exp| && forall k :: 0 <= k < |l.exptimers| && k != l.task[t] ==> t !in l.exptimers[k]
    ensures t in l.timers ==> forall k :: 0 <= k < |l.exptimers| ==> t !in l.exptimers[k]
  {
    assert Placed(l, t);
  }

  lemma NotArmedHere(l: Lists, t: nat)
    requires Inv(l) && t < |l.exp| && l.exp[t] == NEVER
    ensures t !in l.timers
  {
    assert Placed(l, t);
  }

  lemma OffAlready(l: Lists, t: nat)
    requires Inv(l) && t < |l.exp|
    ensures l.exp[t] == NEVER ==> OffLists(l, l, t)
  {
    assert Placed(l, t);
  }

  lemma SameOff(l: Lists, w: Lists, m: Lists, t: nat)
    requires OffLists(l, w, t) && m.timers == w.timers && m.exptimers == w.exptimers
    ensures OffLists(l, m, t)
  {}

  lemma BehindIs(w: Lists, l: Lists, t: nat, time: int, i: nat)
    requires Inv(w) && |l.exp| == |w.exp| && t < |w.exp| && t !in w.timers && i <= |w.timers|
    requires forall x: nat :: x < |l.exp| && x != t ==> l.exp[x] == w.exp[x]
    requires forall k :: 0 <= k < |w.timers| ==> w.timers[k] < |w.exp|
    requires (forall k :: 0 <= k < i ==> w.exp[w.timers[k]] <= time) && (i < |w.timers| ==> time < w.exp[w.timers[i]])
    ensures GoesBehind(w.timers, l.exp, time, i)
  {
    forall k | 0 <= k < |w.timers| ensures l.exp[w.timers[k]] == w.exp[w.timers[k]] && (k >= i ==> w.exp[w.timers[k]] > time) {}
  }

  lemma OrderStarts(l: Lists)
    ensures MovedInOrder(l, l, 0)
  {}

  lemma MovedTasks(l: Lists, m: Lists, now: int, self: nat, alerted: seq<nat>)
    requires Moved(l, m, now, self, alerted)
    ensures m.task == l.task
  {}

  lemma RanStarts(l: Lists, self: nat)
    requires self < |l.exptimers| && |l.exp| == |l.task|
    ensures forall x: nat :: Ran(l, l, self, [], x)
  {}

  lemma NotHandled(scripts: seq<seq<Command>>, script: seq<Command>, x: nat)
    requires (script == [] || script in scripts) && !Handled(scripts, x)
    ensures !Handles(script, x)
  {
    if script != [] { var k :| 0 <= k < |scripts| && scripts[k] == script; }
  }

  /** What a tick does to a timer that no function touches: if it is due it goes to its task's list, or,
      if its owner is the one running, its function is called and it is off; so are the timers that
      had expired for that task before. */
  ghost predicate Ticked(l: Lists, m: Lists, self: nat, now: int, called: seq<nat>, x: nat) {
    x < |l.exp| == |m.exp| == |l.task| == |m.task| && self < |l.exptimers| == |m.exptimers| ==>
      (var due := x in l.timers && l.exp[x] <= now;
      var runs := x in l.exptimers[self] || (due && l.task[x] == self);
      && (x in m.timers <==> x in l.timers && !due)
      && m.exp[x] == (if runs then NEVER else l.exp[x]) && m.task[x] == l.task[x]
      && multiset(called)[x] == (if runs then 1 else 0)
      && x !in m.exptimers[self]
      && forall k :: 0 <= k < |l.exptimers| && k != self ==> (x in m.exptimers[k] <==> x in l.exptimers[k] || (due && l.task[x] == k)))
  }

  lemma TickedIs(l: Lists, moved: Lists, m: Lists, self: nat, now: int, alerted: seq<nat>, called: seq<nat>, x: nat)
    requires Moved(l, moved, now, self, alerted)
    requires x < |l.exp| ==> (x in moved.timers <==> x in l.timers && l.exp[x] > now)
    requires Ran(moved, m, self, called, x) && m.exptimers[self] == []
    ensures Ticked(l, m, self, now, called, x)
  {}

  lemma InvSays(l: Lists)
    requires Inv(l)
    ensures |l.exp| == |l.task| && forall k :: 0 <= k < |l.timers| ==> l.timers[k] < |l.exp|
    ensures forall t :: 0 <= t < |l.exp| && l.exp[t] != NEVER ==> l.task[t] < |l.exptimers|
    ensures forall t :: t in l.timers ==> t < |l.exp| && l.exp[t] != NEVER
    ensures forall i, j :: 0 <= i < j < |l.timers| ==> l.exp[l.timers[i]] <= l.exp[l.timers[j]]
    ensures forall t, k :: 0 <= t < |l.exp| && 0 <= k < |l.exptimers| && t in l.exptimers[k] ==> l.exp[t] != NEVER && k == l.task[t]
  {
    forall t | 0 <= t < |l.exp| && l.exp[t] != NEVER ensures l.task[t] < |l.exptimers| { assert Placed(l, t); }
    forall t | t in l.timers ensures t < |l.exp| && l.exp[t] != NEVER { assert Placed(l, t); }
    forall t, k | 0 <= t < |l.exp| && 0 <= k < |l.exptimers| && t in l.exptimers[k] ensures l.exp[t] != NEVER && k == l.task[t] { assert Placed(l, t); }
  }

  lemma ExpiredSays(l: Lists, k: nat)
    requires Inv(l) && k < |l.exptimers|
    ensures NoDup(l.exptimers[k]) && forall x :: x in l.exptimers[k] ==> x < |l.exp|
    ensures forall i :: 0 <= i < |l.exptimers[k]| ==> l.exptimers[k][i] < |l.exp|
  {
    forall i | 0 <= i < |l.exptimers[k]| ensures l.exptimers[k][i] < |l.exp| { assert l.exptimers[k][i] in l.exptimers[k]; }
  }

  /** A timer that is not armed is on no list. */
  lemma NotArmedThen(l: Lists)
    requires Inv(l)
    ensures forall t :: 0 <= t < |l.exp| && l.exp[t] == NEVER ==> t !in l.timers && forall k :: 0 <= k < |l.exptimers| ==> t !in l.exptimers[k]
  {
    forall t | 0 <= t < |l.exp| && l.exp[t] == NEVER
      ensures t !in l.timers && forall k :: 0 <= k < |l.exptimers| ==> t !in l.exptimers[k]
    {
      assert Placed(l, t);
    }
  }

  lemma NotArmed(l: Lists, t: nat)
    requires Inv(l) && t < |l.exp| && t !in l.timers && !(l.task[t] < |l.exptimers| && t in l.exptimers[l.task[t]])
    ensures l.exp[t] == NEVER && l.exp[t := NEVER] == l.exp
  {
    assert Placed(l, t);
  }

  predicate Future(commands: seq<Command>, now: int) {
    forall i :: 0 <= i < |commands| && commands[i].Set? ==> commands[i].time > now
  }
}
