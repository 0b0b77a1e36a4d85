module Timers {
  /** Timers: the sorted chain of the TCP/IP server, and the kernel's active and expired lists. */

  import opened Storage

  /** Timer numbers in the order in which they expire. */
  ghost predicate Sorted(list: seq<nat>, time: seq<int>) {
    && (forall i :: 0 <= i < |list| ==> list[i] < |time|)
    && forall i, j :: 0 <= i < j < |list| ==> time[list[i]] <= time[list[j]]
  }

  function Insert(list: seq<nat>, i: nat, t: nat): (r: seq<nat>)
    requires i <= |list|
    ensures |r| == |list| + 1
    ensures forall k :: 0 <= k < |r| ==> r[k] == if k < i then list[k] else if k == i then t else list[k - 1]
    ensures forall x :: x in r <==> x in list || x == t
  {
    assert list == list[..i] + list[i..];
    list[..i] + [t] + list[i..]
  }

  function Remove(list: seq<nat>, i: nat): (r: seq<nat>)
    requires i < |list|
    ensures |r| == |list| - 1
    ensures forall k :: 0 <= k < |r| ==> r[k] == if k < i then list[k] else list[k + 1]
  {
    list[..i] + list[i + 1..]
  }

  lemma RemoveMembers(list: seq<nat>, i: nat)
    requires i < |list| && NoDup(list)
    ensures NoDup(Remove(list, i)) && forall x :: x in Remove(list, i) <==> x in list && x != list[i]
  {
    var r := Remove(list, i);
    forall x | x in list && x != list[i] ensures x in r {
      var k :| 0 <= k < |list| && list[k] == x;
      assert r[if k < i then k else k - 1] == x;
    }
  }

  lemma InsertSorted(list: seq<nat>, time: seq<int>, i: nat, t: nat)
    requires Sorted(list, time) && NoDup(list) && i <= |list| && t < |time| && t !in list
    requires i > 0 ==> time[list[i - 1]] <= time[t]
    requires i < |list| ==> time[t] <= time[list[i]]
    ensures Sorted(Insert(list, i, t), time) && NoDup(Insert(list, i, t))
  {
    var r := Insert(list, i, t);
    forall a, b | 0 <= a < b < |r| ensures time[r[a]] <= time[r[b]] && r[a] != r[b] {
      if a == i {
        assert r[b] == list[b - 1];
      } else if b == i {
        assert r[a] == list[a];
      }
    }
  }

  lemma RemoveSorted(list: seq<nat>, time: seq<int>, i: nat)
    requires Sorted(list, time) && i < |list|
    ensures Sorted(Remove(list, i), time)
  {
  }

  lemma SortedElsewhere(list: seq<nat>, time: seq<int>, t: nat, v: int)
    requires Sorted(list, time) && t < |time| && t !in list
    ensures Sorted(list, time[t := v])
  {
  }

  lemma SortedSays(list: seq<nat>, time: seq<int>)
    requires Sorted(list, time)
    ensures forall k :: 0 <= k < |list| ==> list[k] < |time|
  {
  }

  // ---------- The chain of the TCP/IP server ----------

  datatype Command = Arm(t: nat, timeout: int) | Disarm(t: nat)

  predicate Touches(commands: seq<Command>, x: nat) {
    exists i :: 0 <= i < |commands| && commands[i].t == x
  }

  /** No function touches a timer exactly if it is not the timer of any command. */
  lemma NotTouchedIs(scripts: seq<seq<Command>>, x: nat)
    ensures !Touched(scripts, x) <==> forall k, i :: 0 <= k < |scripts| && 0 <= i < |scripts[k]| ==> scripts[k][i].t != x
  {
    if k, i :| 0 <= k < |scripts| && 0 <= i < |scripts[k]| && scripts[k][i].t == x {
      assert Touches(scripts[k], x);
    }
  }

  lemma TouchesMore(commands: seq<Command>, i: nat)
    requires i < |commands|
    ensures forall x :: Touches(commands[..i], x) || x == commands[i].t ==> Touches(commands[..i + 1], x)
  {
    var more := commands[..i + 1];
    assert more[i].t == commands[i].t;
    forall x | Touches(commands[..i], x) ensures Touches(more, x) {
      var k :| 0 <= k < i && commands[..i][k].t == x;
      assert more[k].t == x;
    }
  }

  /** Some timer function sets or cancels timer `x`. */
  predicate Touched(scripts: seq<seq<Command>>, x: nat) {
    exists k :: 0 <= k < |scripts| && Touches(scripts[k], x)
  }

  // ---------- What a run of timer functions does ----------

  /** The chain, and when each timer expires and whether it is active. */
  datatype Alarms = Alarms(chain: seq<nat>, time: seq<int>, active: seq<bool>)

  /** `r` is `s` without `t`, in the same order. */
  ghost predicate TakenOut(s: seq<nat>, r: seq<nat>, t: nat) {
    if t in s then exists i :: 0 <= i < |s| && s[i] == t && r == s[..i] + s[i + 1..] else r == s
  }

  /** A timer goes in front of the first one that expires later if that is the head, else in front of
      the first one behind the head that does not expire earlier. */
  ghost predicate GoesAt(w: seq<nat>, time: seq<int>, timeout: int, i: nat) {
    && i <= |w| && (forall k :: 0 <= k < |w| ==> w[k] < |time|)
    && (i == 0 <==> w == [] || timeout < time[w[0]])
    && (forall k :: 1 <= k < i ==> time[w[k]] < timeout) && (0 < i < |w| ==> timeout <= time[w[i]])
  }

  /** clck_timer takes the timer out of the chain and puts it where it belongs; clck_untimer takes it out. */
  ghost predicate Applied(a: Alarms, b: Alarms, c: Command) {
    if !(c.t < |a.time| == |a.active|) then b == a
    else match c
      case Disarm(t) => TakenOut(a.chain, b.chain, t) && b.time == a.time && b.active == a.active[t := false]
      case Arm(t, timeout) =>
        && b.time == a.time[t := timeout] && b.active == a.active[t := true]
        && exists w: seq<nat>, i: nat :: TakenOut(a.chain, w, t) && GoesAt(w, a.time, timeout, i) && b.chain == w[..i] + [t] + w[i..]
  }

  /** All commands, one after the other, through the states of `trace`. */
  ghost predicate AppliedAll(a: Alarms, b: Alarms, commands: seq<Command>) {
    exists trace: seq<Alarms> :: AppliedThrough(a, b, commands, trace)
  }

  ghost predicate AppliedThrough(a: Alarms, b: Alarms, commands: seq<Command>, trace: seq<Alarms>) {
    && |trace| == |commands| + 1 && trace[0] == a && trace[|commands|] == b
    && forall i :: 0 <= i < |commands| ==> Applied(trace[i], trace[i + 1], commands[i])
  }

  /** Each of the timers called was the first of the chain and due; it is taken off, and its function
      does what its script says. */
  ghost predicate CalledAll(a: Alarms, b: Alarms, called: seq<nat>, scripts: seq<seq<Command>>, curr: int) {
    exists trace: seq<Alarms> :: CalledThrough(a, b, called, scripts, curr, trace)
  }

  ghost predicate CalledThrough(a: Alarms, b: Alarms, called: seq<nat>, scripts: seq<seq<Command>>, curr: int, trace: seq<Alarms>) {
    && |trace| == |called| + 1 && trace[0] == a && trace[|called|] == b
    && forall i :: 0 <= i < |called| ==> CalledNext(trace[i], trace[i + 1], called[i], if i < |scripts| then scripts[i] else [], curr)
  }

  ghost predicate CalledNext(m: Alarms, b: Alarms, t: nat, script: seq<Command>, curr: int) {
    && m.chain != [] && m.chain[0] == t < |m.time| == |m.active| && m.time[t] <= curr
    && AppliedAll(m.(chain := m.chain[1..], active := m.active[t := false]), b, script)
  }

  lemma AppliedMore(a: Alarms, m: Alarms, b: Alarms, commands: seq<Command>, i: nat)
    requires i < |commands| && AppliedAll(a, m, commands[..i]) && Applied(m, b, commands[i])
    ensures AppliedAll(a, b, commands[..i + 1])
  {
    hide Applied;
    var trace :| AppliedThrough(a, m, commands[..i], trace);
    assert AppliedThrough(a, b, commands[..i + 1], trace + [b]);
  }

  lemma CalledMore(a: Alarms, m: Alarms, b: Alarms, called: seq<nat>, t: nat, scripts: seq<seq<Command>>, curr: int)
    requires CalledAll(a, m, called, scripts, curr)
    requires CalledNext(m, b, t, if |called| < |scripts| then scripts[|called|] else [], curr)
    ensures CalledAll(a, b, called + [t], scripts, curr)
  {
    hide CalledNext;
    var trace :| CalledThrough(a, m, called, scripts, curr, trace);
    assert CalledThrough(a, b, called + [t], scripts, curr, trace + [b]);
  }

  lemma NoneApplied(a: Alarms)
    ensures AppliedAll(a, a, [])
  {
    assert AppliedThrough(a, a, [], [a]);
  }

  lemma NoneCalled(a: Alarms, scripts: seq<seq<Command>>, curr: int)
    ensures CalledAll(a, a, [], scripts, curr)
  {
    assert CalledThrough(a, a, [], scripts, curr, [a]);
  }

  lemma OnlyNone(a: Alarms, b: Alarms)
    requires AppliedAll(a, b, [])
    ensures b == a
  {}

  lemma AppliedNot(a: Alarms, c: Command)
    ensures c.t >= |a.time| ==> Applied(a, a, c)
  {}

  lemma PlaceIs(w: seq<nat>, time: seq<int>, t: nat, timeout: int, i: nat)
    requires t < |time| && t !in w && i <= |w| && forall k :: 0 <= k < |w| ==> w[k] < |time|
    requires var later := time[t := timeout];
      && (i == 0 <==> w == [] || timeout < later[w[0]]) && (i < |w| ==> timeout <= later[w[i]])
      && forall k :: 1 <= k < i ==> later[w[k]] < timeout
    ensures GoesAt(w, time, timeout, i)
  {
    forall k | 0 <= k < |w| ensures time[t := timeout][w[k]] == time[w[k]] {}
  }

  lemma ArmedIs(a: Alarms, b: Alarms, t: nat, timeout: int, w: seq<nat>, i: nat)
    requires t < |a.time| == |a.active| && TakenOut(a.chain, w, t) && GoesAt(w, a.time, timeout, i)
    requires b.chain == Insert(w, i, t) && b.time == a.time[t := timeout] && b.active == a.active[t := true]
    ensures Applied(a, b, Arm(t, timeout))
  {}

  class AlarmChain {
    var chain: seq<nat>
    var time: seq<int>
    var active: seq<bool>
    var nextTimeout: int
    var callExpire: bool
    var currTime: int
    // The alarm that the clock task has been asked for, 0 if none.
    ghost var alarm: int

    ghost function Model(): Alarms
      reads this
    {
      Alarms(chain, time, active)
    }

    /** The chain is sorted and holds exactly the active timers; nextTimeout is the alarm. */
    ghost predicate Valid()
      reads this
    {
      && |active| == |time| && Sorted(chain, time) && NoDup(chain)
      && (forall t :: 0 <= t < |time| ==> (active[t] <==> t in chain))
      && (nextTimeout != 0 ==> alarm == nextTimeout) && currTime >= 0
    }

    /** No timer is forgotten: an expiry pass is due, or an alarm comes before the first timer. */
    ghost predicate Covered()
      reads this
    {
      chain != [] && chain[0] < |time| ==> callExpire || (alarm != 0 && alarm <= time[chain[0]] && alarm == nextTimeout)
    }

    constructor (n: nat)
      ensures Valid() && Covered() && |time| == n && chain == [] && !callExpire
    {
      chain, time, active := [], seq(n, _ => 0), seq(n, _ => false);
      nextTimeout, callExpire, currTime := 0, false, 0;
      alarm := 0;
    }

    /** get_time: `now` is what the clock task would answer. */
    method GetTime(now: int) returns (t: int)
      requires now >= 0 && currTime >= 0
      modifies this`currTime
      ensures currTime == t >= 0 && t == if old(currTime) == 0 then now else old(currTime)
    {
      if currTime == 0 { currTime := now; }
      t := currTime;
    }

    /** set_timer: flag an expiry pass if the first timer is due, else ask for an alarm in time. */
    method SetTimer(now: int)
      requires Valid() && now >= 0
      modifies this`currTime, this`nextTimeout, this`callExpire, this`alarm
      ensures Valid() && Covered() && (old(callExpire) ==> callExpire)
      ensures currTime >= old(currTime) && (old(currTime) > 0 ==> currTime == old(currTime))
      ensures chain == [] ==> nextTimeout == old(nextTimeout) && callExpire == old(callExpire)
      ensures chain != [] ==> chain[0] < |time| && callExpire == (old(callExpire) || time[chain[0]] <= currTime)
      ensures chain != [] ==>
        var sooner := time[chain[0]] > currTime && (old(nextTimeout) == 0 || time[chain[0]] < old(nextTimeout));
        nextTimeout == if sooner then time[chain[0]] else old(nextTimeout)
    {
      if chain == [] { return; }
      var curr := GetTime(now);
      var newTime := time[chain[0]];
      if newTime <= curr {
        callExpire := true;
        return;
      }
      if nextTimeout == 0 || newTime < nextTimeout {
        nextTimeout := newTime;
        alarm := newTime;
      }
    }

    /** clck_fast_release: take a timer off the chain. */
    method FastRelease(t: nat)
      requires Valid() && t < |time|
      modifies this`chain, this`active
      ensures Valid() && !active[t] && active == old(active)[t := false] && TakenOut(old(chain), chain, t)
      ensures forall x :: x in chain <==> x in old(chain) && x != t
      ensures chain != [] ==> old(chain) != [] && time[old(chain)[0]] <= time[chain[0]]
    {
      if !active[t] { return; }
      var i := 0;
      while chain[i] != t
        invariant 0 <= i < |chain| && t in chain[i..]
        decreases |chain| - i
      {
        assert chain[i..] == [chain[i]] + chain[i + 1..];
        i := i + 1;
      }
      RemoveMembers(chain, i);
      RemoveSorted(chain, time, i);
      chain := Remove(chain, i);
      active := active[t := false];
    }

    /** clck_timer: (re)arm a timer. */
    method ClckTimer(t: nat, timeout: int, now: int)
      requires Valid() && t < |time| && now >= 0
      modifies this
      ensures Valid() && |time| == |old(time)| && time == old(time)[t := timeout] && active == old(active)[t := true]
      ensures forall x :: x in chain <==> x in old(chain) || x == t
      ensures Applied(old(Model()), Model(), Arm(t, timeout))
      ensures old(Covered()) ==> Covered()
      ensures chain != [] && chain[0] < |time|
      ensures old(nextTimeout) != 0 && old(nextTimeout) <= time[chain[0]] ==> nextTimeout == old(nextTimeout) && callExpire == old(callExpire)
      ensures old(callExpire) ==> callExpire
      ensures currTime >= old(currTime) && (old(currTime) > 0 ==> currTime == old(currTime))
    {
      hide Sorted, Applied, TakenOut, GoesAt, NoDup;
      FastRelease(t);
      ghost var a, w := old(Model()), chain;
      var i := Enter(t, timeout);
      ArmedIs(a, Model(), t, timeout, w, i);
      SortedSays(chain, time);
      if nextTimeout == 0 || time[chain[0]] < nextTimeout { SetTimer(now); }
    }

    /** The timer goes into the chain, in its place. */
    method Enter(t: nat, timeout: int) returns (i: nat)
      requires Valid() && t < |time| && !active[t]
      modifies this`chain, this`time, this`active
      ensures Valid() && time == old(time)[t := timeout] && active == old(active)[t := true] && t !in old(chain)
      ensures i <= |old(chain)| && chain == Insert(old(chain), i, t) && GoesAt(old(chain), old(time), timeout, i)
    {
      hide Sorted, GoesAt;
      SortedElsewhere(chain, time, t, timeout);
      time := time[t := timeout];
      SortedSays(chain, time);
      i := Place(timeout);
      PlaceIs(chain, old(time), t, timeout, i);
      InsertSorted(chain, time, i, t);
      chain := Insert(chain, i, t);
      active := active[t := true];
    }

    /** Where in the chain a new timer goes. */
    method Place(timeout: int) returns (i: nat)
      requires forall k :: 0 <= k < |chain| ==> chain[k] < |time|
      ensures i <= |chain| && (i > 0 ==> time[chain[i - 1]] <= timeout) && (i < |chain| ==> timeout <= time[chain[i]])
      ensures i == 0 <==> chain == [] || timeout < time[chain[0]]
      ensures forall k :: 1 <= k < i ==> time[chain[k]] < timeout
    {
      i := 0;
      if chain == [] || timeout < time[chain[0]] { return; }
      i := 1;
      while i < |chain| && time[chain[i]] < timeout
        invariant 1 <= i <= |chain| && time[chain[i - 1]] <= timeout && forall k :: 1 <= k < i ==> time[chain[k]] < timeout
      {
        i := i + 1;
      }
    }

    /** clck_untimer. */
    method ClckUntimer(t: nat, now: int)
      requires Valid() && t < |time| && now >= 0
      modifies this
      ensures Valid() && time == old(time) && active == old(active)[t := false]
      ensures forall x :: x in chain <==> x in old(chain) && x != t
      ensures Applied(old(Model()), Model(), Disarm(t))
      ensures Covered() && (old(callExpire) ==> callExpire)
      ensures currTime >= old(currTime) && (old(currTime) > 0 ==> currTime == old(currTime))
    {
      FastRelease(t);
      SetTimer(now);
    }

    /** clck_tick: the alarm has come. */
    method ClckTick(now: int)
      requires Valid() && now >= 0
      modifies this`currTime, this`nextTimeout, this`callExpire, this`alarm
      ensures Valid() && Covered()
    {
      nextTimeout := 0;
      alarm := 0;
      SetTimer(now);
    }

    /** What a timer function does: set and cancel timers. */
    method CallBack(commands: seq<Command>, now: int)
      requires Valid() && now >= 0
      modifies this
      ensures Valid() && |time| == |old(time)| && currTime >= old(currTime) && (old(currTime) > 0 ==> currTime == old(currTime))
      ensures forall x :: 0 <= x < |time| && !Touches(commands, x) ==> time[x] == old(time)[x] && active[x] == old(active)[x]
      ensures AppliedAll(old(Model()), Model(), commands)
      ensures commands == [] ==> callExpire == old(callExpire)
    {
      hide Applied, AppliedAll, Sorted;
      NoneApplied(Model());
      ghost var n := |time|;
      var i := 0;
      while i < |commands|
        invariant Valid() && |time| == n && currTime >= old(currTime) && (old(currTime) > 0 ==> currTime == old(currTime))
        invariant i <= |commands| && AppliedAll(old(Model()), Model(), commands[..i])
        invariant i == 0 ==> callExpire == old(callExpire)
        invariant forall x :: 0 <= x < n && !Touches(commands[..i], x) ==> time[x] == old(time)[x] && active[x] == old(active)[x]
      {
        var c := commands[i];
        TouchesMore(commands, i);
        ghost var m := Model();
        AppliedNot(m, c);
        if c.t < |time| {
          match c
          case Arm(t, timeout) => ClckTimer(t, timeout, now);
          case Disarm(t) => ClckUntimer(t, now);
        }
        AppliedMore(old(Model()), m, Model(), commands, i);
        i := i + 1;
      }
      assert commands[..i] == commands;
    }

    /** The first timer is taken off the chain and its function called. */
    method ExpireFirst(script: seq<Command>, now: int)
      requires Valid() && chain != [] && currTime > 0 && now >= 0
      modifies this
      ensures Valid() && |time| == |old(time)| && currTime == old(currTime) && old(chain)[0] < |time| && old(active)[old(chain)[0]]
      ensures forall x :: 0 <= x < |time| && !Touches(script, x) ==>
        time[x] == old(time)[x] && active[x] == old(active)[old(chain)[0] := false][x]
      ensures AppliedAll(old(Model()).(chain := old(chain)[1..], active := old(active)[old(chain)[0] := false]), Model(), script)
      ensures script == [] ==> callExpire == old(callExpire)
    {
      hide AppliedAll, Applied;
      var t := chain[0];
      RemoveMembers(chain, 0);
      RemoveSorted(chain, time, 0);
      assert chain[1..] == Remove(chain, 0);
      active := active[t := false];
      chain := chain[1..];
      CallBack(script, now);
    }

    /** clck_expire_timers: call the functions of all timers that are due, in `called`.  The functions
        may set and cancel any timers: the k-th call does `scripts[k]`, later ones nothing.  Timers that
        no function touches are called, once, exactly if they are due, and else stay as they are. */
    method ExpireTimers(now: int, scripts: seq<seq<Command>>) returns (called: seq<nat>)
      requires Valid() && now > 0
      modifies this
      ensures Valid() && Covered() && |time| == |old(time)|
      ensures chain != [] ==> time[chain[0]] > currTime
      ensures forall x :: 0 <= x < |time| && !Touched(scripts, x) ==>
        && time[x] == old(time)[x] && active[x] == (old(active)[x] && time[x] > currTime)
        && multiset(called)[x] == if old(active)[x] && time[x] <= currTime then 1 else 0
      ensures CalledAll(old(Model()), Model(), called, scripts, currTime)
      ensures scripts == [] ==> called + chain == old(chain) && !callExpire
    {
      hide Passed, Sorted, Touched, Touches, CalledAll, AppliedAll, NoDup;
      NoneCalled(Model(), scripts, currTime);
      callExpire := false;
      called := [];
      PassedStarts(scripts, time, active, currTime);
      if chain == [] {
        assert forall x :: 0 <= x < |time| ==> !active[x];
        return;
      }
      var curr := GetTime(now);
      PassedStarts(scripts, time, active, curr);
      NoneCalled(Model(), scripts, curr);
      ghost var n := |time|;
      SortedSays(chain, time);
      while chain != [] && time[chain[0]] <= curr
        invariant Valid() && |time| == n && currTime == curr > 0
        invariant Passed(scripts, old(time), old(active), time, active, called, curr)
        invariant CalledAll(old(Model()), Model(), called, scripts, curr)
        invariant scripts == [] ==> called + chain == old(chain) && !callExpire
        invariant forall k :: 0 <= k < |chain| ==> chain[k] < n
        decreases if |called| < |scripts| then |scripts| - |called| else 0, |chain|
      {
        ghost var called0, chain0, time0, active0, m := called, chain, time, active, Model();
        var script := if |called| < |scripts| then scripts[|called|] else [];
        called := called + [chain[0]];
        ExpireFirst(script, now);
        PassedMore(scripts, old(time), old(active), time0, active0, called0, curr, chain0[0], script, time, active);
        assert called0 + chain0 == called + chain0[1..];
        CalledMore(old(Model()), m, Model(), called0, chain0[0], scripts, curr);
        if script == [] { OnlyNone(m.(chain := m.chain[1..], active := m.active[chain0[0] := false]), Model()); }
        SortedSays(chain, time);
      }
      FirstLater();
      PassedEnds(scripts, old(time), old(active), time, active, called, curr);
      SetTimer(now);
    }

    /** When the first timer is not due, none is. */
    lemma FirstLater()
      requires Valid() && (chain != [] ==> chain[0] < |time| && time[chain[0]] > currTime)
      ensures forall x :: 0 <= x < |time| && active[x] ==> time[x] > currTime
    {
      forall x | 0 <= x < |time| && active[x] ensures time[x] > currTime {
        var i :| 0 <= i < |chain| && chain[i] == x;
        assert time[chain[0]] <= time[chain[i]];
      }
    }
  }

  /** Timers that no function touches: the ones called so far were due and are not active any more. */
  ghost predicate Passed(scripts: seq<seq<Command>>, time0: seq<int>, active0: seq<bool>, time: seq<int>, active: seq<bool>,
                         called: seq<nat>, curr: int) {
    && |time0| == |active0| == |time| == |active|
    && forall x :: 0 <= x < |time| && !Touched(scripts, x) ==>
      (&& time[x] == time0[x] && (active[x] ==> active0[x]) && (active0[x] && !active[x] ==> time[x] <= curr)
      && multiset(called)[x] == if active0[x] && !active[x] then 1 else 0)
  }

  lemma PassedStarts(scripts: seq<seq<Command>>, time: seq<int>, active: seq<bool>, curr: int)
    requires |time| == |active|
    ensures Passed(scripts, time, active, time, active, [], curr)
  {}

  lemma PassedEnds(scripts: seq<seq<Command>>, time0: seq<int>, active0: seq<bool>, time: seq<int>, active: seq<bool>,
                   called: seq<nat>, curr: int)
    requires Passed(scripts, time0, active0, time, active, called, curr) && |time| == |active|
    requires forall x :: 0 <= x < |time| && active[x] ==> time[x] > curr
    ensures |time0| == |active0| == |time|
    ensures forall x :: 0 <= x < |time| && !Touched(scripts, x) ==>
      && time[x] == time0[x] && active[x] == (active0[x] && time[x] > curr)
      && multiset(called)[x] == if active0[x] && time[x] <= curr then 1 else 0
  {}

  lemma PassedMore(scripts: seq<seq<Command>>, time0: seq<int>, active0: seq<bool>, time: seq<int>, active: seq<bool>,
                   called: seq<nat>, curr: int, t: nat, script: seq<Command>, time': seq<int>, active': seq<bool>)
    requires Passed(scripts, time0, active0, time, active, called, curr) && t < |time| && active[t] && time[t] <= curr
    requires script == [] || script in scripts
    requires |time'| == |active'| == |time|
    requires forall x :: 0 <= x < |time| && !Touches(script, x) ==> time'[x] == time[x] && active'[x] == active[t := false][x]
    ensures Passed(scripts, time0, active0, time', active', called + [t], curr)
  {
    forall x | 0 <= x < |time| && !Touched(scripts, x) ensures !Touches(script, x) {
      if script != [] { var k :| 0 <= k < |scripts| && scripts[k] == script; }
    }
    forall x ensures multiset(called + [t])[x] == multiset(called)[x] + if x == t then 1 else 0 {}
  }
}
