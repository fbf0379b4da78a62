/** clock.c, thread.c and timer.c together: the timer of every thread is in the timer list exactly while the
    thread is asleep with a time limit, and a tick wakes exactly those whose time has come. */
module Ticks {
  import opened RtList
  import opened Queues
  import opened ReadyIndex
  import opened Kernel
  import Timer

  /** The thread timers are one-shot; they are in the last row, which holds every active timer, exactly
      while armed. */
  ghost predicate Linked(threads: map<int, Thread>, timers: set<int>, periodic: map<int, bool>, bottom: seq<int>) {
    forall t :: t in threads ==> t in timers && t in periodic && !periodic[t] && (threads[t].armed <==> t in bottom)
  }

  lemma LinkedOn(threads: map<int, Thread>, threads2: map<int, Thread>, timers: set<int>, periodic: map<int, bool>, b: seq<int>, b2: seq<int>, t: int)
    requires Linked(threads, timers, periodic, b) && t in threads && t in threads2 && threads2 == threads[t := threads2[t]]
    requires threads2[t].armed && Timer.Joined(b, b2, t)
    ensures Linked(threads2, timers, periodic, b2)
  {
  }

  lemma LinkedOff(threads: map<int, Thread>, threads2: map<int, Thread>, timers: set<int>, periodic: map<int, bool>, b: seq<int>, b2: seq<int>, t: int)
    requires Linked(threads, timers, periodic, b) && t in threads && t in threads2 && threads2 == threads[t := threads2[t]]
    requires !threads2[t].armed && Timer.Left(b, b2, t)
    ensures Linked(threads2, timers, periodic, b2)
  {
  }

  /** The threads whose time has come. */
  ghost function Due(threads: map<int, Thread>, deadline: map<int, int>, now: int): set<int> {
    set t | t in threads && threads[t].armed && t in deadline && deadline[t] <= now
  }

  /** Exactly the due threads were woken, each with the error of a timeout. */
  ghost predicate Expired(threads: map<int, Thread>, threads2: map<int, Thread>, due: set<int>) {
    && Roused(threads, threads2, due, {}) && threads2.Keys == threads.Keys
    && (forall t :: t in threads && t in due ==> t in threads2 && threads2[t].error == ETimeout)
    && (forall t :: t in threads && t !in due ==> t in threads2 && threads2[t] == threads[t])
  }

  lemma ExpiredNone(threads: map<int, Thread>)
    ensures Expired(threads, threads, {})
  {
  }

  lemma ExpiredMore(threads0: map<int, Thread>, threads1: map<int, Thread>, threads2: map<int, Thread>, due: set<int>, t: int)
    requires Expired(threads0, threads1, due) && t in threads0 && t !in due && t in threads1 && t in threads2
    requires threads2 == threads1[t := threads2[t]] && threads2[t].error == ETimeout && Roused(threads1, threads2, {t}, {})
    ensures Expired(threads0, threads2, due + {t})
  {
  }

  class Clock {
    const kernel: Kernel
    const timers: Timer.Timers

    ghost predicate Valid()
      reads this, kernel, timers
    {
      && kernel.Valid() && timers.Inv(timers.now) && timers.Flagged()
      && Linked(kernel.threads, timers.timers, timers.periodic, timers.Bottom())
      && forall t :: t in timers.timers && timers.periodic[t] ==> 1 <= timers.initTick[t] < Timer.HALF
    }

    constructor (kernel: Kernel, timers: Timer.Timers)
      requires kernel.Valid() && kernel.threads == map[] && timers.Inv(timers.now) && timers.Flagged() && timers.timers == {}
      ensures Valid() && this.kernel == kernel && this.timers == timers
    {
      this.kernel, this.timers := kernel, timers;
    }

    /** _rt_thread_init */
    method AddThread(t: int, prio: nat, slice: nat)
      requires Valid() && t !in kernel.at && t !in timers.timers && t != Timer.HEAD && 0 < t && prio < Limit(kernel.wide)
      modifies kernel, timers
      ensures Valid() && kernel.AddThreadStep(t, prio, slice)
    {
      hide ListsOk, ThreadsOk, Frame, Timer.RowsOk, Timer.ListsOk, Timer.RangeOk, Timer.Final;
      kernel.AddThread(t, prio, slice);
      timers.InitTimer(t, 0, false, timers.now);
    }

    /** The timer of a thread is set and started. */
    method StartTimer(t: int, time: nat)
      requires timers.Inv(timers.now) && timers.Flagged() && t in timers.timers && t in timers.periodic && !timers.periodic[t] && time < Timer.HALF
      requires forall t :: t in timers.timers && timers.periodic[t] ==> 1 <= timers.initTick[t] < Timer.HALF
      modifies timers
      ensures timers.Inv(timers.now) && timers.Flagged() && timers.now == old(timers.now) && timers.timers == old(timers.timers)
      ensures timers.periodic == old(timers.periodic) && timers.deadline == old(timers.deadline)[t := timers.now + time]
      ensures Timer.Joined(old(timers.Bottom()), timers.Bottom(), t)
      ensures forall t :: t in timers.timers && timers.periodic[t] ==> 1 <= timers.initTick[t] < Timer.HALF
    {
      hide Timer.RowsOk, Timer.ListsOk, Timer.RangeOk, Timer.FlagsOk, Timer.Final, Timer.Joined, Timer.Started, Timer.Stopped;
      timers.SetTime(t, time, timers.now);
      ghost var stop := timers.Start(t, timers.now);
    }

    /** rt_thread_sleep */
    method Sleep(time: nat)
      requires Valid() && kernel.current in kernel.at && kernel.current in kernel.threads && kernel.threads[kernel.current].stat == Ready
      requires time < Timer.HALF
      modifies kernel, timers
      ensures Valid() && kernel.current == old(kernel.current) && kernel.SleepStep()
      ensures timers.now == old(timers.now) && timers.deadline == old(timers.deadline)[kernel.current := timers.now + time]
    {
      hide ListsOk, ThreadsOk, Frame, Leave, Linked, Timer.RowsOk, Timer.ListsOk, Timer.RangeOk, Timer.FlagsOk, Timer.Final, Timer.Joined;
      var t := kernel.current;
      ghost var threads0, b := kernel.threads, timers.Bottom();
      Known(t);
      kernel.Sleep();
      StartTimer(t, time);
      LinkedOn(threads0, kernel.threads, timers.timers, timers.periodic, b, timers.Bottom(), t);
    }

    lemma Known(t: int)
      requires Valid() && t in kernel.threads
      ensures t in timers.timers && t in timers.periodic && !timers.periodic[t] && (kernel.threads[t].armed <==> t in timers.Bottom())
    {
      hide ListsOk, ThreadsOk;
    }

    /** rt_ipc_list_suspend and the timer of a wait that is limited. */
    method Block(h: int, t: int, byPriority: bool, time: int)
      requires Valid() && t in kernel.at && kernel.threads[t].stat == Ready && h in kernel.q && h < DEFUNCT && time < Timer.HALF
      modifies kernel, timers
      ensures Valid() && timers.now == old(timers.now) && h in old(kernel.q) && h in kernel.q && t in old(kernel.threads)
      ensures kernel.q[h] == Enqueued(old(kernel.q)[h], old(kernel.threads), t, byPriority)
      ensures kernel.threads == old(kernel.threads)[t := old(kernel.threads)[t].(stat := Stat.Suspend, armed := time > 0)]
      ensures timers.deadline == if time > 0 then old(timers.deadline)[t := timers.now + time] else old(timers.deadline)
    {
      hide ListsOk, ThreadsOk, Frame, Enqueued, Urgent, SameWaits, Roused, Linked, Timer.RowsOk, Timer.ListsOk, Timer.RangeOk, Timer.FlagsOk,
           Timer.Final, Timer.Joined;
      kernel.StatOf(t);
      Known(t);
      ghost var threads0, b := kernel.threads, timers.Bottom();
      kernel.Block(h, t, byPriority, time > 0);
      if time > 0 {
        StartTimer(t, time);
        LinkedOn(threads0, kernel.threads, timers.timers, timers.periodic, b, timers.Bottom(), t);
      } else {
        NotIn(b, t);
        LinkedOff(threads0, kernel.threads, timers.timers, timers.periodic, b, b, t);
      }
    }

    lemma NotIn(b: seq<int>, t: int)
      requires t !in b
      ensures Timer.Left(b, b, t)
    {
    }

    /** rt_ipc_list_resume: the first waiter, and its timer with it. */
    method ListResume(h: int)
      requires Valid() && h in kernel.q && h < DEFUNCT && kernel.q[h] != []
      modifies kernel, timers
      ensures Valid() && timers.now == old(timers.now) && timers.deadline == old(timers.deadline)
      ensures h in old(kernel.q) && h in kernel.q && kernel.q[h] == old(kernel.q)[h][1..]
      ensures Roused(old(kernel.threads), kernel.threads, {old(kernel.q)[h][0]}, {})
    {
      hide ListsOk, ThreadsOk, Frame, Urgent, SameWaits, Roused, Linked, Timer.RowsOk, Timer.ListsOk, Timer.RangeOk, Timer.FlagsOk, Timer.Final,
           Timer.Left, Timer.Stopped, Timer.Absent;
      kernel.WaiterFacts(h);
      var t := kernel.links.next[h];
      Known(t);
      ghost var threads0, b := kernel.threads, timers.Bottom();
      kernel.ListResume(h);
      var ok := timers.Stop(t, timers.now);
      LinkedOff(threads0, kernel.threads, timers.timers, timers.periodic, b, timers.Bottom(), t);
    }

    /** rt_tick_increase, its timer half: the timeout functions of the expired thread timers wake their
        threads, by deadline and then by start. */
    method Tick()
      requires Valid()
      modifies kernel, timers
      ensures Valid() && timers.now == old(timers.now) + 1 && kernel.current == old(kernel.current)
      ensures Expired(old(kernel.threads), kernel.threads, Due(old(kernel.threads), old(timers.deadline), timers.now))
      ensures forall t :: t in old(timers.deadline) && t in kernel.threads && kernel.threads[t].armed ==>
                t in timers.deadline && timers.deadline[t] == old(timers.deadline)[t]
    {
      hide ListsOk, ThreadsOk, Frame, Roused, Linked, Expired, Timer.Rearmed, Timer.RowsOk, Timer.ListsOk, Timer.RangeOk, Timer.FlagsOk,
           Timer.Final, Timer.InTurn, Timer.Untouched, Timer.Sorted, Distinct;
      ghost var threads0, dl, b, st := kernel.threads, timers.deadline, timers.Bottom(), timers.stamp;
      timers.InTheList(timers.now);
      var fired := timers.Tick();
      FiredMeans(threads0, timers.timers, timers.periodic, b, dl, st, timers.now, fired);
      WakeAll(fired, threads0);
      TickLinked(threads0, kernel.threads, timers.timers, timers.periodic, b, timers.Bottom(), fired, dl, timers.deadline, timers.initTick, timers.now);
    }

    /** The timeout functions of the fired timers. */
    method WakeAll(fired: seq<int>, ghost threads0: map<int, Thread>)
      requires kernel.Valid() && kernel.threads == threads0 && Distinct(fired) && forall t :: t in fired && t in threads0 ==> threads0[t].armed
      modifies kernel`links, kernel`threads, kernel`index, kernel`q, kernel`at
      ensures kernel.Valid() && Expired(threads0, kernel.threads, Among(fired, threads0))
    {
      hide ListsOk, ThreadsOk, Frame, Roused, Expired, Distinct;
      ExpiredNone(threads0);
      assert Among(fired[..0], threads0) == {};
      for i := 0 to |fired|
        modifies kernel`links, kernel`threads, kernel`index, kernel`q, kernel`at
        invariant kernel.Valid() && Expired(threads0, kernel.threads, Among(fired[..i], threads0))
      {
        ghost var threads1 := kernel.threads;
        NextFired(fired, threads0, threads1, i);
        kernel.Known();
        if fired[i] in kernel.threads {
          kernel.Timeout(fired[i]);
          ExpiredMore(threads0, threads1, kernel.threads, Among(fired[..i], threads0), fired[i]);
        }
      }
      assert fired[..|fired|] == fired;
    }
  }

  ghost function Among(s: seq<int>, threads: map<int, Thread>): set<int> {
    set t | t in s && t in threads
  }

  lemma NextFired(fired: seq<int>, threads0: map<int, Thread>, threads1: map<int, Thread>, i: nat)
    requires i < |fired| && Distinct(fired) && Expired(threads0, threads1, Among(fired[..i], threads0))
    ensures fired[i] in threads1 <==> fired[i] in threads0
    ensures fired[i] in threads0 ==> threads1[fired[i]] == threads0[fired[i]] && fired[i] !in Among(fired[..i], threads0)
    ensures Among(fired[..i + 1], threads0) == if fired[i] in threads0 then Among(fired[..i], threads0) + {fired[i]} else Among(fired[..i], threads0)
  {
    assert fired[..i + 1] == fired[..i] + [fired[i]];
    assert fired[i] !in fired[..i];
    var t, due := fired[i], Among(fired[..i], threads0);
    assert t !in due;
    if t in threads0 { assert t in threads1 && threads1[t] == threads0[t]; }
  }

  /** A thread sleeps: through time - 1 ticks it stays asleep, and the last one wakes it. */
  method SleepFor(c: Clock, time: nat)
    requires c.Valid() && c.kernel.current in c.kernel.at && c.kernel.current in c.kernel.threads
    requires c.kernel.threads[c.kernel.current].stat == Ready && 1 <= time < Timer.HALF
    modifies c.kernel, c.timers
    ensures c.Valid() && c.timers.now == old(c.timers.now) + time
    ensures c.kernel.current in c.kernel.threads && Running(c.kernel.threads[c.kernel.current])
    ensures c.kernel.threads[c.kernel.current].error == ETimeout
  {
    hide ListsOk, ThreadsOk, Frame, Linked, Leave, Timer.RowsOk, Timer.ListsOk, Timer.RangeOk, Timer.FlagsOk, Timer.Final;
    var t := c.kernel.current;
    ghost var now0 := c.timers.now;
    c.Sleep(time);
    for i := 1 to time
      modifies c.kernel, c.timers
      invariant c.Valid() && c.kernel.current == t && c.timers.now == now0 + i - 1
      invariant t in c.kernel.threads && c.kernel.threads[t].stat == Stat.Suspend && c.kernel.threads[t].armed
      invariant t in c.timers.deadline && c.timers.deadline[t] == now0 + time
    {
      c.Tick();
    }
    c.Tick();
  }

  /** In the sorted list those fired are those whose deadline has come. */
  lemma FiredMeans(threads: map<int, Thread>, timers: set<int>, periodic: map<int, bool>, b: seq<int>, deadline: map<int, int>,
                   stamp: map<int, nat>, now: int, fired: seq<int>)
    requires Linked(threads, timers, periodic, b) && Timer.Sorted(b, deadline, stamp) && Distinct(b)
    requires fired == b[..Timer.Rank(b, deadline, now)]
    ensures Distinct(fired) && Among(fired, threads) == Due(threads, deadline, now)
    ensures forall t :: t in fired && t in threads ==> threads[t].armed
  {
    Timer.RankSplits(b, deadline, stamp, now);
    forall t | t in threads ensures t in fired <==> threads[t].armed && t in deadline && deadline[t] <= now {
      if t in fired {
        var i :| 0 <= i < |fired| && fired[i] == t;
        assert b[i] == t;
      }
    }
  }

  /** After a tick the armed threads are those still in the list. */
  lemma TickLinked(threads: map<int, Thread>, threads2: map<int, Thread>, timers: set<int>, periodic: map<int, bool>, b: seq<int>, b2: seq<int>,
                   fired: seq<int>, dl: map<int, int>, dl2: map<int, int>, initTick: map<int, nat>, now: int)
    requires Linked(threads, timers, periodic, b) && Timer.Rearmed(fired, b, b2, dl, dl2, initTick, periodic, now)
    requires Expired(threads, threads2, Among(fired, threads))
    ensures Linked(threads2, timers, periodic, b2)
    ensures forall t :: t in dl && t in threads2 && threads2[t].armed ==> t in dl2 && dl2[t] == dl[t]
  {
  }
}
