/** ipc.c, mutexes, used by threads that hold no other mutex: recursion, hand-off to the first
    waiter and priority inheritance. A method is one region with interrupts disabled. */
module Mutexes {
  import opened RtList
  import opened Queues
  import opened ReadyIndex
  import opened Kernel
  import opened Waits

  /** o is at least as urgent as everyone in s. */
  ghost predicate Leads(o: int, s: seq<int>, threads: map<int, Thread>) {
    forall t :: t in s ==> AsUrgent(threads, o, t)
  }

  const M8: nat := 0x100             // the hold field has 8 bits

  /** Among the threads inside a take exactly the owner has been handed the mutex. */
  ghost predicate OwnerOk(owner: int, fate: map<int, Fate>, at: map<int, int>) {
    && (owner != 0 ==> owner in at) && 0 !in fate
    && forall t :: t in fate ==> (fate[t] == Granted <==> t == owner)
  }

  /** Another thread starts to wait. */
  lemma OwnerJoined(owner: int, fate: map<int, Fate>, at: map<int, int>, at2: map<int, int>, t: int)
    requires OwnerOk(owner, fate, at) && t != owner && t != 0 && at.Keys <= at2.Keys
    ensures OwnerOk(owner, fate[t := Waiting], at2)
  {
  }

  lemma OwnerAlive(owner: int, fate: map<int, Fate>, at: map<int, int>)
    requires OwnerOk(owner, fate, at)
    ensures (owner != 0 ==> owner in at) && 0 !in fate && (owner in fate ==> fate[owner] == Granted)
  {
  }

  class Mutex {
    const kernel: Kernel
    const head: int
    const byPriority: bool
    var value: nat
    var owner: int                   // 0 for none
    var originalPriority: nat
    var hold: nat
    ghost var fate: map<int, Fate>

    /** The invariant, with the lists and control blocks of the kernel as in v. */
    ghost predicate Fits(v: View)
      reads this
    {
      && head < DEFUNCT && head in v.q && FatesOk(fate, v.q[head], v.threads)
      && (value == 1 <==> owner == 0) && (hold == 0 <==> owner == 0) && value <= 1
      && (v.q[head] != [] ==> owner != 0) && OwnerOk(owner, fate, v.at)
      && (owner != 0 ==> originalPriority < Limit(kernel.wide)) && hold < M8
    }

    ghost predicate Valid()
      reads this, kernel
    {
      kernel.Valid() && Fits(kernel.See())
    }

    ghost predicate InheritsIn(v: View)
      requires head in v.q
      reads this
    {
      && Urgent(v.q[head], v.threads)
      && (owner != 0 ==> owner in v.threads && v.threads[owner].prio <= originalPriority)
      && (owner != 0 ==> Leads(owner, v.q[head], v.threads))
    }

    /** Priority inheritance: the owner is at least as urgent as when it took the mutex, and as every
        waiter; the most urgent waiter is in front. */
    ghost predicate Inherits()
      requires head in kernel.q
      reads this, kernel
    {
      InheritsIn(kernel.See())
    }

    /** rt_mutex_init */
    constructor (kernel: Kernel, head: int, byPriority: bool)
      requires kernel.Valid() && head < DEFUNCT && head !in kernel.q
      modifies kernel`links, kernel`q
      ensures Valid() && Inherits() && owner == 0 && fate == map[]
      ensures kernel.q == old(kernel.q)[head := []] && Frame(old(kernel.See()), kernel.See(), {}, {}, {}, kernel.wide)
      ensures this.kernel == kernel && this.head == head && this.byPriority == byPriority
    {
      hide ListsOk, ThreadsOk, Frame;
      this.kernel, this.head, this.byPriority := kernel, head, byPriority;
      value, owner, originalPriority, hold, fate := 1, 0, 0xFF, 0, map[];
      new;
      kernel.AddList(head);
    }

    twostate predicate TakeStep(t: int, time: int, r: TakeResult)
      reads this, kernel
    {
      && head in old(kernel.q) && head in kernel.q && t in old(kernel.threads) && t in kernel.threads
      && Frame(old(kernel.See()), kernel.See(), {head}, {t}, {old(owner)}, kernel.wide)
      && Roused(old(kernel.threads), kernel.threads, {}, if r == Blocked then {t} else {})
      && (r == if old(owner) == t || old(owner) == 0 then Taken else if time == 0 then NoWait else Blocked)
      && (r == Taken ==> owner == t && hold == (old(hold) + 1) % M8 && kernel.q == old(kernel.q) && fate == old(fate))
      && (r == Taken ==> originalPriority == if old(owner) == t then old(originalPriority) else old(kernel.threads)[t].prio)
      && (r != Taken ==> owner == old(owner) && hold == old(hold) && originalPriority == old(originalPriority))
      && (r == NoWait ==> kernel.q == old(kernel.q) && fate == old(fate) && kernel.threads[t].error == ETimeout)
      && (r == Blocked ==> fate == old(fate)[t := Waiting] && kernel.threads[t].armed == (time > 0))
      && (r == Blocked ==> t in old(kernel.threads) && kernel.q[head] == Enqueued(old(kernel.q[head]), old(kernel.threads), t, byPriority))
      && (r == Blocked && owner in old(kernel.threads) ==>
           owner in kernel.threads && kernel.threads[owner].prio == Least(old(kernel.threads)[owner].prio, old(kernel.threads)[t].prio))
    }

    /** rt_mutex_take up to the point where the thread either returns or gives up the processor. Nothing
        stops the 256th nested take, after which a held mutex has the hold count 0. */
    method Take(t: int, time: int) returns (r: TakeResult)
      requires Valid() && t in kernel.at && kernel.threads[t].stat == Ready && t !in fate
      modifies this, kernel
      ensures Valid() <==> !(old(owner) == t && old(hold) == M8 - 1)
      ensures kernel.Valid() && head in kernel.q && (byPriority && old(Inherits()) ==> Inherits())
      ensures TakeStep(t, time, r)
    {
      hide ListsOk, ThreadsOk, Urgent, Enqueued, AttrOf, Leads, FatesOk, Frame, Roused, OwnerOk, Mutex.Fits, Mutex.InheritsIn;
      HeadKnown();
      ghost var s, threads0, v, was := kernel.q[head], kernel.threads, kernel.See(), owner;
      kernel.StatOf(t);
      kernel.WaiterFacts(head);
      MarkError(t, EOk);
      ghost var v1 := kernel.See();
      EnqueuedSame(s, threads0, kernel.threads, t, byPriority);
      ghost var threads1 := kernel.threads;
      r := Acquire(t, time);
      RousedThen(threads0, threads1, kernel.threads, {}, if r == Blocked then {t} else {});
      FrameThen(v, v1, kernel.See(), {}, {t}, {}, {head}, {t}, {was}, {head}, {t}, {was}, kernel.wide);
    }

    lemma HeadKnown()
      requires Valid()
      ensures head < DEFUNCT && head in kernel.q
    {
    }

    /** The three outcomes of rt_mutex_take. */
    method Acquire(t: int, time: int) returns (r: TakeResult)
      requires Valid() && t in kernel.at && t !in fate
      requires t in kernel.threads && kernel.threads[t].stat == Ready && kernel.threads[t].error == EOk
      modifies this, kernel
      ensures Valid() <==> !(old(owner) == t && old(hold) == M8 - 1)
      ensures kernel.Valid() && head in kernel.q && (byPriority && old(Inherits()) ==> Inherits())
      ensures TakeStep(t, time, r)
    {
      hide ListsOk, ThreadsOk, Urgent, Enqueued, AttrOf, Leads, FatesOk, Frame, Roused, OwnerOk;
      OwnerAlive(owner, fate, kernel.at);
      kernel.StatOf(t);
      ghost var v := kernel.See();
      FrameNone(v, {head}, {t}, {owner}, kernel.wide);
      RousedNone(kernel.threads);
      if owner == t {
        hold := (hold + 1) % M8;
        return Taken;
      }
      if value > 0 {
        Own(t);
        return Taken;
      }
      if time == 0 {
        MarkError(t, ETimeout);
        FrameWider(v, kernel.See(), {}, {t}, {}, {head}, {t}, {owner}, kernel.wide);
        return NoWait;
      }
      Wait(t, time);
      return Blocked;
    }

    /** A free mutex gets its owner. */
    method Own(t: int)
      requires Valid() && owner == 0 && t in kernel.at && t !in fate && t in kernel.threads
      modifies this`value, this`owner, this`originalPriority, this`hold
      ensures Valid() && (old(Inherits()) ==> Inherits())
      ensures owner == t && hold == 1 && originalPriority == kernel.threads[t].prio
    {
      hide ListsOk, Urgent, Leads, FatesOk;
      kernel.StatOf(t);
      value := value - 1;
      owner := t;
      originalPriority := kernel.threads[t].prio;
      hold := hold + 1;
      LeadsNone(t, kernel.threads);
    }

    /** thread->error of a thread that is not inside a take */
    method MarkError(t: int, e: Error)
      requires Valid() && t in kernel.at && t !in fate && t in kernel.threads
      modifies kernel
      ensures Valid() && (old(Inherits()) ==> Inherits()) && kernel.q == old(kernel.q) && kernel.at == old(kernel.at)
      ensures kernel.threads == old(kernel.threads)[t := old(kernel.threads)[t].(error := e)]
      ensures Frame(old(kernel.See()), kernel.See(), {}, {t}, {}, kernel.wide) && Roused(old(kernel.threads), kernel.threads, {}, {})
    {
      hide ListsOk, ThreadsOk, Urgent, Leads, FatesOk, Frame, Roused;
      ghost var s, threads0 := kernel.q[head], kernel.threads;
      kernel.SetError(t, e);
      FatesSame(fate, s, threads0, kernel.threads, t);
      LeadsSame(owner, s, threads0, kernel.threads);
    }

    /** The branch of rt_mutex_take that gives up the processor. */
    method Wait(t: int, time: int)
      requires Valid() && owner != 0 && t in kernel.at && t != owner && t !in fate
      requires t in kernel.threads && kernel.threads[t].stat == Ready && kernel.threads[t].error == EOk
      modifies this`fate, kernel
      ensures Valid() && (byPriority && old(Inherits()) ==> Inherits()) && fate == old(fate)[t := Waiting]
      ensures t in kernel.threads && kernel.threads[t].armed == (time > 0)
      ensures kernel.q[head] == Enqueued(old(kernel.q[head]), old(kernel.threads), t, byPriority)
      ensures owner in old(kernel.threads) && owner in kernel.threads
      ensures kernel.threads[owner].prio == Least(old(kernel.threads)[owner].prio, old(kernel.threads)[t].prio)
      ensures Frame(old(kernel.See()), kernel.See(), {head}, {t}, {owner}, kernel.wide)
      ensures Roused(old(kernel.threads), kernel.threads, {}, {t})
    {
      hide ListsOk, ThreadsOk, Urgent, Enqueued, AttrOf, Leads, FatesOk, Frame, Roused, OwnerOk;
      OwnerAlive(owner, fate, kernel.at);
      ghost var s, threads1, v := kernel.q[head], kernel.threads, kernel.See();
      kernel.WaiterFacts(head);
      FatesMean(fate, s, threads1, owner);
      Inherit(t);
      ghost var v2, threads2 := kernel.See(), kernel.threads;
      EnqueuedSame(s, threads1, kernel.threads, t, byPriority);
      Queue(t, time > 0);
      FrameThen(v, v2, kernel.See(), {}, {}, {owner}, {head}, {t}, {}, {head}, {t}, {owner}, kernel.wide);
      RousedThen(threads1, threads2, kernel.threads, {}, {t});
    }

    /** A thread no more urgent than the owner joins the waiters. */
    method Queue(t: int, timed: bool)
      requires Valid() && t in kernel.at && t != owner && t !in fate && owner != 0 && AsUrgent(kernel.threads, owner, t)
      requires kernel.threads[t].stat == Ready && kernel.threads[t].error == EOk
      modifies this`fate, kernel
      ensures Valid() && (byPriority && old(Inherits()) ==> Inherits()) && fate == old(fate)[t := Waiting]
      ensures kernel.q[head] == Enqueued(old(kernel.q[head]), old(kernel.threads), t, byPriority)
      ensures kernel.threads == old(kernel.threads)[t := old(kernel.threads)[t].(stat := Stat.Suspend, armed := timed)]
      ensures Frame(old(kernel.See()), kernel.See(), {head}, {t}, {}, kernel.wide) && Roused(old(kernel.threads), kernel.threads, {}, {t})
    {
      hide ListsOk, ThreadsOk, Urgent, SameWaits, Enqueued, AttrOf, Leads, FatesOk, Frame, Roused, OwnerOk;
      kernel.StatOf(t);
      ghost var s, threads2 := kernel.q[head], kernel.threads;
      kernel.Block(head, t, byPriority, timed);
      FatesBlock(fate, s, threads2, kernel.q[head], kernel.threads, t);
      LeadsMore(owner, s, kernel.q[head], threads2, kernel.threads, t);
      OwnerJoined(owner, fate, old(kernel.at), kernel.at, t);
      fate := fate[t := Waiting];
    }

    /** The owner takes over the priority of a more urgent thread that is about to wait. */
    method Inherit(t: int)
      requires Valid() && owner != 0 && t in kernel.at && t != owner
      modifies kernel
      ensures Valid() && kernel.q[head] == old(kernel.q[head]) && t in kernel.at && kernel.at[t] == old(kernel.at)[t]
      ensures kernel.at.Keys == old(kernel.at).Keys
      ensures owner in old(kernel.threads) && owner in kernel.threads && t in old(kernel.threads) && t in kernel.threads
      ensures kernel.threads == old(kernel.threads)[owner := kernel.threads[owner]]
      ensures kernel.threads[owner] == old(kernel.threads)[owner].(prio := kernel.threads[owner].prio, attr := kernel.threads[owner].attr)
      ensures kernel.threads[owner].prio == Least(old(kernel.threads)[owner].prio, old(kernel.threads)[t].prio)
      ensures old(Urgent(kernel.q[head], kernel.threads)) ==> Urgent(kernel.q[head], kernel.threads)
      ensures old(Leads(owner, kernel.q[head], kernel.threads)) ==> Leads(owner, kernel.q[head], kernel.threads)
      ensures Frame(old(kernel.See()), kernel.See(), {}, {}, {owner}, kernel.wide) && Roused(old(kernel.threads), kernel.threads, {}, {})
    {
      hide ListsOk, ThreadsOk, Urgent, AttrOf, Leads, Moved, FatesOk, Frame, Roused;
      ghost var s, threads0 := kernel.q[head], kernel.threads;
      FrameNone(kernel.See(), {}, {}, {owner}, kernel.wide);
      RousedNone(kernel.threads);
      kernel.StatOf(t);
      kernel.StatOf(owner);
      if kernel.threads[t].prio < kernel.threads[owner].prio {
        kernel.SetPriority(owner, kernel.threads[t].prio);
        WaitsSame(kernel.wide, head);
        FatesMean(fate, s, threads0, owner);
        OwnerChanged(owner, s, threads0, kernel.threads);
        FatesSame(fate, s, threads0, kernel.threads, owner);
      }
    }

    lemma WaitsSame(wide: bool, h: int)
      requires h < DEFUNCT
      ensures !IsReadyHead(h, wide)
    {
    }

    twostate predicate ReleaseStep(t: int, ok: bool)
      reads this, kernel
    {
      && head in old(kernel.q) && head in kernel.q && t in old(kernel.threads) && t in kernel.threads
      && Settled(old(fate), fate) && fate.Keys == old(fate).Keys
      && Frame(old(kernel.See()), kernel.See(), {head}, {t}, {t}, kernel.wide)
      && Roused(old(kernel.threads), kernel.threads, if ok && old(hold) == 1 then Foremost(old(kernel.q)[head]) else {}, {})
      && (ok <==> t == old(owner))
      && (!ok ==> owner == old(owner) && hold == old(hold) && fate == old(fate) && kernel.threads[t].error == EError)
      && (ok && old(hold) > 1 ==> owner == t && hold == old(hold) - 1 && originalPriority == old(originalPriority))
      && (ok && old(hold) > 1 ==> fate == old(fate) && kernel.threads == old(kernel.threads))
      && (ok && old(hold) == 1 ==> kernel.threads[t].prio == old(originalPriority))
      && (ok && old(hold) == 1 && old(kernel.q[head]) == [] ==> owner == 0 && hold == 0 && value == 1 && fate == old(fate))
      && (ok && old(hold) == 1 && old(kernel.q[head]) != [] ==> owner == old(kernel.q[head])[0] && hold == 1 && owner in kernel.threads)
      && (ok && old(hold) == 1 && old(kernel.q[head]) != [] ==>
           originalPriority == kernel.threads[owner].prio && kernel.threads[owner].stat == Ready && fate == old(fate)[owner := Granted])
    }

    /** rt_mutex_release by thread t. */
    method Release(t: int) returns (ok: bool)
      requires Valid() && t in kernel.at && t !in fate
      modifies this, kernel
      ensures Valid() && (byPriority && old(Inherits()) ==> Inherits())
      ensures ReleaseStep(t, ok)
    {
      hide ListsOk, ThreadsOk, Urgent, Leads, FatesOk, AttrOf, Frame, Roused;
      kernel.StatOf(t);
      ghost var v := kernel.See();
      FrameNone(v, {head}, {t}, {t}, kernel.wide);
      RousedNone(kernel.threads);
      if t != owner {
        MarkError(t, EError);
        FrameWider(v, kernel.See(), {}, {t}, {}, {head}, {t}, {t}, kernel.wide);
        return false;
      }
      hold := hold - 1;
      if hold == 0 {
        Restore(t);
        ghost var v1, threads1 := kernel.See(), kernel.threads;
        FrameWider(v, v1, {}, {}, {t}, {head}, {t}, {t}, kernel.wide);
        kernel.WaiterFacts(head);
        if !IsEmpty(kernel.links, head) {
          HandOver();
          RousedThen(old(kernel.threads), threads1, kernel.threads, {owner}, {});
          FrameThen(v, v1, kernel.See(), {}, {}, {t}, {head}, {}, {}, {head}, {t}, {t}, kernel.wide);
        } else {
          value := value + 1;
          owner := 0;
          originalPriority := 0xFF;
        }
      }
      return true;
    }

    /** The releasing owner goes back to the priority it had when it took the mutex. */
    method Restore(t: int)
      requires kernel.Valid() && head < DEFUNCT && head in kernel.q && FatesOk(fate, kernel.q[head], kernel.threads)
      requires t in kernel.at && t !in fate && originalPriority < Limit(kernel.wide)
      modifies kernel
      ensures kernel.Valid() && head in kernel.q && kernel.q[head] == old(kernel.q[head]) && FatesOk(fate, kernel.q[head], kernel.threads)
      ensures kernel.at.Keys == old(kernel.at).Keys && t in old(kernel.threads)
      ensures t in kernel.threads && kernel.threads == old(kernel.threads)[t := kernel.threads[t]] && kernel.threads[t].prio == originalPriority
      ensures old(Urgent(kernel.q[head], kernel.threads)) ==> Urgent(kernel.q[head], kernel.threads)
      ensures Frame(old(kernel.See()), kernel.See(), {}, {}, {t}, kernel.wide) && Roused(old(kernel.threads), kernel.threads, {}, {})
    {
      hide ListsOk, ThreadsOk, Urgent, AttrOf, Moved, FatesOk, Frame, Roused;
      ghost var s, threads0 := kernel.q[head], kernel.threads;
      FrameNone(kernel.See(), {}, {}, {t}, kernel.wide);
      RousedNone(kernel.threads);
      kernel.StatOf(t);
      if originalPriority != kernel.threads[t].prio {
        kernel.SetPriority(t, originalPriority);
        WaitsSame(kernel.wide, head);
        FatesSame(fate, s, threads0, kernel.threads, t);
        UrgentOutside(fate, s, threads0, kernel.threads, t);
      }
    }

    /** The first waiter becomes the owner. */
    method HandOver()
      requires kernel.Valid() && head < DEFUNCT && head in kernel.q && FatesOk(fate, kernel.q[head], kernel.threads)
      requires value == 0 && hold == 0 && kernel.q[head] != [] && 0 !in fate && forall t :: t in fate ==> fate[t] != Granted
      modifies this`owner, this`originalPriority, this`hold, this`fate, kernel
      ensures Valid() && owner == old(kernel.q[head])[0] && hold == 1 && owner in old(kernel.threads) && owner in kernel.threads
      ensures originalPriority == kernel.threads[owner].prio && kernel.threads[owner].stat == Ready
      ensures fate == old(fate)[owner := Granted] && kernel.q[head] == old(kernel.q[head])[1..] && Settled(old(fate), fate) && fate.Keys == old(fate).Keys
      ensures kernel.threads == old(kernel.threads)[owner := kernel.threads[owner]]
      ensures kernel.threads[owner].prio == old(kernel.threads)[owner].prio
      ensures old(Urgent(kernel.q[head], kernel.threads)) ==> Inherits()
      ensures Frame(old(kernel.See()), kernel.See(), {head}, {}, {}, kernel.wide) && Roused(old(kernel.threads), kernel.threads, {owner}, {})
    {
      hide ListsOk, ThreadsOk, Urgent, SameWaits, Leads, AttrOf, FatesOk, Settled, Frame, Roused;
      kernel.WaiterFacts(head);
      ghost var s, threads0 := kernel.q[head], kernel.threads;
      FirstDistinct(s);
      owner := kernel.links.next[head];
      kernel.StatOf(owner);
      originalPriority := kernel.threads[owner].prio;
      hold := hold + 1;
      kernel.ListResume(head);
      FatesMean(fate, s, threads0, owner);
      FatesWake(fate, s, threads0, kernel.q[head], kernel.threads, owner, Granted);
      fate := fate[owner := Granted];
      FirstLeads(s, threads0, kernel.threads);
    }

    twostate predicate ReturnStep(t: int, e: Error)
      reads this, kernel
    {
      && fate == old(fate) - {t} && t in old(fate) && e == ErrorOf(old(fate)[t]) && (e == EOk <==> old(fate)[t] == Granted)
      && (e == EOk <==> owner == t)
    }

    /** The end of a rt_mutex_take that blocked: RT_EOK exactly for the thread that owns the mutex now. */
    method Return(t: int) returns (e: Error)
      requires Valid() && t in fate && fate[t] != Waiting
      modifies this`fate
      ensures Valid() && (old(Inherits()) ==> Inherits())
      ensures ReturnStep(t, e)
    {
      hide ListsOk, ThreadsOk;
      e := kernel.threads[t].error;
      fate := fate - {t};
    }

    twostate predicate TimeoutStep(t: int)
      reads this, kernel
    {
      && head in old(kernel.q) && head in kernel.q && Settled(old(fate), fate) && fate == old(fate)[t := TimedOut]
      && kernel.q[head] == Without(old(kernel.q)[head], t)
      && Frame(old(kernel.See()), kernel.See(), {head}, {t}, {}, kernel.wide)
      && Roused(old(kernel.threads), kernel.threads, {t}, {})
    }

    /** The expiry of a waiter's timer; the owner keeps the priority it inherited. */
    method Timeout(t: int)
      requires Valid() && t in fate && fate[t] == Waiting && kernel.threads[t].armed
      modifies this`fate, kernel
      ensures Valid() && (old(Inherits()) ==> Inherits())
      ensures TimeoutStep(t)
    {
      hide ListsOk, ThreadsOk, Urgent, Without, Leads, FatesOk, Settled, Handed, Frame, Roused;
      kernel.WaiterFacts(head);
      ghost var s, threads0 := kernel.q[head], kernel.threads;
      ExpireWait(kernel, head, t, fate);
      kernel.WaiterFacts(head);
      fate := fate[t := TimedOut];
      LeadsFewer(owner, s, kernel.q[head], threads0, kernel.threads, t);
    }

    /** Steps elsewhere, since the kernel looked like v: by other objects, whose calls are made by other
        threads. Inheritance survives them unless they change the priority of the owner or of a waiter. */
    lemma Elsewhere(v: View, heads: set<int>, who: set<int>, raised: set<int>)
      requires Fits(v) && kernel.Valid() && Frame(v, kernel.See(), heads, who, raised, kernel.wide)
      requires head !in heads && who !! fate.Keys
      ensures Valid() && kernel.q[head] == v.q[head]
      ensures raised !! Members(v.q[head]) && owner !in raised && InheritsIn(v) ==> Inherits()
    {
      hide ListsOk, ThreadsOk, Urgent, FatesOk, Leads;
      FatesElsewhere(fate, v, kernel.See(), head, heads, who, raised, kernel.wide);
      LeadsElsewhere(owner, kernel.q[head], v.threads, kernel.threads, raised);
    }
  }

  lemma LeadsElsewhere(o: int, s: seq<int>, threads: map<int, Thread>, threads2: map<int, Thread>, raised: set<int>)
    requires forall x :: x in threads && x !in raised ==> x in threads2 && threads2[x].prio == threads[x].prio
    ensures raised !! Members(s) && o !in raised && Leads(o, s, threads) ==> Leads(o, s, threads2)
  {
    if raised !! Members(s) && o !in raised && Leads(o, s, threads) {
      forall t | t in s ensures AsUrgent(threads2, o, t) { assert AsUrgent(threads, o, t) && t in Members(s); }
    }
  }

  function Least(a: nat, b: nat): nat {
    if b < a then b else a
  }

  lemma LeadsSame(o: int, s: seq<int>, threads: map<int, Thread>, threads2: map<int, Thread>)
    requires forall x :: x in threads ==> x in threads2 && threads2[x].prio == threads[x].prio
    ensures Leads(o, s, threads) ==> Leads(o, s, threads2)
  {
    if Leads(o, s, threads) {
      forall t | t in s ensures AsUrgent(threads2, o, t) { assert AsUrgent(threads, o, t); }
    }
  }

  lemma LeadsNone(o: int, threads: map<int, Thread>)
    ensures Leads(o, [], threads)
  {
  }

  /** A newcomer joins; o is at least as urgent as it. */
  lemma LeadsMore(o: int, s: seq<int>, s2: seq<int>, threads: map<int, Thread>, threads2: map<int, Thread>, t: int)
    requires forall x :: x in threads ==> x in threads2 && threads2[x].prio == threads[x].prio
    requires (forall x :: x in s2 <==> x in s || x == t) && o in threads && t in threads && threads[o].prio <= threads[t].prio
    ensures Leads(o, s, threads) ==> Leads(o, s2, threads2)
  {
    if Leads(o, s, threads) {
      forall x | x in s2 ensures AsUrgent(threads2, o, x) { assert x == t || AsUrgent(threads, o, x); }
    }
  }

  lemma LeadsFewer(o: int, s: seq<int>, s2: seq<int>, threads: map<int, Thread>, threads2: map<int, Thread>, t: int)
    requires forall x :: x in threads ==> x in threads2 && threads2[x].prio == threads[x].prio
    requires forall x :: x in s2 ==> x in s
    ensures Leads(o, s, threads) ==> Leads(o, s2, threads2)
  {
    if Leads(o, s, threads) {
      forall x | x in s2 ensures AsUrgent(threads2, o, x) { assert AsUrgent(threads, o, x); }
    }
  }

  /** o became more urgent. */
  lemma OwnerChanged(o: int, s: seq<int>, threads: map<int, Thread>, threads2: map<int, Thread>)
    requires o in threads && o in threads2 && o !in s && threads2 == threads[o := threads2[o]] && threads2[o].prio <= threads[o].prio
    ensures Urgent(s, threads) ==> Urgent(s, threads2)
    ensures Leads(o, s, threads) ==> Leads(o, s, threads2)
  {
    if Urgent(s, threads) { UrgentSame(s, threads, threads2); }
    if Leads(o, s, threads) {
      forall t | t in s ensures AsUrgent(threads2, o, t) { assert AsUrgent(threads, o, t); }
    }
  }

  /** In an ordered list the first is at least as urgent as the rest. */
  lemma FirstLeads(s: seq<int>, threads: map<int, Thread>, threads2: map<int, Thread>)
    requires s != [] && forall x :: x in threads ==> x in threads2 && threads2[x].prio == threads[x].prio
    ensures Urgent(s, threads) ==> Leads(s[0], s[1..], threads2)
  {
    if Urgent(s, threads) {
      forall t | t in s[1..] ensures AsUrgent(threads2, s[0], t) {
        var i :| 0 <= i < |s| - 1 && s[1..][i] == t;
        assert AsUrgent(threads, s[0], s[i + 1]);
      }
    }
  }

  lemma UrgentOutside(fate: map<int, Fate>, s: seq<int>, threads: map<int, Thread>, threads2: map<int, Thread>, t: int)
    requires FatesOk(fate, s, threads) && t !in fate && t in threads2 && threads2 == threads[t := threads2[t]]
    ensures Urgent(s, threads) ==> Urgent(s, threads2)
  {
    if Urgent(s, threads) { UrgentSame(s, threads, threads2); }
  }
}
