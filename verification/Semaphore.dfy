/** ipc.c, semaphores. A method is one region with interrupts disabled, so any interleaving of
    threads, interrupts and timeouts is some sequence of method calls. */
module Semaphores {
  import opened RtList
  import opened Queues
  import opened ReadyIndex
  import opened Kernel
  import opened Waits

  const M16: nat := 0x1_0000         // the value field has 16 bits

  class Semaphore {
    const kernel: Kernel
    const head: int                  // parent.suspend_thread
    const byPriority: bool           // RT_IPC_FLAG_PRIO
    var value: nat
    ghost var base: nat              // the value at initialisation or the last reset
    ghost var releases: nat          // since then, as are the successes and the losses
    ghost var successes: nat         // takes that returned RT_EOK
    ghost var lost: nat              // what value lost by wrapping around
    ghost var fate: map<int, Fate>   // of the takes that blocked and have not returned

    /** The invariant, with the lists and control blocks of the kernel as in v. */
    ghost predicate Fits(v: View)
      reads this
    {
      && head < DEFUNCT && head in v.q && value < M16
      && base + releases == value + successes + |Handed(fate)| + lost
      && (value > 0 ==> v.q[head] == [])
      && FatesOk(fate, v.q[head], v.threads)
    }

    ghost predicate Valid()
      reads this, kernel
    {
      kernel.Valid() && Fits(kernel.See())
    }

    ghost predicate OrderedIn(v: View)
      requires head in v.q
      reads this
    {
      byPriority ==> Urgent(v.q[head], v.threads)
    }

    /** The most urgent waiter is in front. */
    ghost predicate Ordered()
      requires head in kernel.q
      reads this, kernel
    {
      OrderedIn(kernel.See())
    }

    /** rt_sem_init; the field keeps the low 16 bits of the value. */
    constructor (kernel: Kernel, head: int, value: nat, byPriority: bool)
      requires kernel.Valid() && head < DEFUNCT && head !in kernel.q
      modifies kernel`links, kernel`q
      ensures Valid() && Ordered() && fate == map[] && Frame(old(kernel.See()), kernel.See(), {}, {}, {}, kernel.wide)
      ensures this.kernel == kernel && this.head == head && this.byPriority == byPriority
      ensures this.value == value % M16 && base == this.value && releases == 0 && successes == 0 && lost == 0
      ensures kernel.q == old(kernel.q)[head := []]
    {
      hide ListsOk, ThreadsOk, Frame;
      this.kernel, this.head, this.byPriority, this.value := kernel, head, byPriority, value % M16;
      base, releases, successes, lost, fate := value % M16, 0, 0, 0, map[];
      new;
      kernel.AddList(head);
    }

    twostate predicate TakeStep(t: int, time: int, r: TakeResult)
      reads this, kernel
    {
      && head in old(kernel.q) && head in kernel.q && base == old(base) && releases == old(releases) && lost == old(lost)
      && Frame(old(kernel.See()), kernel.See(), {head}, {t}, {}, kernel.wide)
      && Roused(old(kernel.threads), kernel.threads, {}, if r == Blocked then {t} else {})
      && (r == if old(value) > 0 then Taken else if time == 0 then NoWait else Blocked)
      && (r == Taken ==> value == old(value) - 1 && successes == old(successes) + 1)
      && (r != Taken ==> value == old(value) && successes == old(successes))
      && (r != Blocked ==> fate == old(fate) && kernel.q == old(kernel.q) && kernel.threads == old(kernel.threads))
      && (r == Blocked ==> fate == old(fate)[t := Waiting] && t in kernel.threads && kernel.threads[t].armed == (time > 0))
      && (r == Blocked ==> t in old(kernel.threads) && kernel.q[head] == Enqueued(old(kernel.q[head]), old(kernel.threads), t, byPriority))
    }

    /** rt_sem_take up to the point where the caller returns or gives up the processor. Only a thread may
        wait; a call that does not wait may come from an interrupt. */
    method Take(t: int, time: int) returns (r: TakeResult)
      requires Valid()
      requires value == 0 && time != 0 ==> t in kernel.at && kernel.threads[t].stat == Ready && t !in fate
      modifies this, kernel
      ensures Valid() && (old(Ordered()) ==> Ordered())
      ensures TakeStep(t, time, r)
    {
      hide ListsOk, ThreadsOk, Enqueued, Urgent, Frame, Roused, FatesOk, Handed;
      FrameNone(kernel.See(), {head}, {t}, {}, kernel.wide);
      RousedNone(kernel.threads);
      if value > 0 {
        value := value - 1;
        successes := successes + 1;
        return Taken;
      }
      if time == 0 {
        return NoWait;
      }
      StartWait(kernel, head, t, byPriority, time > 0, fate);
      fate := fate[t := Waiting];
      return Blocked;
    }

    twostate predicate ReturnStep(t: int, e: Error)
      reads this, kernel
    {
      && t in old(fate) && e == ErrorOf(old(fate)[t]) && (e == EOk <==> old(fate)[t] == Granted)
      && (fate == old(fate) - {t} && successes == old(successes) + if e == EOk then 1 else 0)
    }

    /** The end of a rt_sem_take that blocked, once the thread runs again: RT_EOK for a hand-off only. */
    method Return(t: int) returns (e: Error)
      requires Valid() && t in fate && fate[t] != Waiting
      modifies this`successes, this`fate
      ensures Valid() && (old(Ordered()) ==> Ordered())
      ensures ReturnStep(t, e)
    {
      hide ListsOk, ThreadsOk, Urgent;
      HandedLess(fate, t);
      e := kernel.threads[t].error;
      successes := successes + if e == EOk then 1 else 0;
      fate := fate - {t};
    }

    twostate predicate ReleaseStep()
      reads this, kernel
    {
      && head in old(kernel.q) && head in kernel.q && releases == old(releases) + 1 && successes == old(successes)
      && Settled(old(fate), fate) && base == old(base) && fate.Keys == old(fate).Keys
      && Frame(old(kernel.See()), kernel.See(), {head}, {}, {}, kernel.wide)
      && Roused(old(kernel.threads), kernel.threads, Foremost(old(kernel.q)[head]), {})
      && (lost == old(lost) + if old(kernel.q)[head] == [] && old(value) == M16 - 1 then M16 else 0)
      && (if old(kernel.q)[head] == [] then value == (old(value) + 1) % M16 && fate == old(fate) && kernel.q == old(kernel.q)
         else value == old(value) == 0 && fate == old(fate)[old(kernel.q)[head][0] := Granted] &&
              kernel.q[head] == old(kernel.q)[head][1..])
    }

    /** rt_sem_release: to the first waiter, or into the value, whose 16 bits wrap around. */
    method Release()
      requires Valid()
      modifies this, kernel
      ensures Valid() && (old(Ordered()) ==> Ordered())
      ensures ReleaseStep()
    {
      hide ListsOk, ThreadsOk, Urgent, Frame, Roused, FatesOk, Handed, Settled;
      FrameNone(kernel.See(), {head}, {}, {}, kernel.wide);
      RousedNone(kernel.threads);
      kernel.WaiterFacts(head);
      SettledSame(fate);
      releases := releases + 1;
      if !IsEmpty(kernel.links, head) {
        ghost var t := kernel.q[head][0];
        WakeFirst(kernel, head, fate);
        fate := fate[t := Granted];
      } else {
        lost := lost + if value == M16 - 1 then M16 else 0;
        value := (value + 1) % M16;
      }
    }

    twostate predicate TimeoutStep(t: int)
      reads this, kernel
    {
      && head in old(kernel.q) && head in kernel.q && Settled(old(fate), fate) && fate == old(fate)[t := TimedOut]
      && kernel.q[head] == Without(old(kernel.q)[head], t)
      && Frame(old(kernel.See()), kernel.See(), {head}, {t}, {}, kernel.wide)
      && Roused(old(kernel.threads), kernel.threads, {t}, {})
    }

    /** The expiry of a waiter's timer. */
    method Timeout(t: int)
      requires Valid() && t in fate && fate[t] == Waiting && kernel.threads[t].armed
      modifies this`fate, kernel
      ensures Valid() && (old(Ordered()) ==> Ordered())
      ensures TimeoutStep(t)
    {
      hide ListsOk, ThreadsOk, Urgent, Without, Frame, Roused, FatesOk, Handed, Settled;
      WithoutEmpty(t);
      ExpireWait(kernel, head, t, fate);
      fate := fate[t := TimedOut];
    }

    twostate predicate ResetStep(v: nat)
      reads this, kernel
    {
      && head in old(kernel.q) && head in kernel.q && value == v % M16 && kernel.q[head] == [] && Settled(old(fate), fate)
      && fate == Cancelled(old(fate)) && Members(old(kernel.q)[head]) <= old(fate).Keys && fate.Keys == old(fate).Keys
      && Frame(old(kernel.See()), kernel.See(), {head}, Members(old(kernel.q)[head]), {}, kernel.wide)
      && Roused(old(kernel.threads), kernel.threads, Members(old(kernel.q)[head]), {})
    }

    /** RT_IPC_CMD_RESET: every waiter fails, and the account starts again from the new value. */
    method Reset(v: nat)
      requires Valid()
      modifies this, kernel
      ensures Valid() && Ordered()
      ensures ResetStep(v)
    {
      hide Frame, Roused, ListsOk, ThreadsOk, AllWoken, FatesOk, Cancelled, Handed, Settled;
      CancelAll(kernel, head, fate);
      value := v % M16;
      fate := Cancelled(fate);
      base, releases, successes, lost := value + |Handed(fate)|, 0, 0, 0;
    }

    /** Steps elsewhere, since the kernel looked like v: by other objects, whose calls are made by other
        threads. */
    lemma Elsewhere(v: View, heads: set<int>, who: set<int>, raised: set<int>)
      requires Fits(v) && kernel.Valid() && Frame(v, kernel.See(), heads, who, raised, kernel.wide)
      requires head !in heads && who !! fate.Keys
      ensures Valid() && kernel.q[head] == v.q[head]
      ensures raised !! Members(v.q[head]) && OrderedIn(v) ==> Ordered()
    {
      hide ListsOk, ThreadsOk, Urgent, FatesOk, Frame, Handed;
      FatesElsewhere(fate, v, kernel.See(), head, heads, who, raised, kernel.wide);
    }
  }
}
