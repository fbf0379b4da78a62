/** Blocking calls on an IPC object: how each one that is waiting, or has been woken and has not run
    since, is going. In the classes of objects the predicate TakeStep states the whole effect of the
    method Take, and so on. */
module Waits {
  import opened RtList
  import opened Kernel

  datatype TakeResult = Taken | NoWait | Blocked

  /** How a call that blocked is going. */
  datatype Fate = Waiting | Granted | TimedOut | Failed

  function ErrorOf(f: Fate): Error {
    match f
    case Waiting => EOk
    case Granted => EOk
    case TimedOut => ETimeout
    case Failed => EError
  }

  /** The suspend list holds the waiting calls; the threads of the others are READY, and thread->error
      tells them how their calls ended. */
  ghost predicate FatesOk(fate: map<int, Fate>, s: seq<int>, threads: map<int, Thread>) {
    && (forall t :: t in s ==> t in fate && fate[t] == Waiting)
    && (forall t :: t in fate && fate[t] == Waiting ==> t in s)
    && (forall t :: t in fate ==> t in threads && threads[t].error == ErrorOf(fate[t]) && (fate[t] != Waiting ==> Running(threads[t])))
  }

  /** Those woken with RT_EOK that have not run since. */
  ghost function Handed(fate: map<int, Fate>): set<int> {
    set t | t in fate && fate[t] == Granted
  }

  /** No lost wakeup: someone waits only for what those already woken will take. */
  ghost predicate Awake(waiters: seq<int>, available: int, woken: map<int, Fate>) {
    waiters != [] ==> available <= |Handed(woken)|
  }

  /** A blocked call is woken once: an ending is never revised. */
  ghost predicate Settled(was: map<int, Fate>, fate: map<int, Fate>) {
    forall t :: t in was ==> t in fate && (was[t] != Waiting ==> fate[t] == was[t])
  }

  ghost function Cancelled(fate: map<int, Fate>): map<int, Fate> {
    map t | t in fate :: if fate[t] == Waiting then Failed else fate[t]
  }

  /** The first waiter, if any, has been handed what came. */
  ghost function FirstWoken(fate: map<int, Fate>, s: seq<int>): map<int, Fate> {
    if s == [] then fate else fate[s[0] := Granted]
  }

  /** Whoever waits first. */
  ghost function Foremost(s: seq<int>): set<int> {
    if s == [] then {} else {s[0]}
  }

  lemma SettledSame(fate: map<int, Fate>)
    ensures Settled(fate, fate)
  {
  }

  lemma CancelledOk(fate: map<int, Fate>)
    ensures Settled(fate, Cancelled(fate))
  {
  }

  lemma AllCancelled(fate: map<int, Fate>, s: seq<int>, threads: map<int, Thread>, threads2: map<int, Thread>)
    requires FatesOk(fate, s, threads) && AllWoken(s, threads, threads2)
    ensures FatesOk(Cancelled(fate), [], threads2)
  {
  }

  lemma FirstDistinct(s: seq<int>)
    requires Distinct(s) && s != []
    ensures s[0] !in s[1..] && forall x :: x in s <==> x == s[0] || x in s[1..]
  {
    assert s == [s[0]] + s[1..];
  }

  lemma FatesMean(fate: map<int, Fate>, s: seq<int>, threads: map<int, Thread>, t: int)
    requires FatesOk(fate, s, threads)
    ensures t in s <==> t in fate && fate[t] == Waiting
    ensures t in s ==> t in threads && threads[t].error == EOk
  {
  }

  /** A thread starts to wait. */
  lemma FatesBlock(fate: map<int, Fate>, s: seq<int>, threads: map<int, Thread>, s2: seq<int>, threads2: map<int, Thread>, t: int)
    requires FatesOk(fate, s, threads) && t !in fate && t in threads2 && threads2 == threads[t := threads2[t]] && threads2[t].error == EOk
    requires forall x :: x in s2 <==> x in s || x == t
    ensures FatesOk(fate[t := Waiting], s2, threads2)
  {
  }

  /** A waiter is woken, its error code telling why. */
  lemma FatesWake(fate: map<int, Fate>, s: seq<int>, threads: map<int, Thread>, s2: seq<int>, threads2: map<int, Thread>, t: int, f: Fate)
    requires FatesOk(fate, s, threads) && t in s && f != Waiting
    requires t in threads2 && threads2 == threads[t := threads2[t]] && threads2[t].error == ErrorOf(f) && Running(threads2[t])
    requires forall x :: x in s2 <==> x in s && x != t
    ensures FatesOk(fate[t := f], s2, threads2) && Settled(fate, fate[t := f])
  {
  }

  /** A change of control blocks that leaves the error codes alone. */
  lemma FatesSame(fate: map<int, Fate>, s: seq<int>, threads: map<int, Thread>, threads2: map<int, Thread>, t: int)
    requires FatesOk(fate, s, threads) && t in threads2 && threads2 == threads[t := threads2[t]]
    requires t !in fate || (t in threads && threads2[t].error == threads[t].error && (Running(threads[t]) ==> Running(threads2[t])))
    ensures FatesOk(fate, s, threads2)
  {
  }

  lemma HandedMore(fate: map<int, Fate>, t: int)
    requires t in fate ==> fate[t] != Granted
    ensures |Handed(fate[t := Granted])| == |Handed(fate)| + 1
  {
    assert Handed(fate[t := Granted]) == Handed(fate) + {t};
  }

  lemma HandedLess(fate: map<int, Fate>, t: int)
    requires t in fate
    ensures |Handed(fate - {t})| == |Handed(fate)| - if fate[t] == Granted then 1 else 0
  {
    assert Handed(fate - {t}) == Handed(fate) - {t};
  }

  lemma HandedKept(fate: map<int, Fate>, t: int, f: Fate)
    requires t in fate && fate[t] != Granted && f != Granted
    ensures Handed(fate[t := f]) == Handed(fate)
  {
  }

  lemma HandedSame(fate: map<int, Fate>, t: int)
    requires t !in fate
    ensures Handed(fate[t := Waiting]) == Handed(fate)
  {
  }

  lemma FateRead(fate: map<int, Fate>, s: seq<int>, threads: map<int, Thread>, t: int)
    requires FatesOk(fate, s, threads) && t in fate && fate[t] != Waiting
    ensures t in threads && threads[t].error == ErrorOf(fate[t]) && Running(threads[t]) && FatesOk(fate - {t}, s, threads)
  {
  }

  lemma MapBack(fate: map<int, Fate>, t: int)
    ensures (fate - {t})[t := Waiting] == fate[t := Waiting]
  {
  }

  /** A thread that resets its error code and then waits. */
  lemma Joined(u: View, v: View, w: View, h: int, t: int, wide: bool)
    requires Frame(u, v, {}, {t}, {}, wide) && Frame(v, w, {h}, {t}, {}, wide)
    ensures Frame(u, w, {h}, {t}, {}, wide)
  {
    hide Frame;
    FrameThen(u, v, w, {}, {t}, {}, {h}, {t}, {}, {h}, {t}, {}, wide);
  }

  /** A step elsewhere leaves a suspend list, the endings of its calls and, if it raised no waiter, its order. */
  lemma FatesElsewhere(fate: map<int, Fate>, v: View, w: View, h: int, heads: set<int>, who: set<int>, raised: set<int>, wide: bool)
    requires h in v.q && FatesOk(fate, v.q[h], v.threads) && Frame(v, w, heads, who, raised, wide)
    requires h !in heads && h < DEFUNCT && who !! fate.Keys
    ensures h in w.q && w.q[h] == v.q[h] && FatesOk(fate, w.q[h], w.threads)
    ensures raised !! Members(v.q[h]) && Urgent(v.q[h], v.threads) ==> Urgent(w.q[h], w.threads)
  {
    if raised !! Members(v.q[h]) && Urgent(v.q[h], v.threads) {
      forall t | t in v.q[h] ensures t in v.threads && t in w.threads && w.threads[t].prio == v.threads[t].prio {
        assert t in Members(v.q[h]);
      }
      UrgentSame(v.q[h], v.threads, w.threads);
    }
  }

  lemma FatesMembers(fate: map<int, Fate>, s: seq<int>, threads: map<int, Thread>)
    requires FatesOk(fate, s, threads)
    ensures Members(s) <= fate.Keys
  {
    forall x | x in Members(s) ensures x in fate { assert x in s; }
  }

  // ---- the four things a call does to a suspend list ----

  /** The caller resets its error code and gives up the processor. */
  method StartWait(kernel: Kernel, h: int, t: int, byPriority: bool, timed: bool, ghost fate: map<int, Fate>)
    requires kernel.Valid() && h < DEFUNCT && h in kernel.q && FatesOk(fate, kernel.q[h], kernel.threads)
    requires t in kernel.at && kernel.threads[t].stat == Ready && t !in fate
    modifies kernel
    ensures kernel.Valid() && h in kernel.q && t in kernel.threads && kernel.threads[t].armed == timed
    ensures t in old(kernel.threads) && kernel.q[h] == Enqueued(old(kernel.q[h]), old(kernel.threads), t, byPriority)
    ensures FatesOk(fate[t := Waiting], kernel.q[h], kernel.threads) && Handed(fate[t := Waiting]) == Handed(fate)
    ensures byPriority && old(Urgent(kernel.q[h], kernel.threads)) ==> Urgent(kernel.q[h], kernel.threads)
    ensures Frame(old(kernel.See()), kernel.See(), {h}, {t}, {}, kernel.wide) && Roused(old(kernel.threads), kernel.threads, {}, {t})
  {
    hide Roused, ListsOk, ThreadsOk, Enqueued, Urgent, SameWaits, Frame, FatesOk, Handed;
    ghost var s, threads0 := kernel.q[h], kernel.threads;
    kernel.StatOf(t);
    kernel.WaiterFacts(h);
    HandedSame(fate, t);
    kernel.SetError(t, EOk);
    EnqueuedSame(s, threads0, kernel.threads, t, byPriority);
    FatesSame(fate, s, threads0, kernel.threads, t);
    ghost var threads1, v := kernel.threads, kernel.See();
    kernel.Block(h, t, byPriority, timed);
    FatesBlock(fate, s, threads1, kernel.q[h], kernel.threads, t);
    Joined(old(kernel.See()), v, kernel.See(), h, t, kernel.wide);
    RousedThen(threads0, threads1, kernel.threads, {}, {t});
  }

  /** The first waiter is woken with RT_EOK. */
  method WakeFirst(kernel: Kernel, h: int, ghost fate: map<int, Fate>)
    requires kernel.Valid() && h < DEFUNCT && h in kernel.q && FatesOk(fate, kernel.q[h], kernel.threads) && kernel.q[h] != []
    modifies kernel
    ensures kernel.Valid() && h in kernel.q && kernel.q[h] == old(kernel.q[h])[1..] && old(kernel.q[h])[0] in fate
    ensures var woken := fate[old(kernel.q[h])[0] := Granted];
            FatesOk(woken, kernel.q[h], kernel.threads) && |Handed(woken)| == |Handed(fate)| + 1 && Settled(fate, woken)
    ensures old(Urgent(kernel.q[h], kernel.threads)) ==> Urgent(kernel.q[h], kernel.threads)
    ensures Frame(old(kernel.See()), kernel.See(), {h}, {}, {}, kernel.wide)
    ensures Roused(old(kernel.threads), kernel.threads, {old(kernel.q[h])[0]}, {})
  {
    hide Roused, ListsOk, ThreadsOk, Urgent, SameWaits, Frame, FatesOk, Handed, Settled;
    ghost var s, threads0, t := kernel.q[h], kernel.threads, kernel.q[h][0];
    kernel.WaiterFacts(h);
    FirstDistinct(s);
    FatesMean(fate, s, threads0, t);
    HandedMore(fate, t);
    kernel.ListResume(h);
    FatesWake(fate, s, threads0, kernel.q[h], kernel.threads, t, Granted);
  }

  /** The timer of a waiter expires. */
  method ExpireWait(kernel: Kernel, h: int, t: int, ghost fate: map<int, Fate>)
    requires kernel.Valid() && h < DEFUNCT && h in kernel.q && FatesOk(fate, kernel.q[h], kernel.threads)
    requires t in fate && fate[t] == Waiting && kernel.threads[t].armed
    modifies kernel
    ensures kernel.Valid() && h in kernel.q && t in old(kernel.q[h]) && kernel.q[h] == Without(old(kernel.q[h]), t)
    ensures t in old(kernel.threads) && t in kernel.threads && kernel.threads == old(kernel.threads)[t := kernel.threads[t]]
    ensures kernel.threads[t].prio == old(kernel.threads)[t].prio
    ensures forall x :: x in kernel.q[h] <==> x in old(kernel.q[h]) && x != t
    ensures kernel.at.Keys == old(kernel.at).Keys
    ensures var less := fate[t := TimedOut];
            FatesOk(less, kernel.q[h], kernel.threads) && Handed(less) == Handed(fate) && Settled(fate, less)
    ensures old(Urgent(kernel.q[h], kernel.threads)) ==> Urgent(kernel.q[h], kernel.threads)
    ensures Frame(old(kernel.See()), kernel.See(), {h}, {t}, {}, kernel.wide) && Roused(old(kernel.threads), kernel.threads, {t}, {})
  {
    hide Roused, ListsOk, ThreadsOk, Urgent, SameWaits, Frame, FatesOk, Handed, Settled, Without;
    ghost var s, threads0 := kernel.q[h], kernel.threads;
    kernel.WaiterFacts(h);
    FatesMean(fate, s, threads0, t);
    HandedKept(fate, t, TimedOut);
    kernel.Expire(h, t);
    FatesWake(fate, s, threads0, kernel.q[h], kernel.threads, t, TimedOut);
  }

  /** Every waiter is woken with an error. */
  method CancelAll(kernel: Kernel, h: int, ghost fate: map<int, Fate>)
    requires kernel.Valid() && h < DEFUNCT && h in kernel.q && FatesOk(fate, kernel.q[h], kernel.threads)
    modifies kernel
    ensures kernel.Valid() && h in kernel.q && kernel.q[h] == [] && AllWoken(old(kernel.q)[h], old(kernel.threads), kernel.threads)
    ensures FatesOk(Cancelled(fate), kernel.q[h], kernel.threads) && Handed(Cancelled(fate)) == Handed(fate)
    ensures Settled(fate, Cancelled(fate)) && Cancelled(fate).Keys == fate.Keys && Members(old(kernel.q)[h]) <= fate.Keys
    ensures Frame(old(kernel.See()), kernel.See(), {h}, Members(old(kernel.q)[h]), {}, kernel.wide)
    ensures Roused(old(kernel.threads), kernel.threads, Members(old(kernel.q)[h]), {})
  {
    hide Roused, ListsOk, ThreadsOk, AllWoken, SameWaits, SamePlaces, Frame;
    ghost var s, threads0 := kernel.q[h], kernel.threads;
    CancelledOk(fate);
    FatesMembers(fate, s, threads0);
    kernel.ListResumeAll(h);
    AllCancelled(fate, s, threads0, kernel.threads);
  }
}
