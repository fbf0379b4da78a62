/** thread.c, scheduler.c and the suspend lists of ipc.c. Threads, lists and the ready index of
    the kernel; every method is one region with interrupts disabled. */
module Kernel {
  import opened RtList
  import opened Queues
  import opened ReadyIndex

  datatype Stat = Init | Ready | Suspend | Close
  datatype Error = EOk | EError | ETimeout | EFull

  /** A thread control block: armed tells that the thread timer is in the timer list, slice and left
      are init_tick and remaining_tick. */
  datatype Thread = Thread(stat: Stat, prio: nat, initPrio: nat, attr: Attr, error: Error, armed: bool,
                           eventSet: bv32, eventInfo: bv32, slice: nat, left: nat)

  const DEFUNCT: int := -300

  /** The head of rt_thread_priority_table[p]; the heads of suspend lists lie below DEFUNCT. */
  function ReadyHead(p: nat): int {
    -1 - p
  }

  predicate IsReadyHead(h: int, wide: bool) {
    0 - Limit(wide) <= h < 0
  }

  /** remaining_tick has 32 bits. */
  function Ticked(left: nat): nat {
    if left == 0 then 0xFFFF_FFFF else left - 1
  }

  /** In its priority's list exactly when READY, with a timer only while SUSPEND. */
  ghost predicate ThreadOk(c: Thread, a: int, t: int, wide: bool) {
    && 0 < t && c.prio < Limit(wide) && c.initPrio < Limit(wide)
    && (c.stat == Ready <==> a == ReadyHead(c.prio)) && (IsReadyHead(a, wide) ==> c.stat == Ready)
    && (c.stat == Ready || c.stat == Suspend ==> c.attr == AttrOf(wide, c.prio))
    && (c.armed ==> c.stat == Suspend) && (c.stat == Init ==> a == t) && (a < DEFUNCT ==> c.stat == Suspend)
  }

  ghost predicate ThreadsOk(threads: map<int, Thread>, at: map<int, int>, wide: bool) {
    && threads.Keys <= at.Keys
    && forall t :: t in at ==> t in threads && ThreadOk(threads[t], at[t], t, wide)
  }

  ghost predicate HeadsOk(q: map<int, seq<int>>, wide: bool) {
    DEFUNCT in q && (forall g :: g in q ==> g < 0) && (forall p: nat :: p < Limit(wide) ==> ReadyHead(p) in q)
  }

  ghost function Busy(q: map<int, seq<int>>, wide: bool): set<nat> {
    set p: nat | p < Limit(wide) && ReadyHead(p) in q && q[ReadyHead(p)] != []
  }

  ghost predicate ListsOk(links: Links, q: map<int, seq<int>>, at: map<int, int>, index: Index, wide: bool) {
    QueuesOk(links, q, at) && HeadsOk(q, wide) && Agrees(index, wide, Busy(q, wide))
  }

  lemma BusyJoin(q: map<int, seq<int>>, h: int, i: nat, t: int, wide: bool)
    requires h in q && i <= |q[h]|
    ensures IsReadyHead(h, wide) ==> Busy(Join(q, h, i, t), wide) == Busy(q, wide) + {-1 - h}
    ensures !IsReadyHead(h, wide) ==> Busy(Join(q, h, i, t), wide) == Busy(q, wide)
  {
  }

  lemma BusyLeave(q: map<int, seq<int>>, at: map<int, int>, t: int, wide: bool)
    requires t in at && at[t] in q
    ensures IsReadyHead(at[t], wide) && Leave(q, at, t)[at[t]] == [] ==> Busy(Leave(q, at, t), wide) == Busy(q, wide) - {-1 - at[t]}
    ensures IsReadyHead(at[t], wide) && Leave(q, at, t)[at[t]] != [] ==> Busy(Leave(q, at, t), wide) == Busy(q, wide)
    ensures !IsReadyHead(at[t], wide) ==> Busy(Leave(q, at, t), wide) == Busy(q, wide)
  {
    hide Without;
    var s := q[at[t]];
    assert s == [] ==> Without(s, t) == [] by { WithoutEmpty(t); }
  }

  lemma WithoutEmpty(t: int)
    ensures Without([], t) == []
  {
  }

  /** Joining the ready list of a priority, and marking it. */
  lemma JoinReady(links: Links, q: map<int, seq<int>>, at: map<int, int>, index: Index, wide: bool, t: int, p: nat)
    requires ListsOk(links, q, at, index, wide) && t in at && at[t] == t && p < Limit(wide)
    ensures ReadyHead(p) in q && ReadyHead(p) in links.prev && AttrOf(wide, p).number < 32 && |index.table| == 32
    ensures ListsOk(InsertBefore(links, ReadyHead(p), t), Join(q, ReadyHead(p), |q[ReadyHead(p)]|, t), at[t := ReadyHead(p)],
                    Mark(index, wide, AttrOf(wide, p)), wide)
  {
    hide QueuesOk, Busy, InsertBefore, Mark, AttrOf, InsertedAt;
    var h := ReadyHead(p);
    JoinBefore(links, q, at, h, |q[h]|, t);
    BusyJoin(q, h, |q[h]|, t, wide);
    MarkAgrees(index, wide, Busy(q, wide), p);
  }

  lemma BusyMember(q: map<int, seq<int>>, wide: bool, p: nat)
    requires p < Limit(wide) && ReadyHead(p) in q
    ensures p in Busy(q, wide) <==> q[ReadyHead(p)] != []
  {
  }

  lemma JoinWait(links: Links, q: map<int, seq<int>>, at: map<int, int>, index: Index, wide: bool, t: int, h: int, i: nat)
    requires ListsOk(links, q, at, index, wide) && t in at && at[t] == t && h in q && !IsReadyHead(h, wide) && i <= |q[h]|
    ensures var n := if i < |q[h]| then q[h][i] else h;
            n in links.prev && ListsOk(InsertBefore(links, n, t), Join(q, h, i, t), at[t := h], index, wide)
  {
    hide QueuesOk, Busy, InsertBefore, Agrees, InsertedAt;
    JoinBefore(links, q, at, h, i, t);
    BusyJoin(q, h, i, t, wide);
  }

  /** Out of whatever list, and the mark of the own priority removed if its list is empty now. */
  lemma LeaveReady(links: Links, q: map<int, seq<int>>, at: map<int, int>, index: Index, wide: bool, t: int, p: nat)
    requires ListsOk(links, q, at, index, wide) && t in at && p < Limit(wide)
    requires at[t] == ReadyHead(p) || !IsReadyHead(at[t], wide)
    ensures Has(links, t) && AttrOf(wide, p).number < 32 && |index.table| == 32 && ReadyHead(p) in Remove(links, t).next
    ensures var empty := IsEmpty(Remove(links, t), ReadyHead(p));
            ListsOk(Remove(links, t), Leave(q, at, t), at[t := t],
                    if empty then Unmark(index, wide, AttrOf(wide, p)) else index, wide)
  {
    hide QueuesOk, Busy, Remove, Unmark, AttrOf, Without, Ring;
    InQueues(links, q, at, t);
    LeaveOk(links, q, at, t);
    if at[t] in q { BusyLeave(q, at, t, wide); }
    BusyMember(q, wide, p);
    BusyMember(Leave(q, at, t), wide, p);
    assert p !in Busy(q, wide) ==> Busy(q, wide) - {p} == Busy(q, wide);
    UnmarkAgrees(index, wide, Busy(q, wide), p);
    Emptiness(Remove(links, t), Leave(q, at, t), at[t := t], ReadyHead(p));
  }

  lemma LeaveWait(links: Links, q: map<int, seq<int>>, at: map<int, int>, index: Index, wide: bool, t: int)
    requires ListsOk(links, q, at, index, wide) && t in at && !IsReadyHead(at[t], wide)
    ensures Has(links, t) && ListsOk(Remove(links, t), Leave(q, at, t), at[t := t], index, wide)
  {
    hide QueuesOk, Busy, Remove, Without, Has, Agrees;
    LeaveOk(links, q, at, t);
    if at[t] in q { BusyLeave(q, at, t, wide); }
  }

  lemma InQueues(links: Links, q: map<int, seq<int>>, at: map<int, int>, t: int)
    requires QueuesOk(links, q, at) && t in at
    ensures at[t] == t || (at[t] in q && t in q[at[t]])
  {
  }

  lemma Emptiness(links: Links, q: map<int, seq<int>>, at: map<int, int>, h: int)
    requires QueuesOk(links, q, at) && h in q
    ensures h in links.next && h in links.prev
    ensures IsEmpty(links, h) <==> q[h] == []
    ensures q[h] != [] ==> links.next[h] == q[h][0] && q[h][0] in at && at[q[h][0]] == h
  {
    hide Ring;
    Steps(links, [h] + q[h], 0);
    assert InList(q[h], h, at);
  }

  /** Only one control block changes, together with its place. */
  lemma ThreadChange(threads: map<int, Thread>, at: map<int, int>, wide: bool, t: int, c: Thread, a: int)
    requires ThreadsOk(threads, at, wide) && t in at && ThreadOk(c, a, t, wide)
    ensures ThreadsOk(threads[t := c], at[t := a], wide)
  {
    hide ThreadOk;
  }

  /** What other parts of the system can see of a step. */
  datatype View = View(q: map<int, seq<int>>, threads: map<int, Thread>, at: map<int, int>)

  ghost predicate SameCall(a: Thread, b: Thread) {
    a.error == b.error && a.eventSet == b.eventSet && a.eventInfo == b.eventInfo
  }

  /** READY, which by the invariant means in the ready list of its priority, with the timer off. */
  predicate Running(c: Thread) {
    c.stat == Ready && !c.armed
  }

  /** A step left alone every suspend list but those of heads, the error code and event fields of every
      thread not in who, and the priority of every thread not in raised; it stopped no thread but those
      in who. */
  ghost predicate Frame(v: View, w: View, heads: set<int>, who: set<int>, raised: set<int>, wide: bool) {
    && (forall g :: g in v.q && g !in heads && !IsReadyHead(g, wide) ==> g in w.q && w.q[g] == v.q[g])
    && (forall t :: t in v.threads ==> t in w.threads)
    && (forall t :: t in v.threads && t !in who ==> SameCall(v.threads[t], w.threads[t]) && (Running(v.threads[t]) ==> Running(w.threads[t])))
    && (forall t :: t in v.threads && t !in raised ==> w.threads[t].prio == v.threads[t].prio)
    && (forall t :: t in v.at ==> t in w.at)
  }

  /** Exactly the threads of woken, which were suspended, run again, and exactly those of asleep, which were
      READY, are suspended; nobody else changes its state or its timer. */
  ghost predicate Roused(threads: map<int, Thread>, threads2: map<int, Thread>, woken: set<int>, asleep: set<int>) {
    && (forall t :: t in threads <==> t in threads2)
    && (forall t :: t in woken ==> t in threads && threads[t].stat == Suspend && Running(threads2[t]))
    && (forall t :: t in asleep ==> t in threads && threads[t].stat == Ready && threads2[t].stat == Suspend)
    && (forall t :: t in threads && t !in woken && t !in asleep ==>
          threads2[t].stat == threads[t].stat && threads2[t].armed == threads[t].armed)
  }

  lemma RousedNone(threads: map<int, Thread>)
    ensures Roused(threads, threads, {}, {})
  {
  }

  /** One control block changed. */
  lemma RousedOne(threads: map<int, Thread>, threads2: map<int, Thread>, t: int)
    requires t in threads && t in threads2 && threads2 == threads[t := threads2[t]]
    ensures threads2[t].stat == threads[t].stat && threads2[t].armed == threads[t].armed ==> Roused(threads, threads2, {}, {})
    ensures threads[t].stat == Suspend && Running(threads2[t]) ==> Roused(threads, threads2, {t}, {})
    ensures threads[t].stat == Ready && threads2[t].stat == Suspend ==> Roused(threads, threads2, {}, {t})
  {
  }

  /** A step before or after that changes no state. */
  lemma RousedThen(threads0: map<int, Thread>, threads1: map<int, Thread>, threads2: map<int, Thread>, woken: set<int>, asleep: set<int>)
    requires (Roused(threads0, threads1, {}, {}) && Roused(threads1, threads2, woken, asleep)) ||
             (Roused(threads0, threads1, woken, asleep) && Roused(threads1, threads2, {}, {}))
    ensures Roused(threads0, threads2, woken, asleep)
  {
  }

  lemma RousedBoth(threads0: map<int, Thread>, threads1: map<int, Thread>, threads2: map<int, Thread>, a: set<int>, b: set<int>)
    requires Roused(threads0, threads1, a, {}) && Roused(threads1, threads2, b, {})
    ensures Roused(threads0, threads2, a + b, {})
  {
  }

  /** Everyone in the list was woken. */
  lemma RousedAll(s: seq<int>, threads: map<int, Thread>, threads2: map<int, Thread>)
    requires AllWoken(s, threads, threads2) && threads2.Keys == threads.Keys && forall t :: t in s ==> t in threads && threads[t].stat == Suspend
    ensures Roused(threads, threads2, Members(s), {})
  {
  }

  ghost function Members(s: seq<int>): set<int> {
    set x | x in s
  }

  lemma FrameNone(v: View, heads: set<int>, who: set<int>, raised: set<int>, wide: bool)
    ensures Frame(v, v, heads, who, raised, wide)
  {
  }

  lemma FrameMore(u: View, v: View, w: View, heads: set<int>, who: set<int>, raised: set<int>, who1: set<int>, who2: set<int>, wide: bool)
    requires who1 <= who && who2 <= who
    requires Frame(u, v, heads, who1, raised, wide) && Frame(v, w, heads, who2, raised, wide)
    ensures Frame(u, w, heads, who, raised, wide)
  {
  }

  lemma FrameWider(v: View, w: View, heads: set<int>, who: set<int>, raised: set<int>, heads2: set<int>, who2: set<int>, raised2: set<int>, wide: bool)
    requires Frame(v, w, heads, who, raised, wide) && heads <= heads2 && who <= who2 && raised <= raised2
    ensures Frame(v, w, heads2, who2, raised2, wide)
  {
  }

  lemma FrameThen(u: View, v: View, w: View, heads1: set<int>, who1: set<int>, raised1: set<int>,
                  heads2: set<int>, who2: set<int>, raised2: set<int>, heads: set<int>, who: set<int>, raised: set<int>, wide: bool)
    requires Frame(u, v, heads1, who1, raised1, wide) && Frame(v, w, heads2, who2, raised2, wide)
    requires heads1 <= heads && who1 <= who && raised1 <= raised && heads2 <= heads && who2 <= who && raised2 <= raised
    ensures Frame(u, w, heads, who, raised, wide)
  {
    hide Frame;
    FrameWider(u, v, heads1, who1, raised1, heads, who, raised, wide);
    FrameWider(v, w, heads2, who2, raised2, heads, who, raised, wide);
    FrameMore(u, v, w, heads, who, raised, who, who, wide);
  }

  /** No suspend list has this head. */
  lemma FrameDrop(v: View, w: View, more: set<int>, heads: set<int>, h: int, who: set<int>, raised: set<int>, wide: bool)
    requires more == heads + {h} && Frame(v, w, more, who, raised, wide) && (h !in v.q || IsReadyHead(h, wide))
    ensures Frame(v, w, heads, who, raised, wide)
  {
  }

  /** One thread was woken. */
  lemma FrameWoken(v: View, w: View, t: int, e: Error, who: set<int>, wide: bool)
    requires Woken(v.threads, v.q, v.at, w.threads, w.q, w.at, t, e) && v.threads[t].prio < Limit(wide)
    requires t in who || v.threads[t].error == e
    ensures Frame(v, w, {v.at[t]}, who, {}, wide)
  {
    hide Without, InsertedAt;
  }

  lemma RousedWoken(v: View, w: View, t: int, e: Error)
    requires Woken(v.threads, v.q, v.at, w.threads, w.q, w.at, t, e) && v.threads[t].stat == Suspend
    ensures Roused(v.threads, w.threads, {t}, {})
  {
    hide Moved;
  }

  /** One thread closed. */
  lemma FrameClosed(v: View, w: View, t: int, wide: bool)
    requires Closed(v.threads, v.q, v.at, w.threads, w.q, w.at, t)
    ensures Frame(v, w, {v.at[t], DEFUNCT}, {t}, {}, wide)
  {
    hide Without, InsertedAt;
  }

  lemma LeaveOtherWaits(q: map<int, seq<int>>, at: map<int, int>, t: int, wide: bool)
    requires t in at && (at[t] !in q || IsReadyHead(at[t], wide))
    ensures OtherWaits(q, Leave(q, at, t), wide)
  {
    hide Without;
  }

  /** One control block and at most one suspend list changed. */
  lemma FrameOne(v: View, w: View, h: int, t: int, heads: set<int>, who: set<int>, raised: set<int>, wide: bool)
    requires w.q == v.q || OtherWaits(v.q, w.q, wide) || (h in heads && SameWaits(v.q, w.q, h, wide))
    requires t in v.threads && t in w.threads && w.threads == v.threads[t := w.threads[t]] && forall x :: x in v.at ==> x in w.at
    requires t in who || (SameCall(v.threads[t], w.threads[t]) && (Running(v.threads[t]) ==> Running(w.threads[t])))
    requires t in raised || v.threads[t].prio == w.threads[t].prio
    ensures Frame(v, w, heads, who, raised, wide)
  {
  }

  lemma FrameAll(v: View, w: View, h: int, s: seq<int>, wide: bool)
    requires AllWoken(s, v.threads, w.threads) && SameWaits(v.q, w.q, h, wide) && SamePlaces(s, v.at, w.at)
    ensures Frame(v, w, {h}, Members(s), {}, wide)
  {
  }

  class Kernel {
    const wide: bool                 // more than 32 priorities
    var links: Links                 // the tlist nodes and the list heads
    var threads: map<int, Thread>
    var index: Index
    var current: int                 // 0 before the scheduler has started
    var currentPriority: nat
    var lockNest: nat
    ghost var q: map<int, seq<int>>
    ghost var at: map<int, int>

    ghost function See(): View
      reads this
    {
      View(q, threads, at)
    }

    ghost predicate Valid()
      reads this
    {
      ListsOk(links, q, at, index, wide) && ThreadsOk(threads, at, wide)
    }

    // ---- scheduler.c ----

    /** rt_system_scheduler_init */
    constructor (wide: bool)
      ensures Valid() && this.wide == wide && at == map[] && threads == map[] && lockNest == 0 && current == 0
      ensures forall g :: g in q ==> DEFUNCT <= g && q[g] == []
    {
      hide Agrees, Busy, Ring;
      this.wide := wide;
      links, threads, current, lockNest := Links(map[], map[]), map[], 0, 0;
      currentPriority := Limit(wide) - 1;
      index := Index(0, seq(32, _ => 0));
      q, at := map[], map[];
      new;
      for p := 0 to Limit(wide)
        modifies this`links, this`q
        invariant QueuesOk(links, q, at) && (forall g :: g in q ==> q[g] == [] && -p <= g < 0)
        invariant forall i: nat :: i < p ==> ReadyHead(i) in q
      {
        HeadAdded(links, q, at, ReadyHead(p));
        links := RtList.Init(links, ReadyHead(p));
        q := q[ReadyHead(p) := []];
      }
      HeadAdded(links, q, at, DEFUNCT);
      links := RtList.Init(links, DEFUNCT);
      q := q[DEFUNCT := []];
      EmptyIndex(q, wide);
    }

    /** rt_ipc_object_init: a new, empty suspend list */
    method AddList(h: int)
      requires Valid() && h < DEFUNCT && h !in q
      modifies this`links, this`q
      ensures Valid() && q == old(q)[h := []] && Frame(old(See()), See(), {}, {}, {}, wide)
    {
      hide QueuesOk, ThreadsOk, Agrees;
      assert ListsOk(links, q, at, index, wide);
      HeadAbsent(threads, at, wide, h);
      HeadAdded(links, q, at, h);
      assert Busy(q[h := []], wide) == Busy(q, wide);
      links := RtList.Init(links, h);
      q := q[h := []];
    }

    twostate predicate AddThreadStep(t: int, prio: nat, slice: nat)
      reads this
    {
      && at == old(at)[t := t] && t in threads && threads == old(threads)[t := threads[t]] && threads[t].stat == Init
      && threads[t].prio == threads[t].initPrio == prio && threads[t].error == EOk && !threads[t].armed
      && threads[t].slice == threads[t].left == slice && Frame(old(See()), See(), {}, {}, {}, wide)
    }

    /** _rt_thread_init */
    method AddThread(t: int, prio: nat, slice: nat)
      requires Valid() && t !in at && 0 < t && prio < Limit(wide)
      modifies this`links, this`threads, this`at
      ensures Valid()
      ensures AddThreadStep(t, prio, slice)
    {
      hide QueuesOk, Agrees, Busy, AttrOf;
      ThreadAdded(links, q, at, t);
      links := RtList.Init(links, t);
      threads := threads[t := Thread(Init, prio, prio, Attr(0, 0, 0), EOk, false, 0, 0, slice, slice)];
      at := at[t := t];
    }

    /** rt_schedule_insert_thread */
    method InsertThread(t: int)
      requires ListsOk(links, q, at, index, wide) && t in at && at[t] == t && t in threads
      requires threads[t].prio < Limit(wide) && threads[t].attr == AttrOf(wide, threads[t].prio)
      modifies this`links, this`threads, this`index, this`q, this`at
      ensures ListsOk(links, q, at, index, wide)
      ensures threads == old(threads)[t := old(threads)[t].(stat := Ready)]
      ensures at == old(at)[t := ReadyHead(threads[t].prio)]
      ensures var h := ReadyHead(threads[t].prio); h in old(q) && q == Join(old(q), h, |old(q)[h]|, t)
    {
      hide ListsOk, AttrOf, InsertBefore, Mark, Join;
      var p := threads[t].prio;
      JoinReady(links, q, at, index, wide, t, p);
      threads := threads[t := threads[t].(stat := Ready)];
      links := InsertBefore(links, ReadyHead(p), t);
      index := Mark(index, wide, threads[t].attr);
      q := Join(q, ReadyHead(p), |q[ReadyHead(p)]|, t);
      at := at[t := ReadyHead(p)];
    }

    /** rt_schedule_remove_thread, of a started thread */
    method RemoveThread(t: int)
      requires ListsOk(links, q, at, index, wide) && t in at && t in threads
      requires at[t] == ReadyHead(threads[t].prio) || !IsReadyHead(at[t], wide)
      requires threads[t].prio < Limit(wide) && threads[t].attr == AttrOf(wide, threads[t].prio)
      modifies this`links, this`index, this`q, this`at
      ensures ListsOk(links, q, at, index, wide)
      ensures at == old(at)[t := t] && q == Leave(old(q), old(at), t)
    {
      hide ListsOk, AttrOf, Remove, Unmark, Leave, Has;
      var p := threads[t].prio;
      LeaveReady(links, q, at, index, wide, t, p);
      RemoveFields(links, t);
      links := Remove(links, t);
      if IsEmpty(links, ReadyHead(p)) {
        index := Unmark(index, wide, threads[t].attr);
      }
      q := Leave(q, at, t);
      at := at[t := t];
    }

    twostate predicate ScheduleStep()
      reads this
    {
      && Valid()
      && (lockNest > 0 ==> current == old(current) && currentPriority == old(currentPriority))
      && (lockNest == 0 ==> First(current)) && (current != old(current) ==> currentPriority == threads[current].prio)
    }

    /** rt_schedule: with the lock at zero the processor goes to the first thread in the list of
        the most urgent priority that has a ready thread. */
    method Schedule()
      requires Valid() && (lockNest == 0 ==> exists t :: t in at && threads[t].stat == Ready)
      modifies this`current, this`currentPriority
      ensures ScheduleStep()
    {
      hide ListsOk, AttrOf, ThreadOk, Has, Busy, Agrees;
      if lockNest == 0 {
        var p := FindHighest();
        var h := links.next[ReadyHead(p)];
        if h != current {
          currentPriority := p;
          current := h;
        }
      }
    }

    /** rt_system_scheduler_start: the first thread to run, whatever the lock. */
    method Start()
      requires Valid() && exists t :: t in at && threads[t].stat == Ready
      modifies this`current
      ensures Valid() && First(current)
    {
      hide ListsOk, AttrOf, ThreadOk, Has, Busy, Agrees;
      var p := FindHighest();
      current := links.next[ReadyHead(p)];
    }

    /** The thread the scheduler must choose. */
    ghost predicate First(t: int)
      requires Valid()
      reads this
    {
      && t in at && threads[t].stat == Ready
      && at[t] in q && q[at[t]] != [] && q[at[t]][0] == t
      && forall x :: x in at && threads[x].stat == Ready ==> threads[t].prio <= threads[x].prio
    }

    method FindHighest() returns (p: nat)
      requires Valid() && exists t :: t in at && threads[t].stat == Ready
      ensures ReadyHead(p) in links.next && var t := links.next[ReadyHead(p)]; First(t) && threads[t].prio == p
    {
      hide QueuesOk, AttrOf, Busy, Agrees;
      ghost var t :| t in at && threads[t].stat == Ready;
      InBusy(links, q, at, t, threads[t].prio, wide);
      HighestLowest(index, wide, Busy(q, wide));
      p := Highest(index, wide);
      BusyMeans(q, wide, p);
      Emptiness(links, q, at, ReadyHead(p));
      forall x | x in at && threads[x].stat == Ready ensures p <= threads[x].prio {
        InBusy(links, q, at, x, threads[x].prio, wide);
      }
    }

    method EnterCritical()
      modifies this`lockNest
      ensures lockNest == old(lockNest) + 1
    {
      lockNest := lockNest + 1;
    }

    twostate predicate ExitCriticalStep()
      reads this
    {
      && Valid() && (lockNest == if old(lockNest) == 0 then 0 else old(lockNest) - 1) && (lockNest == 0 ==> First(current))
      && (lockNest > 0 ==> current == old(current))
    }

    /** rt_exit_critical: a schedule is due once the last lock is gone; a surplus call leaves it at zero. */
    method ExitCritical()
      requires Valid() && (lockNest <= 1 ==> exists t :: t in at && threads[t].stat == Ready)
      modifies this`lockNest, this`current, this`currentPriority
      ensures ExitCriticalStep()
    {
      hide ListsOk, ThreadOk;
      lockNest := if lockNest == 0 then 0 else lockNest - 1;
      if lockNest == 0 {
        Schedule();
      }
    }

    /** The members of a suspend list. */
    lemma WaiterFacts(h: int)
      requires Valid() && h in q && h < DEFUNCT
      ensures Sleepers(h) && Distinct(q[h]) && h !in q[h]
      ensures forall t :: t in q[h] ==> t in at && at[t] == h && t in threads && threads[t].prio < Limit(wide)
      ensures forall t :: t in at && at[t] == h ==> t in q[h]
      ensures q[h] != [] ==> h in links.next && links.next[h] == q[h][0]
      ensures h in links.next && (IsEmpty(links, h) <==> q[h] == [])
    {
      hide Agrees, Busy, Ring, AttrOf;
      Emptiness(links, q, at, h);
      RingTail(links, h, q[h]);
      assert InList(q[h], h, at);
    }

    /** The links along a suspend list. */
    lemma Walk(h: int, i: nat)
      requires Valid() && h in q && h < DEFUNCT && i <= |q[h]|
      ensures ([h] + q[h])[i] in links.next && links.next[([h] + q[h])[i]] == if i < |q[h]| then q[h][i] else h
      ensures i < |q[h]| ==> q[h][i] != h
    {
      hide QueuesOk, Agrees, Busy, ThreadOk;
      HeadStep(links, q, at, h, i);
    }

    /** Everyone in the list is SUSPEND. */
    ghost predicate Sleepers(h: int)
      requires h in q
      reads this
    {
      forall t :: t in q[h] ==> t in threads && threads[t].stat == Stat.Suspend
    }

    lemma Known()
      requires Valid()
      ensures threads.Keys == at.Keys
    {
      hide ListsOk, ThreadOk;
      forall t | t in at.Keys ensures t in threads.Keys { assert t in at; }
    }

    lemma Asleep(h: int)
      requires Valid() && h in q && Sleepers(h)
      ensures forall t :: t in q[h] ==> t in threads && threads[t].stat == Stat.Suspend
    {
    }

    lemma WaitHead(h: int)
      requires Valid() && h in q
      ensures h in links.next && (links.next[h] == h <==> q[h] == [])
      ensures q[h] != [] ==> links.next[h] == q[h][0]
    {
      hide ThreadOk, Agrees, Busy, QueuesOk;
      Emptiness(links, q, at, h);
    }

    lemma SleeperFacts(h: int)
      requires Valid() && h in q && Sleepers(h)
      ensures Distinct(q[h]) && forall t :: t in q[h] ==> t in at && at[t] == h && t in threads && threads[t].stat == Stat.Suspend
    {
      hide ThreadOk, Agrees, Busy, Ring;
      RingTail(links, h, q[h]);
      assert InList(q[h], h, at);
    }

    // ---- thread.c ----

    twostate predicate SuspendStep(t: int, ok: bool)
      reads this
    {
      && t in old(threads) && t in old(at) && (ok <==> old(threads)[t].stat == Ready)
      && (!ok ==> threads == old(threads) && q == old(q) && at == old(at) && links == old(links))
      && (ok ==> threads == old(threads)[t := old(threads)[t].(stat := Stat.Suspend, armed := false)])
      && (ok ==> at == old(at)[t := t] && q == Leave(old(q), old(at), t))
      && Frame(old(See()), See(), {}, {t}, {}, wide) && Roused(old(threads), threads, {}, if ok then {t} else {})
    }

    /** rt_thread_suspend: an error, and nothing else, unless the thread is READY. */
    method Suspend(t: int) returns (ok: bool)
      requires Valid() && t in at
      modifies this`links, this`threads, this`index, this`q, this`at
      ensures Valid()
      ensures SuspendStep(t, ok)
    {
      hide ListsOk, ThreadsOk, Leave, Frame, OtherWaits, Roused;
      FrameNone(See(), {}, {t}, {}, wide);
      RousedNone(threads);
      StatOf(t);
      if threads[t].stat != Ready {
        return false;
      }
      LeaveOtherWaits(q, at, t, wide);
      ThreadChange(threads, at, wide, t, threads[t].(stat := Stat.Suspend, armed := false), t);
      RemoveThread(t);
      threads := threads[t := threads[t].(stat := Stat.Suspend, armed := false)];
      FrameOne(old(See()), See(), 0, t, {}, {t}, {}, wide);
      RousedOne(old(threads), threads, t);
      return true;
    }

    twostate predicate ResumeStep(t: int, ok: bool)
      reads this
    {
      && t in old(threads) && t in old(at) && (ok <==> old(threads)[t].stat == Stat.Suspend)
      && (!ok ==> threads == old(threads) && q == old(q) && at == old(at) && links == old(links))
      && (ok ==> Woken(old(threads), old(q), old(at), threads, q, at, t, old(threads)[t].error))
      && Frame(old(See()), See(), {old(at)[t]}, {}, {}, wide) && Roused(old(threads), threads, if ok then {t} else {}, {})
    }

    /** rt_thread_resume: an error, and nothing else, unless the thread is SUSPEND. */
    method Resume(t: int) returns (ok: bool)
      requires Valid() && t in at
      modifies this`links, this`threads, this`index, this`q, this`at
      ensures Valid()
      ensures ResumeStep(t, ok)
    {
      hide ListsOk, ThreadsOk, Leave, Join, Remove, AttrOf, Has, Frame, Woken, Roused;
      FrameNone(See(), {at[t]}, {}, {}, wide);
      RousedNone(threads);
      StatOf(t);
      if threads[t].stat != Stat.Suspend {
        return false;
      }
      Wake(t, threads[t].error);
      FrameWoken(old(See()), See(), t, old(threads)[t].error, {}, wide);
      RousedWoken(old(See()), See(), t, old(threads)[t].error);
      return true;
    }

    /** Out of the suspend list, timer off, to the end of its ready list. */
    method Wake(t: int, e: Error)
      requires Valid() && t in at && threads[t].stat == Stat.Suspend
      modifies this`links, this`threads, this`index, this`q, this`at
      ensures Valid() && Woken(old(threads), old(q), old(at), threads, q, at, t, e)
    {
      hide ListsOk, ThreadsOk, Leave, Join, Remove, AttrOf, Has, QueuesOk, Agrees;
      StatOf(t);
      ghost var c, threads0, at0 := threads[t], threads, at;
      ThreadChange(threads, at, wide, t, c.(stat := Ready, armed := false, error := e), ReadyHead(c.prio));
      LeaveWait(links, q, at, index, wide, t);
      RemoveFields(links, t);
      links := Remove(links, t);
      q := Leave(q, at, t);
      at := at[t := t];
      threads := threads[t := threads[t].(armed := false, error := e)];
      InsertThread(t);
      assert threads == threads0[t := c.(stat := Ready, armed := false, error := e)] && at == at0[t := ReadyHead(c.prio)];
    }

    lemma StatOf(t: int)
      requires Valid() && t in at
      ensures t in threads && ThreadOk(threads[t], at[t], t, wide)
    {
      hide ListsOk;
    }

    lemma OwnNode(t: int)
      requires Valid() && t in at && at[t] == t
      ensures t !in q
    {
      hide QueuesOk, Agrees, Busy, AttrOf;
    }

    twostate predicate TimeoutStep(t: int)
      reads this
    {
      && t in old(threads) && t in old(at) && old(threads)[t].stat == Stat.Suspend
      && Woken(old(threads), old(q), old(at), threads, q, at, t, ETimeout)
      && Frame(old(See()), See(), {old(at)[t]}, {t}, {}, wide) && Roused(old(threads), threads, {t}, {})
    }

    /** rt_thread_timeout, called by the expired thread timer. The assertion it starts with holds. */
    method Timeout(t: int)
      requires Valid() && t in at && threads[t].armed
      modifies this`links, this`threads, this`index, this`q, this`at
      ensures Valid()
      ensures TimeoutStep(t)
    {
      hide ListsOk, ThreadsOk, Woken, Frame, Roused;
      StatOf(t);
      assert threads[t].stat == Stat.Suspend;
      Wake(t, ETimeout);
      FrameWoken(old(See()), See(), t, ETimeout, {t}, wide);
      RousedWoken(old(See()), See(), t, ETimeout);
    }

    twostate predicate SetPriorityStep(t: int, p: nat)
      reads this
    {
      && t in old(threads)
      && threads == old(threads)[t := old(threads)[t].(prio := p, attr := AttrOf(wide, p))]
      && (old(threads)[t].stat != Ready ==> q == old(q) && at == old(at))
      && (old(threads)[t].stat == Ready ==> Moved(old(q), old(at), q, at, t, ReadyHead(p)))
      && (OtherWaits(old(q), q, wide) && at == if old(threads)[t].stat == Ready then old(at)[t := ReadyHead(p)] else old(at))
      && Frame(old(See()), See(), {}, {}, {t}, wide) && Roused(old(threads), threads, {}, {})
    }

    /** RT_THREAD_CTRL_CHANGE_PRIORITY: a READY thread goes to the end of the list of its new priority. */
    method SetPriority(t: int, p: nat)
      requires Valid() && t in at && p < Limit(wide)
      modifies this`links, this`threads, this`index, this`q, this`at
      ensures Valid()
      ensures SetPriorityStep(t, p)
    {
      hide ListsOk, ThreadsOk, Leave, Join, AttrOf, OtherWaits, Moved, Frame, Roused;
      ghost var q0, at0 := q, at;
      SameOther(q, wide);
      StatOf(t);
      ghost var c := threads[t];
      ThreadChange(threads, at, wide, t, c.(prio := p, attr := AttrOf(wide, p)), if c.stat == Ready then ReadyHead(p) else at[t]);
      if threads[t].stat == Ready {
        RemoveThread(t);
        threads := threads[t := threads[t].(prio := p, attr := AttrOf(wide, p))];
        InsertThread(t);
        MovedIs(q0, at0, q, at, t, ReadyHead(p));
        MovedOther(q0, at0, q, at, t, ReadyHead(p), wide);
      } else {
        threads := threads[t := threads[t].(prio := p, attr := AttrOf(wide, p))];
      }
      assert threads == old(threads)[t := c.(prio := p, attr := AttrOf(wide, p))];
      assert at == at0[t := if c.stat == Ready then ReadyHead(p) else at0[t]];
      FrameOne(old(See()), See(), 0, t, {}, {}, {t}, wide);
      RousedOne(old(threads), threads, t);
    }

    twostate predicate YieldStep()
      reads this
    {
      && Valid() && old(current) in old(threads) && old(current) in old(at) && at == old(at)
      && Frame(old(See()), See(), {}, {}, {}, wide)
      && (var c := old(current);
         if old(threads)[c].stat == Ready && old(at)[c] in old(q) && |old(q)[old(at)[c]]| >= 2
         then Moved(old(q), old(at), q, at, c, old(at)[c]) && (lockNest == 0 ==> First(current))
         else q == old(q) && current == c)
    }

    /** rt_thread_yield: with company in its list the running thread goes behind all of it. */
    method Yield()
      requires Valid() && current in at && (lockNest == 0 ==> exists t :: t in at && threads[t].stat == Ready)
      modifies this`links, this`q, this`at, this`current, this`currentPriority
      ensures Valid()
      ensures YieldStep()
    {
      hide ListsOk, Leave, Join, AttrOf, Remove, InsertBefore, Frame, OtherWaits;
      FrameNone(See(), {}, {}, {}, wide);
      var t := current;
      StatOf(t);
      if threads[t].stat == Ready {
        var h := ReadyHead(threads[t].prio);
        Crowded(links, q, at, index, wide, t);
        if links.next[t] != links.prev[t] {
          Requeue(links, q, at, index, wide, t, threads[t].prio);
          ghost var r := Leave(q, at, t);
          links := Remove(links, t);
          links := InsertBefore(links, h, t);
          q := Join(r, h, |r[h]|, t);
          assert at[t := h] == at;
          MovedIs(old(q), at, q, at, t, h);
          MovedOther(old(q), at, q, at, t, h, wide);
          FrameOne(old(See()), See(), 0, t, {}, {}, {}, wide);
          Schedule();
        }
      }
    }

    twostate predicate SleepStep()
      reads this
    {
      && current in old(threads) && current in old(at) && q == Leave(old(q), old(at), current)
      && at == old(at)[current := current]
      && threads == old(threads)[current := old(threads)[current].(stat := Stat.Suspend, armed := true)]
      && Frame(old(See()), See(), {}, {current}, {}, wide)
    }

    /** The suspending half of rt_thread_sleep; the timer is started with the given ticks. */
    method Sleep()
      requires Valid() && current in at && current in threads && threads[current].stat == Ready
      modifies this`links, this`threads, this`index, this`q, this`at
      ensures Valid()
      ensures SleepStep()
    {
      hide ListsOk, ThreadsOk, Leave, Frame;
      var ok := Suspend(current);
      ghost var v := See();
      Arm(current);
      FrameOne(v, See(), 0, current, {}, {current}, {}, wide);
      FrameMore(old(See()), v, See(), {}, {current}, {}, {current}, {current}, wide);
    }

    twostate predicate SleepEndStep(t: int)
      reads this
    {
      && t in old(threads) && Frame(old(See()), See(), {}, {t}, {}, wide)
      && (threads == if old(threads)[t].error == ETimeout then old(threads)[t := old(threads)[t].(error := EOk)] else old(threads))
    }

    /** The end of rt_thread_sleep: the error the timer left is cleared, any other one stays. */
    method SleepEnd(t: int)
      requires Valid() && t in at && t in threads
      modifies this`threads
      ensures Valid()
      ensures SleepEndStep(t)
    {
      hide ListsOk, ThreadsOk, Frame;
      FrameNone(See(), {}, {t}, {}, wide);
      if threads[t].error == ETimeout {
        SetError(t, EOk);
      }
    }

    twostate predicate TimeSliceStep()
      reads this
    {
      && Valid() && old(current) in old(at) && at == old(at) && Frame(old(See()), See(), {}, {}, {}, wide)
      && old(current) in old(threads)
      && (var c := old(threads)[old(current)];
         threads == old(threads)[old(current) := c.(left := if c.left == 0 then 0xFFFF_FFFF else if c.left == 1 then c.slice else c.left - 1)])
      && (var c := old(current);
         if old(threads)[c].left == 1 && old(threads)[c].stat == Ready && old(at)[c] in old(q) && |old(q)[old(at)[c]]| >= 2
         then Moved(old(q), old(at), q, at, c, old(at)[c]) && (lockNest == 0 ==> First(current))
         else q == old(q) && current == c)
    }

    /** The share of rt_tick_increase in scheduling: with the last tick of its slice the running thread
        gets a new one and goes behind the others of its priority. */
    method TimeSlice()
      requires Valid() && current in at && current in threads && (lockNest == 0 ==> exists t :: t in at && threads[t].stat == Ready)
      modifies this`links, this`threads, this`q, this`at, this`current, this`currentPriority
      ensures Valid()
      ensures TimeSliceStep()
    {
      hide ListsOk, ThreadsOk, Moved, Frame;
      var c := threads[current];
      SetLeft(current, Ticked(c.left));
      ghost var v := See();
      FrameNone(v, {}, {}, {}, wide);
      if threads[current].left == 0 {
        SetLeft(current, c.slice);
        FrameMore(old(See()), v, See(), {}, {}, {}, {}, {}, wide);
        v := See();
        Yield();
      }
      FrameMore(old(See()), v, See(), {}, {}, {}, {}, {}, wide);
    }

    method SetLeft(t: int, left: nat)
      requires Valid() && t in at && t in threads
      modifies this`threads
      ensures Valid() && threads == old(threads)[t := old(threads)[t].(left := left)]
      ensures Frame(old(See()), See(), {}, {}, {}, wide)
    {
      hide ListsOk, ThreadsOk, Frame;
      StatOf(t);
      ThreadChange(threads, at, wide, t, threads[t].(left := left), at[t]);
      assert at[t := at[t]] == at;
      threads := threads[t := threads[t].(left := left)];
      FrameOne(old(See()), See(), 0, t, {}, {}, {}, wide);
    }

    /** rt_timer_start on the timer of a thread that has just been suspended. */
    method Arm(t: int)
      requires Valid() && t in at && threads[t].stat == Stat.Suspend
      modifies this`threads
      ensures Valid() && threads == old(threads)[t := old(threads)[t].(armed := true)]
    {
      hide ListsOk;
      ThreadChange(threads, at, wide, t, threads[t].(armed := true), at[t]);
      assert at[t := at[t]] == at;
      threads := threads[t := threads[t].(armed := true)];
    }

    /** thread->error */
    method SetError(t: int, e: Error)
      requires Valid() && t in at
      modifies this`threads
      ensures Valid() && threads == old(threads)[t := old(threads)[t].(error := e)]
      ensures Frame(old(See()), See(), {}, {t}, {}, wide) && Roused(old(threads), threads, {}, {})
      ensures forall s: seq<int> :: Urgent(s, old(threads)) ==> Urgent(s, threads)
    {
      hide ListsOk, Urgent, Frame, Roused;
      ghost var threads0 := threads;
      ThreadChange(threads, at, wide, t, threads[t].(error := e), at[t]);
      assert at[t := at[t]] == at;
      threads := threads[t := threads[t].(error := e)];
      FrameOne(old(See()), See(), 0, t, {}, {t}, {}, wide);
      RousedOne(threads0, threads, t);
      forall s: seq<int> | Urgent(s, threads0) ensures Urgent(s, threads) { UrgentSame(s, threads0, threads); }
    }

    /** thread->event_set and event_info */
    method SetEvent(t: int, set32: bv32, info: bv32)
      requires Valid() && t in at
      modifies this`threads
      ensures Valid() && threads == old(threads)[t := old(threads)[t].(eventSet := set32, eventInfo := info)]
      ensures Frame(old(See()), See(), {}, {t}, {}, wide) && Roused(old(threads), threads, {}, {})
      ensures forall s: seq<int> :: Urgent(s, old(threads)) ==> Urgent(s, threads)
    {
      hide ListsOk, Urgent, Frame, Roused;
      ghost var threads0 := threads;
      ThreadChange(threads, at, wide, t, threads[t].(eventSet := set32, eventInfo := info), at[t]);
      assert at[t := at[t]] == at;
      threads := threads[t := threads[t].(eventSet := set32, eventInfo := info)];
      FrameOne(old(See()), See(), 0, t, {}, {t}, {}, wide);
      RousedOne(threads0, threads, t);
      forall s: seq<int> | Urgent(s, threads0) ensures Urgent(s, threads) { UrgentSame(s, threads0, threads); }
    }

    twostate predicate StartupStep(t: int)
      reads this
    {
      && Valid() && t in old(threads) && t in threads && threads[t].stat == Ready
      && threads[t].prio == old(threads)[t].initPrio && t in at && at.Keys == old(at).Keys
      && Moved(old(q), old(at), q, at, t, ReadyHead(old(threads)[t].initPrio))
      && (forall x :: x in old(threads) && x != t ==> x in threads && threads[x] == old(threads)[x])
      && (old(current) != 0 && lockNest == 0 ==> First(current)) && Frame(old(See()), See(), {}, {}, {t}, wide)
    }

    /** rt_thread_startup: the thread takes its initial priority and becomes READY. */
    method Startup(t: int)
      requires Valid() && t in at && threads[t].stat == Init
      modifies this`links, this`threads, this`index, this`q, this`at, this`current, this`currentPriority
      ensures Valid()
      ensures StartupStep(t)
    {
      hide ListsOk, ThreadsOk, AttrOf, Leave, Join, Frame, Roused;
      StatOf(t);
      OwnNode(t);
      ghost var was := at;
      var p := threads[t].initPrio;
      var c := threads[t].(prio := p, attr := AttrOf(wide, p), stat := Stat.Suspend);
      ThreadChange(threads, at, wide, t, c, at[t]);
      assert at[t := at[t]] == at;
      threads := threads[t := c];
      FrameOne(old(See()), See(), 0, t, {}, {}, {t}, wide);
      ghost var v := See();
      var ok := Resume(t);
      FrameDrop(v, See(), {t}, {}, t, {}, {}, wide);
      FrameThen(old(See()), v, See(), {}, {}, {t}, {}, {}, {}, {}, {}, {t}, wide);
      if current != 0 {
        assert t in at && threads[t].stat == Ready;
        Schedule();
      }
    }

    twostate predicate ExitStep(detached: bool)
      reads this
    {
      && current in old(threads) && current in old(at) && Frame(old(See()), See(), {DEFUNCT}, {current}, {}, wide)
      && (!detached ==> Closed(old(threads), old(q), old(at), threads, q, at, current))
      && (detached ==> q == Leave(old(q), old(at), current) && at == old(at)[current := current])
      && (detached ==> threads == old(threads)[current := old(threads)[current].(stat := Close, armed := false)])
    }

    /** rt_thread_exit: the running thread closes. A static thread without a cleanup function is only
        detached; any other one goes to the front of the defunct list. */
    method Exit(detached: bool)
      requires Valid() && current in at && current in threads && threads[current].stat == Ready
      modifies this`links, this`threads, this`index, this`q, this`at
      ensures Valid()
      ensures ExitStep(detached)
    {
      hide ListsOk, ThreadsOk, Closed, Frame, Leave, OtherWaits;
      var t := current;
      StatOf(t);
      if detached {
        LeaveOtherWaits(q, at, t, wide);
        ThreadChange(threads, at, wide, t, threads[t].(stat := Close, armed := false), t);
        RemoveThread(t);
        threads := threads[t := threads[t].(stat := Close, armed := false)];
        FrameOne(old(See()), See(), DEFUNCT, t, {DEFUNCT}, {t}, {}, wide);
      } else {
        Delete(t);
        FrameDrop(old(See()), See(), {old(at)[t], DEFUNCT}, {DEFUNCT}, old(at)[t], {t}, {}, wide);
      }
    }

    twostate predicate DeleteStep(t: int)
      reads this
    {
      && t in old(at) && Closed(old(threads), old(q), old(at), threads, q, at, t)
      && Frame(old(See()), See(), {old(at)[t], DEFUNCT}, {t}, {}, wide)
    }

    /** rt_thread_delete, of a started thread: out of its ready or suspend list, timer detached, to the
        front of the defunct list. */
    method Delete(t: int)
      requires Valid() && t in at && (threads[t].stat == Ready || threads[t].stat == Stat.Suspend)
      modifies this`links, this`threads, this`index, this`q, this`at
      ensures Valid()
      ensures DeleteStep(t)
    {
      hide ListsOk, Leave, Join, AttrOf, InsertAfter, Frame;
      ThreadChange(threads, at, wide, t, threads[t].(stat := Close, armed := false), DEFUNCT);
      RemoveThread(t);
      threads := threads[t := threads[t].(stat := Close, armed := false)];
      JoinDefunct(links, q, at, index, wide, t);
      links := InsertAfter(links, DEFUNCT, t);
      q := Join(q, DEFUNCT, 0, t);
      at := at[t := DEFUNCT];
      FrameClosed(old(See()), See(), t, wide);
    }

    // ---- suspend lists of ipc.c ----

    /** rt_ipc_list_suspend. In a list ordered by priority the thread goes before the first less
        urgent one, so behind its equals; otherwise it goes to the end. */
    method ListSuspend(h: int, t: int, byPriority: bool)
      requires Valid() && t in at && threads[t].stat == Ready && h in q && h < DEFUNCT
      modifies this`links, this`threads, this`index, this`q, this`at
      ensures Valid() && threads == old(threads)[t := old(threads)[t].(stat := Stat.Suspend, armed := false)]
      ensures at == old(at)[t := h] && Suspended(old(q), old(at), old(threads), q, h, t, byPriority)
    {
      hide ListsOk, ThreadsOk, Leave, Join, AttrOf, InsertBefore, Frame, Roused;
      ghost var threads0 := threads;
      StatOf(t);
      LeaveOther(q, at, t, h);
      var ok := Suspend(t);
      var n, i := h, |q[h]|;
      if byPriority {
        n, i := FindPlace(h, t);
        PlaceSame(q[h], threads0, threads, t, threads[t].prio);
      }
      JoinWait(links, q, at, index, wide, t, h, i);
      WaitPlace(threads, at, wide, t, h);
      links := InsertBefore(links, n, t);
      q := Join(q, h, i, t);
      at := at[t := h];
    }

    /** The search loop of rt_ipc_list_suspend. */
    method FindPlace(h: int, t: int) returns (n: int, ghost i: nat)
      requires Valid() && h in q && t in at
      ensures i == Place(q[h], threads, threads[t].prio) && i <= |q[h]| && n == if i < |q[h]| then q[h][i] else h
    {
      hide AttrOf, ThreadOk, QueuesOk, Place, Ring, Agrees;
      PlaceMeans(q[h], threads, threads[t].prio);
      HeadStep(links, q, at, h, 0);
      n, i := links.next[h], 0;
      while n != h
        invariant 0 <= i <= |q[h]| && n == if i < |q[h]| then q[h][i] else h
        invariant i <= Place(q[h], threads, threads[t].prio)
        invariant n == h <==> i == |q[h]|
        decreases |q[h]| - i
      {
        HeadStep(links, q, at, h, i);
        if threads[t].prio < threads[n].prio {
          return;
        }
        HeadStep(links, q, at, h, i + 1);
        n, i := links.next[n], i + 1;
      }
    }

    /** rt_ipc_list_suspend, and the thread timer started if the wait is limited. */
    method Block(h: int, t: int, byPriority: bool, timed: bool)
      requires Valid() && t in at && threads[t].stat == Ready && h in q && h < DEFUNCT
      modifies this`links, this`threads, this`index, this`q, this`at
      ensures Valid() && threads == old(threads)[t := old(threads)[t].(stat := Stat.Suspend, armed := timed)]
      ensures at == old(at)[t := h] && SameWaits(old(q), q, h, wide) && h in q
      ensures t in old(threads) && q[h] == Enqueued(old(q)[h], old(threads), t, byPriority)
      ensures byPriority && Urgent(old(q)[h], old(threads)) ==> Urgent(q[h], threads)
      ensures forall x :: x in q[h] <==> x in old(q)[h] || x == t
      ensures Frame(old(See()), See(), {h}, {t}, {}, wide) && Roused(old(threads), threads, {}, {t})
    {
      hide ListsOk, ThreadsOk, Suspended, AttrOf, InsertedAt, Place, Urgent, SameWaits, Frame, Roused;
      ghost var q0, at0, threads0 := q, at, threads;
      StatOf(t);
      ListSuspend(h, t, byPriority);
      if timed {
        Arm(t);
      }
      SuspendedQueues(q0, at0, threads0, q, h, t, byPriority, wide);
      FrameOne(old(See()), See(), h, t, {h}, {t}, {}, wide);
      RousedOne(threads0, threads, t);
      if byPriority && Urgent(q0[h], threads0) {
        PlaceUrgent(q0[h], threads0, t);
        UrgentSame(q[h], threads0, threads);
      }
    }

    /** rt_ipc_list_resume */
    method ListResume(h: int)
      requires Valid() && h in q && h < DEFUNCT && q[h] != []
      modifies this`links, this`threads, this`index, this`q, this`at
      ensures Valid() && h in q && q[h] == old(q)[h][1..] && SameWaits(old(q), q, h, wide)
      ensures var t := old(q)[h][0]; Freed(old(threads), old(at), threads, at, t) && threads[t].error == old(threads)[t].error
      ensures Urgent(old(q)[h], old(threads)) ==> Urgent(q[h], threads)
      ensures Frame(old(See()), See(), {h}, {}, {}, wide) && Roused(old(threads), threads, {old(q)[h][0]}, {})
    {
      hide Roused, Frame, ListsOk, ThreadsOk, AttrOf, Urgent, SameWaits, QueuesOk;
      ghost var q0, at0, threads0 := q, at, threads;
      WaiterFacts(h);
      var t := links.next[h];
      Wake(t, threads[t].error);
      FreedQueues(threads0, q0, at0, threads, q, at, h, t, threads0[t].error, wide);
      RousedOne(threads0, threads, t);
      FrameOne(old(See()), See(), h, t, {h}, {}, {}, wide);
    }

    /** rt_thread_resume of a thread waiting in this list. */
    method ListWake(h: int, t: int)
      requires Valid() && h in q && h < DEFUNCT && t in q[h]
      modifies this`links, this`threads, this`index, this`q, this`at
      ensures Valid() && h in q && q[h] == Without(old(q)[h], t) && SameWaits(old(q), q, h, wide)
      ensures forall x :: x in q[h] <==> x in old(q)[h] && x != t
      ensures Freed(old(threads), old(at), threads, at, t) && threads[t].error == old(threads)[t].error
      ensures Urgent(old(q)[h], old(threads)) ==> Urgent(q[h], threads)
      ensures Frame(old(See()), See(), {h}, {}, {}, wide) && Roused(old(threads), threads, {t}, {})
    {
      hide Roused, Frame, ListsOk, ThreadsOk, AttrOf, Urgent, SameWaits, QueuesOk, Without;
      ghost var q0, at0, threads0 := q, at, threads;
      WaiterFacts(h);
      Wake(t, threads[t].error);
      WithoutElements(q0[h], t);
      FreedQueues(threads0, q0, at0, threads, q, at, h, t, threads0[t].error, wide);
      RousedOne(threads0, threads, t);
      FrameOne(old(See()), See(), h, t, {h}, {}, {}, wide);
    }

    /** The expiry of the timer of a thread waiting in this list. */
    method Expire(h: int, t: int)
      requires Valid() && h in q && h < DEFUNCT && t in at && at[t] == h && threads[t].armed
      modifies this`links, this`threads, this`index, this`q, this`at
      ensures Valid() && h in q && q[h] == Without(old(q)[h], t) && SameWaits(old(q), q, h, wide)
      ensures t in old(q)[h] && forall x :: x in q[h] <==> x in old(q)[h] && x != t
      ensures Freed(old(threads), old(at), threads, at, t) && threads[t].error == ETimeout
      ensures Urgent(old(q)[h], old(threads)) ==> Urgent(q[h], threads)
      ensures Frame(old(See()), See(), {h}, {t}, {}, wide) && Roused(old(threads), threads, {t}, {})
    {
      hide Roused, Frame, ListsOk, ThreadsOk, AttrOf, Urgent, SameWaits, QueuesOk, Without;
      ghost var q0, at0, threads0 := q, at, threads;
      WaiterFacts(h);
      Timeout(t);
      WithoutElements(q0[h], t);
      FreedQueues(threads0, q0, at0, threads, q, at, h, t, ETimeout, wide);
      RousedOne(threads0, threads, t);
      FrameOne(old(See()), See(), h, t, {h}, {t}, {}, wide);
    }

    /** rt_ipc_list_resume_all: everyone wakes, in order, with an error. */
    method ListResumeAll(h: int)
      requires Valid() && h in q && h < DEFUNCT
      modifies this`links, this`threads, this`index, this`q, this`at
      ensures Valid() && h in q && q[h] == []
      ensures AllWoken(old(q)[h], old(threads), threads) && SameWaits(old(q), q, h, wide) && SamePlaces(old(q)[h], old(at), at)
      ensures Frame(old(See()), See(), {h}, Members(old(q)[h]), {}, wide) && Roused(old(threads), threads, Members(old(q)[h]), {})
    {
      hide ListsOk, ThreadsOk, Leave, Join, Resuming, Woken, Sleepers, Frame, Roused, Members, AllWoken, SameWaits, SamePlaces;
      ghost var s, threads0, q0, at0 := q[h], threads, q, at;
      WaiterFacts(h);
      Asleep(h);
      Known();
      AllStart(s, threads, q, h, wide, at);
      WaitHead(h);
      while links.next[h] != h
        invariant Valid() && h in q && h in links.next && Sleepers(h)
        invariant links.next[h] == h <==> q[h] == []
        invariant q[h] != [] ==> links.next[h] == q[h][0]
        invariant Resuming(s, h, threads0, threads, q0, q, at0, at, wide)
        decreases |q[h]|
      {
        ghost var threads1, q1, at1 := threads, q, at;
        var t := links.next[h];
        SleeperFacts(h);
        StatOf(t);
        Wake(t, EError);
        AllMore(s, h, threads0, threads1, threads, q0, q1, q, at0, at1, at, t, wide);
        StillSleepers(threads1, q1, at1, threads, q, h, t);
        WaitHead(h);
      }
      AllDone(s, h, threads0, threads, q0, q, at0, at, wide);
      FrameAll(old(See()), See(), h, s, wide);
      Known();
      assert at.Keys == at0.Keys by { KeysKept(s, at0, at); }
      RousedAll(s, threads0, threads);
    }

    lemma StillSleepers(threads1: map<int, Thread>, q1: map<int, seq<int>>, at1: map<int, int>,
                        threads2: map<int, Thread>, q2: map<int, seq<int>>, h: int, t: int)
      requires h in q1 && q1[h] != [] && t == q1[h][0] && Distinct(q1[h]) && q == q2 && threads == threads2
      requires forall x :: x in q1[h] ==> x in threads1 && threads1[x].stat == Stat.Suspend
      requires h in q2 && q2[h] == q1[h][1..] && forall x :: x in threads1 && x != t ==> x in threads2 && threads2[x] == threads1[x]
      ensures Sleepers(h)
    {
    }
  }

  lemma RemoveFields(links: Links, t: int)
    requires Has(links, t)
    ensures t in links.next && t in links.prev
  {
  }

  lemma InBusy(links: Links, q: map<int, seq<int>>, at: map<int, int>, t: int, p: nat, wide: bool)
    requires QueuesOk(links, q, at) && t in at && at[t] == ReadyHead(p) && p < Limit(wide) && 0 < t
    ensures p in Busy(q, wide)
  {
    InQueues(links, q, at, t);
  }

  lemma BusyMeans(q: map<int, seq<int>>, wide: bool, p: nat)
    requires p in Busy(q, wide)
    ensures p < Limit(wide) && ReadyHead(p) in q && q[ReadyHead(p)] != []
  {
  }

  lemma HeadAbsent(threads: map<int, Thread>, at: map<int, int>, wide: bool, h: int)
    requires ThreadsOk(threads, at, wide) && h < 0
    ensures h !in at
  {
  }

  lemma EmptyIndex(q: map<int, seq<int>>, wide: bool)
    requires forall g :: g in q ==> q[g] == []
    ensures Agrees(Index(0, seq(32, _ => 0)), wide, Busy(q, wide))
  {
    forall p: nat ensures !Bit(0, p) { ZeroBit(p); }
    assert Busy(q, wide) == {};
  }

  /** One thread went to the end of a list. */
  ghost predicate Moved(q: map<int, seq<int>>, at: map<int, int>, q2: map<int, seq<int>>, at2: map<int, int>, t: int, h: int) {
    && t in at && at2 == at[t := h]
    && var r := Leave(q, at, t); h in r && q2 == Join(r, h, |r[h]|, t)
  }

  /** One thread closed and went to the front of the defunct list. */
  ghost predicate Closed(threads: map<int, Thread>, q: map<int, seq<int>>, at: map<int, int>,
                         threads2: map<int, Thread>, q2: map<int, seq<int>>, at2: map<int, int>, t: int) {
    && t in at && t in threads && threads2 == threads[t := threads[t].(stat := Close, armed := false)]
    && at2 == at[t := DEFUNCT] && DEFUNCT in Leave(q, at, t) && q2 == Join(Leave(q, at, t), DEFUNCT, 0, t)
  }

  /** One suspended thread became READY, with this error code. */
  ghost predicate Woken(threads: map<int, Thread>, q: map<int, seq<int>>, at: map<int, int>,
                        threads2: map<int, Thread>, q2: map<int, seq<int>>, at2: map<int, int>, t: int, e: Error) {
    && t in threads && threads2 == threads[t := threads[t].(stat := Ready, armed := false, error := e)]
    && Moved(q, at, q2, at2, t, ReadyHead(threads[t].prio))
  }

  /** A running thread that yields in front of its list goes behind the others, whose order stays. */
  lemma YieldRotates(q: map<int, seq<int>>, at: map<int, int>, q2: map<int, seq<int>>, at2: map<int, int>, t: int, h: int)
    requires Moved(q, at, q2, at2, t, h) && at[t] == h && h in q && q[h] != [] && q[h][0] == t
    ensures h in q2 && q2[h] == q[h][1..] + [t] && forall g :: g in q && g != h ==> g in q2 && q2[g] == q[g]
  {
    FirstOut(q[h]);
    var s := q[h][1..];
    assert InsertedAt(s, |s|, t) == s + [t];
  }

  // ---- order in a suspend list ----

  /** Number of leading threads that are at least as urgent as p. */
  ghost function Place(s: seq<int>, threads: map<int, Thread>, p: nat): (r: nat)
    ensures r <= |s|
  {
    if s != [] && s[0] in threads && threads[s[0]].prio <= p then 1 + Place(s[1..], threads, p) else 0
  }

  lemma {:induction false} PlaceMeans(s: seq<int>, threads: map<int, Thread>, p: nat)
    ensures var r := Place(s, threads, p);
            && (forall i :: 0 <= i < r ==> s[i] in threads && threads[s[i]].prio <= p)
            && (r < |s| && s[r] in threads ==> p < threads[s[r]].prio)
  {
    if s != [] {
      PlaceMeans(s[1..], threads, p);
      assert forall i :: 1 <= i < |s| ==> s[i] == s[1..][i - 1];
    }
  }

  lemma {:induction false} PlaceSame(s: seq<int>, a: map<int, Thread>, b: map<int, Thread>, t: int, p: nat)
    requires t in a && t in b && b == a[t := b[t]] && a[t].prio == b[t].prio
    ensures Place(s, a, p) == Place(s, b, p)
  {
    if s != [] { PlaceSame(s[1..], a, b, t, p); }
  }

  /** A list that t has joined: before the first less urgent thread, or at the end. */
  ghost function Enqueued(s: seq<int>, threads: map<int, Thread>, t: int, byPriority: bool): seq<int>
    requires t in threads
  {
    if byPriority then InsertedAt(s, Place(s, threads, threads[t].prio), t) else s + [t]
  }

  /** Only priorities matter to the place. */
  lemma EnqueuedSame(s: seq<int>, a: map<int, Thread>, b: map<int, Thread>, t: int, byPriority: bool)
    requires t in a && t in b && a[t].prio == b[t].prio
    requires forall x :: x in s ==> x in a && x in b && a[x].prio == b[x].prio
    ensures Enqueued(s, a, t, byPriority) == Enqueued(s, b, t, byPriority)
  {
    PlaceFrame(s, a, b, a[t].prio);
  }

  lemma {:induction false} PlaceFrame(s: seq<int>, a: map<int, Thread>, b: map<int, Thread>, p: nat)
    requires forall x :: x in s ==> x in a && x in b && a[x].prio == b[x].prio
    ensures Place(s, a, p) == Place(s, b, p)
  {
    if s != [] {
      var x := s[0];
      assert x in s && x in a && x in b && a[x].prio == b[x].prio;
      forall y | y in s[1..] ensures y in a && y in b && a[y].prio == b[y].prio { assert y in s; }
      PlaceFrame(s[1..], a, b, p);
    }
  }

  ghost predicate AsUrgent(threads: map<int, Thread>, a: int, b: int) {
    a in threads && b in threads && threads[a].prio <= threads[b].prio
  }

  /** More urgent threads first. */
  ghost predicate Urgent(s: seq<int>, threads: map<int, Thread>) {
    && (forall i :: 0 <= i < |s| ==> s[i] in threads)
    && (forall i, j :: 0 <= i < j < |s| ==> AsUrgent(threads, s[i], s[j]))
  }

  /** In an ordered list everyone from Place on is strictly less urgent. */
  lemma PlaceSplits(s: seq<int>, threads: map<int, Thread>, p: nat)
    requires Urgent(s, threads)
    ensures var r := Place(s, threads, p);
            && (forall i :: 0 <= i < r ==> threads[s[i]].prio <= p)
            && (forall i :: r <= i < |s| ==> p < threads[s[i]].prio)
  {
    PlaceMeans(s, threads, p);
    var r := Place(s, threads, p);
    forall i | r <= i < |s| ensures p < threads[s[i]].prio {
      assert i == r || AsUrgent(threads, s[r], s[i]);
    }
  }

  /** Insertion keeps the order. By PlaceSplits equals stay in the order of arrival. */
  lemma PlaceUrgent(s: seq<int>, threads: map<int, Thread>, t: int)
    requires Urgent(s, threads) && t in threads
    ensures Urgent(InsertedAt(s, Place(s, threads, threads[t].prio), t), threads)
  {
    hide AsUrgent;
    var r := Place(s, threads, threads[t].prio);
    PlaceSplits(s, threads, threads[t].prio);
    var u := InsertedAt(s, r, t);
    forall i, j | 0 <= i < j < |u| ensures AsUrgent(threads, u[i], u[j]) {
      var a, b := if i < r then i else i - 1, if j < r then j else j - 1;
      if i != r && j != r { assert AsUrgent(threads, s[a], s[b]); }
      else if i == r { NextUrgent(threads, t, s[b]); }
      else { NextUrgent(threads, s[a], t); }
    }
  }

  lemma NextUrgent(threads: map<int, Thread>, a: int, b: int)
    requires a in threads && b in threads && threads[a].prio <= threads[b].prio
    ensures AsUrgent(threads, a, b)
  {
  }

  /** Removing a thread keeps the order. */
  lemma WithoutUrgent(s: seq<int>, threads: map<int, Thread>, t: int)
    requires Urgent(s, threads) && Distinct(s)
    ensures Urgent(Without(s, t), threads)
  {
    hide AsUrgent, Without;
    if t in s {
      var i :| 0 <= i < |s| && s[i] == t;
      WithoutIndex(s, i);
      var d := Dropped(s, i);
      forall a, b | 0 <= a < b < |d| ensures AsUrgent(threads, d[a], d[b]) {
        assert d[a] == s[if a < i then a else a + 1] && d[b] == s[if b < i then b else b + 1];
      }
    }
  }

  /** t left its list and joined the suspend list h where the flag puts it. */
  ghost predicate Suspended(q: map<int, seq<int>>, at: map<int, int>, threads: map<int, Thread>, q2: map<int, seq<int>>,
                            h: int, t: int, byPriority: bool) {
    t in at && t in threads && h in q && h in Leave(q, at, t) && Leave(q, at, t)[h] == q[h] &&
    q2 == Join(Leave(q, at, t), h, if byPriority then Place(q[h], threads, threads[t].prio) else |q[h]|, t)
  }

  lemma LeaveOther(q: map<int, seq<int>>, at: map<int, int>, t: int, h: int)
    requires t in at && at[t] != h && h in q
    ensures h in Leave(q, at, t) && Leave(q, at, t)[h] == q[h]
  {
  }

  lemma WaitPlace(threads: map<int, Thread>, at: map<int, int>, wide: bool, t: int, h: int)
    requires ThreadsOk(threads, at, wide) && t in at && threads[t].stat == Stat.Suspend && h < DEFUNCT
    ensures ThreadsOk(threads, at[t := h], wide)
  {
    ThreadChange(threads, at, wide, t, threads[t], h);
    assert threads[t := threads[t]] == threads;
  }

  lemma HeadStep(links: Links, q: map<int, seq<int>>, at: map<int, int>, h: int, i: nat)
    requires QueuesOk(links, q, at) && h in q && i <= |q[h]|
    ensures ([h] + q[h])[i] in links.next && links.next[([h] + q[h])[i]] == if i < |q[h]| then q[h][i] else h
    ensures i < |q[h]| ==> q[h][i] in at && at[q[h][i]] == h && q[h][i] != h
  {
    hide Ring;
    Steps(links, [h] + q[h], i);
    assert InList(q[h], h, at);
  }

  /** rt_list_remove followed by rt_list_insert_before the head of the same ready list. */
  lemma Requeue(links: Links, q: map<int, seq<int>>, at: map<int, int>, index: Index, wide: bool, t: int, p: nat)
    requires ListsOk(links, q, at, index, wide) && t in at && at[t] == ReadyHead(p) && p < Limit(wide)
    requires at[t] in q && |q[at[t]]| >= 2
    ensures var h := ReadyHead(p);
            && Has(links, t) && h in Remove(links, t).prev && h in Leave(q, at, t)
            && ListsOk(InsertBefore(Remove(links, t), h, t), Join(Leave(q, at, t), h, |Leave(q, at, t)[h]|, t), at[t := h], index, wide)
  {
    hide QueuesOk, Busy, Remove, InsertBefore, Agrees, InsertedAt, Without, Ring;
    var h, r := ReadyHead(p), Leave(q, at, t);
    InQueues(links, q, at, t);
    LeaveOk(links, q, at, t);
    JoinBefore(Remove(links, t), r, at[t := t], h, |r[h]|, t);
    assert at[t := t][t := h] == at[t := h];
    BusyAgain(q, at, t, wide);
  }

  lemma BusyAgain(q: map<int, seq<int>>, at: map<int, int>, t: int, wide: bool)
    requires t in at && at[t] in q && q[at[t]] != []
    ensures var r := Leave(q, at, t); Busy(Join(r, at[t], |r[at[t]]|, t), wide) == Busy(q, wide)
  {
    hide Without;
  }

  /** next and prev of a node differ exactly when its list has another member. */
  lemma Crowded(links: Links, q: map<int, seq<int>>, at: map<int, int>, index: Index, wide: bool, t: int)
    requires ListsOk(links, q, at, index, wide) && t in at && at[t] != t
    ensures t in links.next && t in links.prev && at[t] in q
    ensures links.next[t] != links.prev[t] <==> |q[at[t]]| >= 2
  {
    hide Agrees, Busy;
    var h := at[t];
    var s := q[h];
    var i :| 0 <= i < |s| && s[i] == t;
    var r := [h] + s;
    assert r[i + 1] == t;
    Steps(links, r, i + 1);
    assert Distinct(r);
  }

  lemma JoinDefunct(links: Links, q: map<int, seq<int>>, at: map<int, int>, index: Index, wide: bool, t: int)
    requires ListsOk(links, q, at, index, wide) && t in at && at[t] == t
    ensures DEFUNCT in q && DEFUNCT in links.next
    ensures ListsOk(InsertAfter(links, DEFUNCT, t), Join(q, DEFUNCT, 0, t), at[t := DEFUNCT], index, wide)
  {
    hide QueuesOk, Busy, InsertAfter, Agrees, InsertedAt;
    JoinAfter(links, q, at, DEFUNCT, 0, t);
    BusyJoin(q, DEFUNCT, 0, t, wide);
  }

  /** What suspending a READY thread means for the suspend lists. */
  lemma SuspendedQueues(q: map<int, seq<int>>, at: map<int, int>, threads: map<int, Thread>, q2: map<int, seq<int>>,
                        h: int, t: int, byPriority: bool, wide: bool)
    requires Suspended(q, at, threads, q2, h, t, byPriority) && IsReadyHead(at[t], wide)
    ensures var i := if byPriority then Place(q[h], threads, threads[t].prio) else |q[h]|;
            h in q2 && q2[h] == InsertedAt(q[h], i, t) && (!byPriority ==> q2[h] == q[h] + [t])
    ensures forall x :: x in q2[h] <==> x in q[h] || x == t
    ensures SameWaits(q, q2, h, wide)
  {
    hide Without, Place;
    InsertedElements(q[h], if byPriority then Place(q[h], threads, threads[t].prio) else |q[h]|, t);
  }

  /** The order of a suspend list survives a change of control blocks that keeps the priorities. */
  lemma UrgentSame(s: seq<int>, threads: map<int, Thread>, threads2: map<int, Thread>)
    requires Urgent(s, threads) && forall t :: t in s && t in threads ==> t in threads2 && threads2[t].prio == threads[t].prio
    ensures Urgent(s, threads2)
  {
    forall i, j | 0 <= i < j < |s| ensures AsUrgent(threads2, s[i], s[j]) { assert AsUrgent(threads, s[i], s[j]); }
  }

  /** A member of an ordered list changes its priority, which does not move it: the order survives
      exactly between the priorities of its neighbours. */
  lemma OrderSurvives(s: seq<int>, threads: map<int, Thread>, threads2: map<int, Thread>, i: nat)
    requires Urgent(s, threads) && Distinct(s) && i < |s| && s[i] in threads2 && threads2 == threads[s[i] := threads2[s[i]]]
    ensures var p := threads2[s[i]].prio;
            Urgent(s, threads2) <==> (i > 0 ==> threads[s[i - 1]].prio <= p) && (i + 1 < |s| ==> p <= threads[s[i + 1]].prio)
  {
    var p := threads2[s[i]].prio;
    if Urgent(s, threads2) {
      if i > 0 { assert AsUrgent(threads2, s[i - 1], s[i]); }
      if i + 1 < |s| { assert AsUrgent(threads2, s[i], s[i + 1]); }
    } else if (i > 0 ==> threads[s[i - 1]].prio <= p) && (i + 1 < |s| ==> p <= threads[s[i + 1]].prio) {
      forall a, b | 0 <= a < b < |s| ensures AsUrgent(threads2, s[a], s[b]) {
        assert AsUrgent(threads, s[a], s[b]);
        if a == i { assert b == i + 1 || AsUrgent(threads, s[i + 1], s[b]); }
        if b == i { assert a == i - 1 || AsUrgent(threads, s[a], s[i - 1]); }
      }
      assert Urgent(s, threads2);
    }
  }

  /** t, and nobody else, became READY with its timer off; its error code is stated apart. */
  ghost predicate Freed(threads: map<int, Thread>, at: map<int, int>, threads2: map<int, Thread>, at2: map<int, int>, t: int) {
    && t in threads && t in threads2 && t in at
    && threads2 == threads[t := threads[t].(stat := Ready, armed := false, error := threads2[t].error)]
    && at2 == at[t := ReadyHead(threads[t].prio)]
  }

  lemma FreedQueues(threads: map<int, Thread>, q: map<int, seq<int>>, at: map<int, int>,
                    threads2: map<int, Thread>, q2: map<int, seq<int>>, at2: map<int, int>, h: int, t: int, e: Error, wide: bool)
    requires Woken(threads, q, at, threads2, q2, at2, t, e) && threads[t].prio < Limit(wide) && h in q
    requires at[t] == h && h < DEFUNCT && t in q[h] && Distinct(q[h])
    ensures Freed(threads, at, threads2, at2, t) && threads2[t].error == e
    ensures h in q2 && q2[h] == Without(q[h], t) && SameWaits(q, q2, h, wide)
    ensures t == q[h][0] ==> q2[h] == q[h][1..]
    ensures Urgent(q[h], threads) ==> Urgent(q2[h], threads2)
  {
    hide Without, Leave, Join, Urgent, SameWaits;
    WokenQueues(threads, q, at, threads2, q2, at2, t, e, wide);
    WithoutElements(q[h], t);
    FirstOut(q[h]);
    if Urgent(q[h], threads) {
      WithoutUrgent(q[h], threads, t);
      UrgentSame(q2[h], threads, threads2);
    }
  }

  lemma FirstOut(s: seq<int>)
    ensures s != [] ==> Without(s, s[0]) == s[1..]
  {
  }

  /** No suspend list changed. */
  ghost predicate OtherWaits(q: map<int, seq<int>>, q2: map<int, seq<int>>, wide: bool) {
    forall g :: g in q && !IsReadyHead(g, wide) ==> g in q2 && q2[g] == q[g]
  }

  lemma SameOther(q: map<int, seq<int>>, wide: bool)
    ensures OtherWaits(q, q, wide)
  {
  }

  lemma MovedIs(q: map<int, seq<int>>, at: map<int, int>, q2: map<int, seq<int>>, at2: map<int, int>, t: int, h: int)
    requires t in at && at2 == at[t := t][t := h] && h in Leave(q, at, t)
    requires q2 == Join(Leave(q, at, t), h, |Leave(q, at, t)[h]|, t)
    ensures Moved(q, at, q2, at2, t, h)
  {
    hide Leave, Join;
  }

  lemma MovedOther(q: map<int, seq<int>>, at: map<int, int>, q2: map<int, seq<int>>, at2: map<int, int>, t: int, h: int, wide: bool)
    requires Moved(q, at, q2, at2, t, h) && IsReadyHead(h, wide) && IsReadyHead(at[t], wide)
    ensures OtherWaits(q, q2, wide)
  {
    hide Without, InsertedAt;
  }

  // ---- waking a whole list ----

  ghost predicate AllWoken(s: seq<int>, threads: map<int, Thread>, threads2: map<int, Thread>) {
    && (forall t :: t in threads && t !in s ==> t in threads2 && threads2[t] == threads[t])
    && (forall t :: t in threads && t in s ==> t in threads2 && threads2[t] == threads[t].(stat := Ready, armed := false, error := EError))
  }

  /** No other suspend list changed. */
  ghost predicate SameWaits(q: map<int, seq<int>>, q2: map<int, seq<int>>, h: int, wide: bool) {
    forall g :: g in q && g != h && !IsReadyHead(g, wide) ==> g in q2 && q2[g] == q[g]
  }

  /** Nobody else changed lists. */
  ghost predicate SamePlaces(s: seq<int>, at: map<int, int>, at2: map<int, int>) {
    && (forall t :: t in at <==> t in at2)
    && (forall t :: t in at && t !in s ==> at2[t] == at[t])
  }

  lemma KeysKept(s: seq<int>, at: map<int, int>, at2: map<int, int>)
    requires SamePlaces(s, at, at2)
    ensures at2.Keys == at.Keys
  {
    forall t ensures t in at2.Keys <==> t in at.Keys { assert t in at <==> t in at2; }
  }

  /** Midway through a list: what is left of it, and the effect on those already woken. */
  ghost predicate Resuming(s: seq<int>, h: int, threads0: map<int, Thread>, threads: map<int, Thread>,
                           q0: map<int, seq<int>>, q: map<int, seq<int>>, at0: map<int, int>, at: map<int, int>, wide: bool) {
    && Distinct(s) && h in q && |q[h]| <= |s| && q[h] == s[|s| - |q[h]|..]
    && AllWoken(s[..|s| - |q[h]|], threads0, threads) && SameWaits(q0, q, h, wide) && SamePlaces(s[..|s| - |q[h]|], at0, at)
  }

  lemma AllStart(s: seq<int>, threads: map<int, Thread>, q: map<int, seq<int>>, h: int, wide: bool, at: map<int, int>)
    requires h in q && s == q[h] && Distinct(s)
    ensures Resuming(s, h, threads, threads, q, q, at, at, wide)
  {
  }

  lemma AllDone(s: seq<int>, h: int, threads0: map<int, Thread>, threads: map<int, Thread>,
                q0: map<int, seq<int>>, q: map<int, seq<int>>, at0: map<int, int>, at: map<int, int>, wide: bool)
    requires Resuming(s, h, threads0, threads, q0, q, at0, at, wide) && q[h] == []
    ensures AllWoken(s, threads0, threads) && SameWaits(q0, q, h, wide) && SamePlaces(s, at0, at)
  {
    assert s[..|s|] == s;
  }

  /** What waking one member of a suspend list means for the lists. */
  lemma WokenQueues(threads: map<int, Thread>, q: map<int, seq<int>>, at: map<int, int>,
                    threads2: map<int, Thread>, q2: map<int, seq<int>>, at2: map<int, int>, t: int, e: Error, wide: bool)
    requires Woken(threads, q, at, threads2, q2, at2, t, e) && threads[t].prio < Limit(wide)
    requires at[t] in q && !IsReadyHead(at[t], wide)
    ensures at[t] in q2 && q2[at[t]] == Without(q[at[t]], t)
    ensures SameWaits(q, q2, at[t], wide)
  {
    hide Without, InsertedAt;
  }

  lemma AllMore(s: seq<int>, h: int, threads0: map<int, Thread>, threads1: map<int, Thread>, threads2: map<int, Thread>,
                q0: map<int, seq<int>>, q1: map<int, seq<int>>, q2: map<int, seq<int>>,
                at0: map<int, int>, at1: map<int, int>, at2: map<int, int>, t: int, wide: bool)
    requires Resuming(s, h, threads0, threads1, q0, q1, at0, at1, wide) && q1[h] != [] && t == q1[h][0]
    requires Woken(threads1, q1, at1, threads2, q2, at2, t, EError) && threads1[t].prio < Limit(wide) && at1[t] == h
    requires !IsReadyHead(h, wide)
    ensures h in q2 && q2[h] == q1[h][1..] && forall x :: x in threads1 && x != t ==> x in threads2 && threads2[x] == threads1[x]
    ensures Resuming(s, h, threads0, threads2, q0, q2, at0, at2, wide)
  {
    hide Leave, Join, AllWoken, SameWaits, SamePlaces;
    WokenQueues(threads1, q1, at1, threads2, q2, at2, t, EError, wide);
    var k := |s| - |q1[h]|;
    assert Without(q1[h], t) == q1[h][1..];
    assert t == s[k] && s[..k + 1] == s[..k] + [t] && q1[h][1..] == s[k + 1..];
    WokenMore(s[..k], threads0, threads1, threads2, t);
    WaitsMore(q0, q1, q2, h, wide);
    PlacesMore(s[..k], at0, at1, at2, t, ReadyHead(threads1[t].prio));
  }

  lemma WokenMore(s: seq<int>, threads0: map<int, Thread>, threads1: map<int, Thread>, threads2: map<int, Thread>, t: int)
    requires AllWoken(s, threads0, threads1) && t !in s && t in threads1
    requires threads2 == threads1[t := threads1[t].(stat := Ready, armed := false, error := EError)]
    ensures AllWoken(s + [t], threads0, threads2)
  {
  }

  lemma WaitsMore(q0: map<int, seq<int>>, q1: map<int, seq<int>>, q2: map<int, seq<int>>, h: int, wide: bool)
    requires SameWaits(q0, q1, h, wide) && SameWaits(q1, q2, h, wide)
    ensures SameWaits(q0, q2, h, wide)
  {
  }

  lemma PlacesMore(s: seq<int>, at0: map<int, int>, at1: map<int, int>, at2: map<int, int>, t: int, h: int)
    requires SamePlaces(s, at0, at1) && t in at1 && at2 == at1[t := h]
    ensures SamePlaces(s + [t], at0, at2)
  {
  }
}
