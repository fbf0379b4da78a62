/** Any number of semaphores, mutexes, events, mailboxes and message queues on one kernel, used by any
    threads in any order: each keeps its invariant, and its order, through the steps of all the others. */
module Systems {
  import opened RtList
  import opened Queues
  import opened ReadyIndex
  import opened Kernel
  import opened Waits
  import opened Semaphores
  import opened Mutexes
  import opened Events
  import opened Mailboxes
  import opened MsgQueues

  /** Whose suspend list a head is, in which object's call a thread blocked and has not returned, and
      whose ring an array is. */
  datatype Roles = Roles(lists: map<int, object>, calls: map<int, object>, rings: map<object, object>)

  ghost predicate Owns(r: Roles, o: object, heads: set<int>, calls: set<int>) {
    && (forall h :: h in heads ==> h < DEFUNCT && h in r.lists && r.lists[h] == o)
    && (forall t :: t in calls ==> t in r.calls && r.calls[t] == o)
  }

  ghost predicate SemFits(s: Semaphore, k: Kernel, v: View, r: Roles)
    reads s
  {
    s.kernel == k && s.Fits(v) && Owns(r, s, {s.head}, s.fate.Keys)
  }

  ghost predicate MutexFits(m: Mutex, k: Kernel, v: View, r: Roles)
    reads m
  {
    m.kernel == k && m.Fits(v) && Owns(r, m, {m.head}, m.fate.Keys)
  }

  ghost predicate EventFits(e: Event, k: Kernel, v: View, r: Roles)
    reads e
  {
    e.kernel == k && e.Fits(v) && Owns(r, e, {e.head}, e.fate.Keys)
  }

  ghost predicate BoxFits(b: Mailbox, k: Kernel, v: View, r: Roles)
    reads b, b.pool
  {
    b.kernel == k && b.Fits(v) && Owns(r, b, b.Heads(), b.receivers.Keys + b.senders.Keys)
  }

  ghost predicate QueueFits(m: MessageQueue, k: Kernel, v: View, r: Roles)
    reads m
  {
    m.kernel == k && m.Fits(v) && Owns(r, m, {m.recvHead}, m.receivers.Keys)
  }

  /** The object and its ring. */
  function Parts(x: object): (s: set<object>)
    ensures x in s
  {
    if x is Mailbox then {x, (x as Mailbox).pool} else {x}
  }

  /** The invariant of whatever object this is, with the kernel as in v, on lists and threads of its own. */
  ghost predicate Fits(x: object, k: Kernel, v: View, r: Roles)
    reads Parts(x)
  {
    && (x is Semaphore ==> SemFits(x as Semaphore, k, v, r))
    && (x is Mutex ==> MutexFits(x as Mutex, k, v, r))
    && (x is Event ==> EventFits(x as Event, k, v, r))
    && (x is Mailbox ==> BoxFits(x as Mailbox, k, v, r))
    && (x is MessageQueue ==> QueueFits(x as MessageQueue, k, v, r))
  }

  /** Its waiters stand in order of priority, and an owner leads them, if it was made with RT_IPC_FLAG_PRIO. */
  ghost predicate Tidy(x: object, v: View)
    reads x
  {
    && (x is Semaphore ==> (x as Semaphore).head in v.q && (x as Semaphore).OrderedIn(v))
    && (x is Mutex ==> (x as Mutex).head in v.q && ((x as Mutex).byPriority ==> (x as Mutex).InheritsIn(v)))
    && (x is Event ==> (x as Event).head in v.q && (x as Event).OrderedIn(v))
    && (x is Mailbox ==> (x as Mailbox).recvHead in v.q && (x as Mailbox).sendHead in v.q && (x as Mailbox).OrderedIn(v))
    && (x is MessageQueue ==> (x as MessageQueue).recvHead in v.q && (x as MessageQueue).OrderedIn(v))
  }

  /** None of these threads waits for it or owns it. */
  ghost predicate Apart(x: object, v: View, raised: set<int>)
    reads x
  {
    && (x is Semaphore ==> Away(v, (x as Semaphore).head, raised))
    && (x is Mutex ==> Away(v, (x as Mutex).head, raised) && (x as Mutex).owner !in raised)
    && (x is Event ==> Away(v, (x as Event).head, raised))
    && (x is Mailbox ==> Away(v, (x as Mailbox).recvHead, raised) && Away(v, (x as Mailbox).sendHead, raised))
    && (x is MessageQueue ==> Away(v, (x as MessageQueue).recvHead, raised))
  }

  ghost predicate Away(v: View, h: int, raised: set<int>) {
    h in v.q ==> raised !! Members(v.q[h])
  }

  /** The calls of o change, those of the other objects do not. */
  ghost function Calling(r: Roles, o: object, calls: set<int>, calls2: set<int>): Roles {
    r.(calls := map t | t in r.calls.Keys - calls + calls2 :: if t in calls2 then o else r.calls[t])
  }

  /** A new object with its lists and its ring. */
  ghost function Enlisted(r: Roles, x: object, g: int, h: int): Roles {
    r.(lists := r.lists[g := x][h := x], rings := if x is Mailbox then r.rings[(x as Mailbox).pool := x] else r.rings)
  }

  /** A step of me, on its own lists, by threads that are in no call of another object. */
  ghost predicate StepOf(me: object?, v: View, w: View, r: Roles, r2: Roles, heads: set<int>, who: set<int>, raised: set<int>, wide: bool) {
    && Frame(v, w, heads, who, raised, wide) && r2.lists == r.lists && r2.rings == r.rings
    && (forall h :: h in heads && h < DEFUNCT ==> h in r.lists && r.lists[h] == me)
    && (forall t :: t in who && t in r.calls ==> r.calls[t] == me)
    && (forall t :: t in r.calls && r.calls[t] != me ==> t in r2.calls && r2.calls[t] == r.calls[t])
  }

  /** These threads are in no call of another object. */
  ghost predicate Unclaimed(r: Roles, calls: set<int>, s: set<int>) {
    forall t :: t in s ==> t in calls || t !in r.calls
  }

  /** At most one thread enters, and has its control block changed. */
  lemma OneEnters(r: Roles, calls: set<int>, calls2: set<int>, t: int)
    requires calls2 <= calls + {t} && (t in calls || t !in r.calls)
    ensures Unclaimed(r, calls, {t}) && Unclaimed(r, calls, calls2)
  {
  }

  lemma NobodyEnters(r: Roles, calls: set<int>, calls2: set<int>, who: set<int>)
    requires calls2 <= calls && who <= calls
    ensures Unclaimed(r, calls, who) && Unclaimed(r, calls, calls2)
  {
  }

  lemma StepMade(me: object, v: View, w: View, r: Roles, own: set<int>, calls: set<int>, calls2: set<int>,
                 who: set<int>, raised: set<int>, wide: bool)
    requires Frame(v, w, own, who, raised, wide) && Owns(r, me, own, calls)
    requires Unclaimed(r, calls, who) && Unclaimed(r, calls, calls2)
    ensures StepOf(me, v, w, r, Calling(r, me, calls, calls2), own, who, raised, wide) && Owns(Calling(r, me, calls, calls2), me, own, calls2)
  {
    hide Frame;
  }

  lemma OwnsKept(o: object, own: set<int>, calls: set<int>, me: object?, v: View, w: View, r: Roles, r2: Roles,
                 heads: set<int>, who: set<int>, raised: set<int>, wide: bool)
    requires StepOf(me, v, w, r, r2, heads, who, raised, wide) && o != me && Owns(r, o, own, calls)
    ensures Owns(r2, o, own, calls) && own !! heads && who !! calls
    ensures Frame(v, w, heads, who, raised, wide)
  {
    hide Frame;
    forall h | h in own ensures h !in heads { assert r.lists[h] == o; }
    forall t | t in calls ensures t !in who { assert r.calls[t] == o; }
  }

  lemma SemKept(s: Semaphore, k: Kernel, me: object?, v: View, r: Roles, r2: Roles, heads: set<int>, who: set<int>, raised: set<int>)
    requires k.Valid() && StepOf(me, v, k.See(), r, r2, heads, who, raised, k.wide) && s != me && SemFits(s, k, v, r)
    ensures SemFits(s, k, k.See(), r2) && (Apart(s, v, raised) && Tidy(s, v) ==> Tidy(s, k.See()))
  {
    hide Frame, ListsOk, ThreadsOk, FatesOk, Urgent, Owns, StepOf, Members, Handed;
    OwnsKept(s, {s.head}, s.fate.Keys, me, v, k.See(), r, r2, heads, who, raised, k.wide);
    s.Elsewhere(v, heads, who, raised);
  }

  lemma MutexKept(m: Mutex, k: Kernel, me: object?, v: View, r: Roles, r2: Roles, heads: set<int>, who: set<int>, raised: set<int>)
    requires k.Valid() && StepOf(me, v, k.See(), r, r2, heads, who, raised, k.wide) && m != me && MutexFits(m, k, v, r)
    ensures MutexFits(m, k, k.See(), r2) && (Apart(m, v, raised) && Tidy(m, v) ==> Tidy(m, k.See()))
  {
    hide Frame, ListsOk, ThreadsOk, FatesOk, Urgent, Owns, StepOf, Members, OwnerOk, Leads;
    OwnsKept(m, {m.head}, m.fate.Keys, me, v, k.See(), r, r2, heads, who, raised, k.wide);
    m.Elsewhere(v, heads, who, raised);
  }

  lemma EventKept(e: Event, k: Kernel, me: object?, v: View, r: Roles, r2: Roles, heads: set<int>, who: set<int>, raised: set<int>)
    requires k.Valid() && StepOf(me, v, k.See(), r, r2, heads, who, raised, k.wide) && e != me && EventFits(e, k, v, r)
    ensures EventFits(e, k, k.See(), r2) && (Apart(e, v, raised) && Tidy(e, v) ==> Tidy(e, k.See()))
  {
    hide Frame, ListsOk, ThreadsOk, FatesOk, Urgent, Owns, StepOf, Members, Quiet, GotOk;
    OwnsKept(e, {e.head}, e.fate.Keys, me, v, k.See(), r, r2, heads, who, raised, k.wide);
    e.Elsewhere(v, heads, who, raised);
  }

  lemma BoxKept(b: Mailbox, k: Kernel, me: object?, v: View, r: Roles, r2: Roles, heads: set<int>, who: set<int>, raised: set<int>)
    requires k.Valid() && StepOf(me, v, k.See(), r, r2, heads, who, raised, k.wide) && b != me && BoxFits(b, k, v, r)
    ensures BoxFits(b, k, k.See(), r2) && (Apart(b, v, raised) && Tidy(b, v) ==> Tidy(b, k.See()))
  {
    hide Frame, ListsOk, ThreadsOk, FatesOk, Urgent, Owns, StepOf, Members, RingOk, Handed;
    OwnsKept(b, b.Heads(), b.receivers.Keys + b.senders.Keys, me, v, k.See(), r, r2, heads, who, raised, k.wide);
    b.Elsewhere(v, heads, who, raised);
  }

  lemma QueueKept(m: MessageQueue, k: Kernel, me: object?, v: View, r: Roles, r2: Roles, heads: set<int>, who: set<int>, raised: set<int>)
    requires k.Valid() && StepOf(me, v, k.See(), r, r2, heads, who, raised, k.wide) && m != me && QueueFits(m, k, v, r)
    ensures QueueFits(m, k, k.See(), r2) && (Apart(m, v, raised) && Tidy(m, v) ==> Tidy(m, k.See()))
  {
    hide Frame, ListsOk, ThreadsOk, FatesOk, Urgent, Owns, StepOf, Members, Linkage, Handed;
    OwnsKept(m, {m.recvHead}, m.receivers.Keys, me, v, k.See(), r, r2, heads, who, raised, k.wide);
    m.Elsewhere(v, heads, who, raised);
  }

  /** A step elsewhere leaves every object in order. */
  lemma Kept(x: object, k: Kernel, me: object?, v: View, r: Roles, r2: Roles, heads: set<int>, who: set<int>, raised: set<int>)
    requires k.Valid() && StepOf(me, v, k.See(), r, r2, heads, who, raised, k.wide) && x != me && Fits(x, k, v, r)
    ensures Fits(x, k, k.See(), r2) && (Apart(x, v, raised) && Tidy(x, v) ==> Tidy(x, k.See()))
  {
    hide StepOf, ListsOk, ThreadsOk, SemFits, MutexFits, EventFits, BoxFits, QueueFits, Apart, Tidy;
    if x is Semaphore {
      SemKept(x as Semaphore, k, me, v, r, r2, heads, who, raised);
    } else if x is Mutex {
      MutexKept(x as Mutex, k, me, v, r, r2, heads, who, raised);
    } else if x is Event {
      EventKept(x as Event, k, me, v, r, r2, heads, who, raised);
    } else if x is Mailbox {
      BoxKept(x as Mailbox, k, me, v, r, r2, heads, who, raised);
    } else if x is MessageQueue {
      QueueKept(x as MessageQueue, k, me, v, r, r2, heads, who, raised);
    } else {
      Plain(x, k, k.See(), r2);
    }
  }

  ghost predicate InOrder(s: set<object>, k: Kernel, v: View, r: Roles)
    reads s
  {
    forall x :: x in s ==> Parts(x) <= s && Fits(x, k, v, r)
  }

  ghost predicate Sorted(s: set<object>, v: View)
    reads s
  {
    forall x :: x in s ==> Tidy(x, v)
  }

  /** No two mailboxes share a ring. */
  ghost predicate RingsOk(s: set<object>, r: Roles) {
    forall x :: x in s && x is Mailbox ==> (x as Mailbox).pool in s && (x as Mailbox).pool in r.rings && r.rings[(x as Mailbox).pool] == x
  }

  /** The ring of a new mailbox is new. */
  ghost predicate RingJoins(x: object, r: Roles, r2: Roles) {
    r2.rings == if x is Mailbox then r.rings[(x as Mailbox).pool := x] else r.rings
  }

  lemma RingsMore(x: object, was: set<object>, r: Roles, r2: Roles)
    requires RingsOk(was, r) && RingJoins(x, r, r2) && was !! Parts(x) && IsIpc(x)
    ensures RingsOk(was + Parts(x), r2)
  {
    forall y | y in was + Parts(x) && y is Mailbox
      ensures (y as Mailbox).pool in was + Parts(x) && (y as Mailbox).pool in r2.rings && r2.rings[(y as Mailbox).pool] == y
    {
      if y in was { assert (y as Mailbox).pool in was; }
    }
  }

  predicate IsIpc(x: object) {
    x is Semaphore || x is Mutex || x is Event || x is Mailbox || x is MessageQueue
  }

  lemma Plain(x: object, k: Kernel, v: View, r: Roles)
    requires !IsIpc(x)
    ensures Parts(x) == {x} && Fits(x, k, v, r) && Tidy(x, v)
  {
  }

  lemma PartsOf(x: object, k: Kernel, v: View, r: Roles)
    ensures forall y :: y in Parts(x) && y != x ==> !IsIpc(y) && Parts(y) == {y} && Fits(y, k, v, r) && Tidy(y, v)
  {
  }

  lemma NobodyRaised(x: object, v: View)
    ensures Apart(x, v, {})
  {
  }

  /** New lists and rings take nothing away. */
  lemma FitsMore(x: object, k: Kernel, v: View, r: Roles, r2: Roles)
    requires Fits(x, k, v, r) && r2.calls == r.calls && forall h :: h in r.lists ==> h in r2.lists && r2.lists[h] == r.lists[h]
    ensures Fits(x, k, v, r2)
  {
    hide Semaphore.Fits, Mutex.Fits, Event.Fits, Mailbox.Fits, MessageQueue.Fits;
  }

  lemma SemJoins(s: Semaphore, k: Kernel, v: View, r: Roles)
    requires s.kernel == k && s.Fits(v) && s.fate.Keys == {} && (forall h :: h in {s.head} ==> h < DEFUNCT && h in r.lists && r.lists[h] == s)
    ensures Fits(s, k, v, r) && (s.OrderedIn(v) ==> Tidy(s, v))
  {
    hide FatesOk, Urgent, Handed;
  }

  lemma MutexJoins(m: Mutex, k: Kernel, v: View, r: Roles)
    requires m.kernel == k && m.Fits(v) && m.fate.Keys == {} && (forall h :: h in {m.head} ==> h < DEFUNCT && h in r.lists && r.lists[h] == m)
    ensures Fits(m, k, v, r) && ((m.byPriority ==> m.InheritsIn(v)) ==> Tidy(m, v))
  {
    hide FatesOk, Urgent, OwnerOk, Leads;
  }

  lemma EventJoins(e: Event, k: Kernel, v: View, r: Roles)
    requires e.kernel == k && e.Fits(v) && e.fate.Keys == {} && (forall h :: h in {e.head} ==> h < DEFUNCT && h in r.lists && r.lists[h] == e)
    ensures Fits(e, k, v, r) && (e.OrderedIn(v) ==> Tidy(e, v))
  {
    hide FatesOk, Urgent, Quiet, GotOk;
  }

  lemma BoxJoins(b: Mailbox, k: Kernel, v: View, r: Roles)
    requires b.kernel == k && b.Fits(v) && b.receivers.Keys + b.senders.Keys == {}
    requires (forall h :: h in b.Heads() ==> h < DEFUNCT && h in r.lists && r.lists[h] == b)
    ensures Fits(b, k, v, r) && (b.OrderedIn(v) ==> Tidy(b, v))
  {
    hide FatesOk, Urgent, RingOk, Handed;
  }

  lemma QueueJoins(m: MessageQueue, k: Kernel, v: View, r: Roles)
    requires m.kernel == k && m.Fits(v) && m.receivers.Keys == {} && (forall h :: h in {m.recvHead} ==> h < DEFUNCT && h in r.lists && r.lists[h] == m)
    ensures Fits(m, k, v, r) && (m.OrderedIn(v) ==> Tidy(m, v))
  {
    hide FatesOk, Urgent, Linkage, Handed;
  }

  lemma ListStays(h: int, v: View, w: View, heads: set<int>, who: set<int>, raised: set<int>, wide: bool)
    requires Frame(v, w, heads, who, raised, wide) && h in v.q && h < DEFUNCT && h !in heads
    ensures h in w.q && w.q[h] == v.q[h]
  {
  }

  lemma OwnApart(r: Roles, o: object, heads: set<int>, calls: set<int>, p: object, heads2: set<int>, calls2: set<int>)
    requires Owns(r, o, heads, calls) && Owns(r, p, heads2, calls2) && o != p
    ensures heads !! heads2
  {
    forall h | h in heads ensures h !in heads2 { assert r.lists[h] == o; }
  }

  lemma SameCallers(r: Roles, o: object, calls: set<int>, calls2: set<int>, heads: set<int>)
    requires calls2 == calls && Owns(r, o, heads, calls)
    ensures Calling(r, o, calls, calls2).calls.Keys == r.calls.Keys
  {
    forall t | t in calls ensures t in r.calls { }
  }

  class System {
    const kernel: Kernel
    ghost var objects: set<object>   // and their rings
    ghost var roles: Roles

    /** All that is not mine is in order, the kernel and the roles being these. */
    ghost predicate Fit(mine: set<object>, v: View, r: Roles)
      reads this`objects, objects - mine
    {
      InOrder(objects - mine, kernel, v, r)
    }

    ghost predicate AllTidy(mine: set<object>, v: View)
      reads this`objects, objects - mine
    {
      Sorted(objects - mine, v)
    }

    /** None of these threads waits for anything that is not mine, or owns it. */
    ghost predicate AllApart(mine: set<object>, v: View, raised: set<int>)
      reads this`objects, objects - mine
    {
      forall x :: x in objects - mine ==> Apart(x, v, raised)
    }

    /** The thread waits for nothing but m, and owns no other mutex. */
    ghost predicate Alone(m: Mutex, t: int)
      reads this, kernel, objects - {m}
    {
      AllApart({m}, kernel.See(), {t})
    }

    ghost predicate Closed(r: Roles)
      reads this`objects
    {
      kernel !in objects && this !in objects && RingsOk(objects, r)
    }

    ghost predicate Valid()
      reads this, kernel, objects
    {
      kernel.Valid() && Fit({}, kernel.See(), roles) && Closed(roles)
    }

    ghost predicate Ordered()
      reads this, kernel, objects
    {
      AllTidy({}, kernel.See())
    }

    constructor (kernel: Kernel)
      requires kernel.Valid()
      ensures Valid() && Ordered() && this.kernel == kernel && objects == {} && roles == Roles(map[], map[], map[])
    {
      this.kernel, objects, roles := kernel, {}, Roles(map[], map[], map[]);
    }

    /** Whatever one object or thread does, all the others stay in order. */
    lemma Others(me: object?, mine: set<object>, v: View, r: Roles, heads: set<int>, who: set<int>, raised: set<int>)
      requires Fit(mine, v, r) && kernel.Valid() && StepOf(me, v, kernel.See(), r, roles, heads, who, raised, kernel.wide)
      requires me != null ==> me in mine
      ensures Fit(mine, kernel.See(), roles)
      ensures AllTidy(mine, v) && (raised == {} || AllApart(mine, v, raised)) ==> AllTidy(mine, kernel.See())
    {
      hide ListsOk, ThreadsOk, StepOf, Fits, Tidy, Apart;
      forall x | x in objects - mine
        ensures Fits(x, kernel, kernel.See(), roles)
        ensures (raised == {} || Apart(x, v, raised)) && Tidy(x, v) ==> Tidy(x, kernel.See())
      {
        NobodyRaised(x, v);
        Kept(x, kernel, me, v, r, roles, heads, who, raised);
      }
    }

    /** Before a step of x. */
    lemma Start(x: object)
      requires Valid() && x in objects && IsIpc(x)
      ensures Parts(x) <= objects && Fits(x, kernel, kernel.See(), roles) && Fit(Parts(x), kernel.See(), roles)
      ensures Ordered() ==> Tidy(x, kernel.See()) && AllTidy(Parts(x), kernel.See())
    {
      hide ListsOk, ThreadsOk, Fits, Tidy;
      forall y | y in objects - Parts(x) ensures Parts(y) <= objects - Parts(x) {
        assert Parts(y) <= objects;
      }
    }

    /** After a step of me, whose blocked calls were calls and are now calls2. */
    lemma Done(me: object, v: View, r: Roles, own: set<int>, calls: set<int>, calls2: set<int>, who: set<int>, raised: set<int>)
      requires Fit(Parts(me), v, r) && kernel.Valid() && Frame(v, kernel.See(), own, who, raised, kernel.wide) && Owns(r, me, own, calls)
      requires Unclaimed(r, calls, who) && Unclaimed(r, calls, calls2) && roles == Calling(r, me, calls, calls2)
      ensures Fit(Parts(me), kernel.See(), roles) && Owns(roles, me, own, calls2)
      ensures AllTidy(Parts(me), v) && (raised == {} || AllApart(Parts(me), v, raised)) ==> AllTidy(Parts(me), kernel.See())
    {
      hide ListsOk, ThreadsOk, StepOf, Frame, Fit, AllTidy, AllApart, Unclaimed, Owns;
      StepMade(me, v, kernel.See(), r, own, calls, calls2, who, raised, kernel.wide);
      Others(me, Parts(me), v, r, own, who, raised);
    }

    /** x and all the rest. */
    lemma Whole(x: object)
      requires kernel.Valid() && Fit(Parts(x), kernel.See(), roles) && Fits(x, kernel, kernel.See(), roles) && Closed(roles) && Parts(x) <= objects
      ensures Valid() && (AllTidy(Parts(x), kernel.See()) && Tidy(x, kernel.See()) ==> Ordered())
    {
      hide ListsOk, ThreadsOk, Fits, Tidy;
      PartsOf(x, kernel, kernel.See(), roles);
    }

    /** A new object, on lists and with a ring of its own, joins the others. */
    lemma Joins(x: object, was: set<object>, v: View, r: Roles)
      requires kernel.Valid() && Frame(v, kernel.See(), {}, {}, {}, kernel.wide) && kernel !in objects && this !in objects
      requires objects == was + Parts(x) && was !! Parts(x) && InOrder(was, kernel, v, r)
      requires roles.calls == r.calls && (forall h :: h in r.lists ==> h in roles.lists && roles.lists[h] == r.lists[h])
      requires RingsOk(was, r) && RingJoins(x, r, roles) && IsIpc(x) && Fits(x, kernel, kernel.See(), roles)
      ensures Valid() && (Sorted(was, v) && Tidy(x, kernel.See()) ==> Ordered())
    {
      hide ListsOk, ThreadsOk, Fits, Tidy, Apart, Frame, RingsOk, RingJoins, IsIpc;
      RingsMore(x, was, r, roles);
      assert objects - Parts(x) == was;
      forall y | y in was
        ensures Fits(y, kernel, kernel.See(), roles) && (Tidy(y, v) ==> Tidy(y, kernel.See()))
      {
        FitsMore(y, kernel, v, r, roles);
        NobodyRaised(y, v);
        Kept(y, kernel, null, v, roles, roles, {}, {}, {});
      }
      Whole(x);
    }

    method NewSemaphore(head: int, value: nat, byPriority: bool) returns (s: Semaphore)
      requires Valid() && head < DEFUNCT && head !in kernel.q && head !in roles.lists
      modifies this`objects, this`roles, kernel`links, kernel`q
      ensures Valid() && (old(Ordered()) ==> Ordered()) && fresh(s) && objects == old(objects) + Parts(s)
      ensures s.kernel == kernel && kernel.q == old(kernel.q)[head := []] && roles == Enlisted(old(roles), s, head, head)
      ensures s.head == head && s.byPriority == byPriority && s.value == value % Semaphores.M16 && s.fate == map[]
    {
      hide RingsOk, InOrder, Sorted, Fits, Tidy, Frame, ListsOk, ThreadsOk, FatesOk, Urgent, SemFits, Handed;
      ghost var v, r0, was := kernel.See(), roles, objects;
      assert objects - {} == was;
      s := new Semaphore(kernel, head, value, byPriority);
      objects, roles := objects + Parts(s), Enlisted(roles, s, head, head);
      SemJoins(s, kernel, kernel.See(), roles);
      Joins(s, was, v, r0);
    }

    method NewMutex(head: int, byPriority: bool) returns (m: Mutex)
      requires Valid() && head < DEFUNCT && head !in kernel.q && head !in roles.lists
      modifies this`objects, this`roles, kernel`links, kernel`q
      ensures Valid() && (old(Ordered()) ==> Ordered()) && fresh(m) && objects == old(objects) + Parts(m)
      ensures m.kernel == kernel && kernel.q == old(kernel.q)[head := []] && roles == Enlisted(old(roles), m, head, head)
      ensures m.head == head && m.byPriority == byPriority && m.owner == 0 && m.fate == map[]
    {
      hide RingsOk, InOrder, Sorted, Fits, Tidy, Frame, ListsOk, ThreadsOk, FatesOk, Urgent, MutexFits, OwnerOk, Leads;
      ghost var v, r0, was := kernel.See(), roles, objects;
      assert objects - {} == was;
      m := new Mutex(kernel, head, byPriority);
      objects, roles := objects + Parts(m), Enlisted(roles, m, head, head);
      MutexJoins(m, kernel, kernel.See(), roles);
      Joins(m, was, v, r0);
    }

    method NewEvent(head: int, byPriority: bool) returns (e: Event)
      requires Valid() && head < DEFUNCT && head !in kernel.q && head !in roles.lists
      modifies this`objects, this`roles, kernel`links, kernel`q
      ensures Valid() && (old(Ordered()) ==> Ordered()) && fresh(e) && objects == old(objects) + Parts(e)
      ensures e.kernel == kernel && kernel.q == old(kernel.q)[head := []] && roles == Enlisted(old(roles), e, head, head)
      ensures e.head == head && e.byPriority == byPriority && e.have == 0 && e.fate == map[]
    {
      hide RingsOk, InOrder, Sorted, Fits, Tidy, Frame, ListsOk, ThreadsOk, FatesOk, Urgent, EventFits, Quiet, GotOk;
      ghost var v, r0, was := kernel.See(), roles, objects;
      assert objects - {} == was;
      e := new Event(kernel, head, byPriority);
      objects, roles := objects + Parts(e), Enlisted(roles, e, head, head);
      EventJoins(e, kernel, kernel.See(), roles);
      Joins(e, was, v, r0);
    }

    method NewMailbox(recvHead: int, sendHead: int, size: nat, byPriority: bool) returns (b: Mailbox)
      requires Valid() && recvHead < DEFUNCT && sendHead < DEFUNCT && recvHead != sendHead
      requires recvHead !in kernel.q && sendHead !in kernel.q && recvHead !in roles.lists && sendHead !in roles.lists
      modifies this`objects, this`roles, kernel`links, kernel`q
      ensures Valid() && (old(Ordered()) ==> Ordered()) && fresh(b) && objects == old(objects) + Parts(b)
      ensures b.kernel == kernel && kernel.q == old(kernel.q)[recvHead := []][sendHead := []] && roles == Enlisted(old(roles), b, recvHead, sendHead)
      ensures b.recvHead == recvHead && b.sendHead == sendHead && b.byPriority == byPriority && b.box == []
      ensures b.pool.Length == size % 0x1_0000 && b.receivers == map[] && b.senders == map[]
    {
      hide RingsOk, InOrder, Sorted, Fits, Tidy, Frame, ListsOk, ThreadsOk, FatesOk, Urgent, BoxFits, RingOk, Handed;
      ghost var v, r0, was := kernel.See(), roles, objects;
      assert objects - {} == was;
      b := new Mailbox(kernel, recvHead, sendHead, size, byPriority);
      objects, roles := objects + Parts(b), Enlisted(roles, b, recvHead, sendHead);
      BoxJoins(b, kernel, kernel.See(), roles);
      Joins(b, was, v, r0);
    }

    method NewMessageQueue(recvHead: int, pool: nat, msgSize: nat, poolSize: nat, byPriority: bool, align: nat) returns (m: MessageQueue)
      requires Valid() && recvHead < DEFUNCT && recvHead !in kernel.q && recvHead !in roles.lists
      requires 0 < pool && (align == 4 || align == 8)
      modifies this`objects, this`roles, kernel`links, kernel`q
      ensures Valid() && (old(Ordered()) ==> Ordered()) && fresh(m) && objects == old(objects) + Parts(m)
      ensures m.kernel == kernel && kernel.q == old(kernel.q)[recvHead := []] && roles == Enlisted(old(roles), m, recvHead, recvHead)
      ensures m.recvHead == recvHead && m.byPriority == byPriority && m.Messages() == [] && m.receivers == map[]
      ensures m.msgSize == RoundUp(msgSize, align) % MsgQueues.M16 && |m.free| == poolSize / (m.msgSize + LINK) % MsgQueues.M16
    {
      hide RingsOk, InOrder, Sorted, Fits, Tidy, Frame, ListsOk, ThreadsOk, FatesOk, Urgent, QueueFits, Linkage, Handed;
      ghost var v, r0, was := kernel.See(), roles, objects;
      assert objects - {} == was;
      m := new MessageQueue(kernel, recvHead, pool, msgSize, poolSize, byPriority, align);
      objects, roles := objects + Parts(m), Enlisted(roles, m, recvHead, recvHead);
      QueueJoins(m, kernel, kernel.See(), roles);
      Joins(m, was, v, r0);
    }

    lemma SemStart(s: Semaphore)
      requires Valid() && s in objects
      ensures s.kernel == kernel && s.Valid() && Owns(roles, s, {s.head}, s.fate.Keys)
      ensures forall t :: t in s.fate ==> t in roles.calls
      ensures Fit(Parts(s), kernel.See(), roles) && Closed(roles) && kernel !in objects && this !in objects && Parts(s) <= objects
      ensures Ordered() ==> AllTidy(Parts(s), kernel.See()) && s.Ordered()
    {
      hide ListsOk, ThreadsOk, Urgent, FatesOk, Fit, AllTidy, Parts, Handed;
      Start(s);
      assert SemFits(s, kernel, kernel.See(), roles);
    }

    lemma SemDone(s: Semaphore, v: View, r: Roles, calls: set<int>, who: set<int>, raised: set<int>)
      requires Fit(Parts(s), v, r) && Closed(r) && Parts(s) <= objects && s.kernel == kernel && s.Valid()
      requires Frame(v, kernel.See(), {s.head}, who, raised, kernel.wide) && Owns(r, s, {s.head}, calls)
      requires Unclaimed(r, calls, who) && Unclaimed(r, calls, s.fate.Keys) && roles == Calling(r, s, calls, s.fate.Keys)
      ensures Valid()
      ensures AllTidy(Parts(s), v) && (raised == {} || AllApart(Parts(s), v, raised)) && s.Ordered() ==> Ordered()
    {
      hide ListsOk, ThreadsOk, Urgent, FatesOk, Frame, Owns, Fit, AllTidy, AllApart, Parts, Unclaimed, Handed;
      Done(s, v, r, {s.head}, calls, s.fate.Keys, who, raised);
      assert SemFits(s, kernel, kernel.See(), roles);
      Whole(s);
    }

    lemma MutexStart(m: Mutex)
      requires Valid() && m in objects
      ensures m.kernel == kernel && m.Valid() && Owns(roles, m, {m.head}, m.fate.Keys)
      ensures forall t :: t in m.fate ==> t in roles.calls
      ensures Fit(Parts(m), kernel.See(), roles) && Closed(roles) && kernel !in objects && this !in objects && Parts(m) <= objects
      ensures Parts(m) == {m} && (Ordered() ==> AllTidy(Parts(m), kernel.See()) && (m.byPriority ==> m.Inherits()))
    {
      hide ListsOk, ThreadsOk, Urgent, FatesOk, Fit, AllTidy, OwnerOk, Leads;
      Start(m);
      assert MutexFits(m, kernel, kernel.See(), roles);
    }

    lemma MutexDone(m: Mutex, v: View, r: Roles, calls: set<int>, who: set<int>, raised: set<int>)
      requires Fit(Parts(m), v, r) && Closed(r) && Parts(m) <= objects && m.kernel == kernel && m.Valid()
      requires Frame(v, kernel.See(), {m.head}, who, raised, kernel.wide) && Owns(r, m, {m.head}, calls)
      requires Unclaimed(r, calls, who) && Unclaimed(r, calls, m.fate.Keys) && roles == Calling(r, m, calls, m.fate.Keys)
      ensures Valid()
      ensures AllTidy(Parts(m), v) && (raised == {} || AllApart(Parts(m), v, raised)) && (m.byPriority ==> m.Inherits()) ==> Ordered()
    {
      hide ListsOk, ThreadsOk, Urgent, FatesOk, Frame, Owns, Fit, AllTidy, AllApart, Parts, Unclaimed, OwnerOk, Leads;
      Done(m, v, r, {m.head}, calls, m.fate.Keys, who, raised);
      assert MutexFits(m, kernel, kernel.See(), roles);
      Whole(m);
    }

    lemma EventStart(e: Event)
      requires Valid() && e in objects
      ensures e.kernel == kernel && e.Valid() && Owns(roles, e, {e.head}, e.fate.Keys)
      ensures forall t :: t in e.fate ==> t in roles.calls
      ensures Fit(Parts(e), kernel.See(), roles) && Closed(roles) && kernel !in objects && this !in objects && Parts(e) <= objects
      ensures Ordered() ==> AllTidy(Parts(e), kernel.See()) && e.Ordered()
    {
      hide ListsOk, ThreadsOk, Urgent, FatesOk, Fit, AllTidy, Parts, Quiet, GotOk;
      Start(e);
      assert EventFits(e, kernel, kernel.See(), roles);
    }

    lemma EventDone(e: Event, v: View, r: Roles, calls: set<int>, who: set<int>, raised: set<int>)
      requires Fit(Parts(e), v, r) && Closed(r) && Parts(e) <= objects && e.kernel == kernel && e.Valid()
      requires Frame(v, kernel.See(), {e.head}, who, raised, kernel.wide) && Owns(r, e, {e.head}, calls)
      requires Unclaimed(r, calls, who) && Unclaimed(r, calls, e.fate.Keys) && roles == Calling(r, e, calls, e.fate.Keys)
      ensures Valid()
      ensures AllTidy(Parts(e), v) && (raised == {} || AllApart(Parts(e), v, raised)) && e.Ordered() ==> Ordered()
    {
      hide ListsOk, ThreadsOk, Urgent, FatesOk, Frame, Owns, Fit, AllTidy, AllApart, Parts, Unclaimed, Quiet, GotOk;
      Done(e, v, r, {e.head}, calls, e.fate.Keys, who, raised);
      assert EventFits(e, kernel, kernel.See(), roles);
      Whole(e);
    }

    lemma BoxStart(b: Mailbox)
      requires Valid() && b in objects
      ensures b.kernel == kernel && b.Valid() && Owns(roles, b, b.Heads(), b.receivers.Keys + b.senders.Keys)
      ensures forall t :: t in b.receivers || t in b.senders ==> t in roles.calls
      ensures Fit(Parts(b), kernel.See(), roles) && Closed(roles) && kernel !in objects && this !in objects && Parts(b) <= objects
      ensures b.pool in Parts(b) && (Ordered() ==> AllTidy(Parts(b), kernel.See()) && b.Ordered())
    {
      hide ListsOk, ThreadsOk, Urgent, FatesOk, Fit, AllTidy, RingOk, Handed;
      Start(b);
      assert BoxFits(b, kernel, kernel.See(), roles);
    }

    lemma BoxDone(b: Mailbox, v: View, r: Roles, calls: set<int>, who: set<int>, raised: set<int>)
      requires Fit(Parts(b), v, r) && Closed(r) && Parts(b) <= objects && b.kernel == kernel && b.Valid()
      requires Frame(v, kernel.See(), b.Heads(), who, raised, kernel.wide) && Owns(r, b, b.Heads(), calls)
      requires Unclaimed(r, calls, who) && Unclaimed(r, calls, b.receivers.Keys + b.senders.Keys)
      requires roles == Calling(r, b, calls, b.receivers.Keys + b.senders.Keys)
      ensures Valid()
      ensures AllTidy(Parts(b), v) && (raised == {} || AllApart(Parts(b), v, raised)) && b.Ordered() ==> Ordered()
    {
      hide ListsOk, ThreadsOk, Urgent, FatesOk, Frame, Owns, Fit, AllTidy, AllApart, Parts, Unclaimed, RingOk, Handed;
      Done(b, v, r, b.Heads(), calls, b.receivers.Keys + b.senders.Keys, who, raised);
      assert BoxFits(b, kernel, kernel.See(), roles);
      Whole(b);
    }

    lemma QueueStart(m: MessageQueue)
      requires Valid() && m in objects
      ensures m.kernel == kernel && m.Valid() && Owns(roles, m, {m.recvHead}, m.receivers.Keys)
      ensures forall t :: t in m.receivers ==> t in roles.calls
      ensures Fit(Parts(m), kernel.See(), roles) && Closed(roles) && kernel !in objects && this !in objects && Parts(m) <= objects
      ensures Ordered() ==> AllTidy(Parts(m), kernel.See()) && m.Ordered()
    {
      hide ListsOk, ThreadsOk, Urgent, FatesOk, Fit, AllTidy, Parts, Linkage, Handed;
      Start(m);
      assert QueueFits(m, kernel, kernel.See(), roles);
    }

    lemma QueueDone(m: MessageQueue, v: View, r: Roles, calls: set<int>, who: set<int>, raised: set<int>)
      requires Fit(Parts(m), v, r) && Closed(r) && Parts(m) <= objects && m.kernel == kernel && m.Valid()
      requires Frame(v, kernel.See(), {m.recvHead}, who, raised, kernel.wide) && Owns(r, m, {m.recvHead}, calls)
      requires Unclaimed(r, calls, who) && Unclaimed(r, calls, m.receivers.Keys) && roles == Calling(r, m, calls, m.receivers.Keys)
      ensures Valid()
      ensures AllTidy(Parts(m), v) && (raised == {} || AllApart(Parts(m), v, raised)) && m.Ordered() ==> Ordered()
    {
      hide ListsOk, ThreadsOk, Urgent, FatesOk, Frame, Owns, Fit, AllTidy, AllApart, Parts, Unclaimed, Linkage, Handed;
      Done(m, v, r, {m.recvHead}, calls, m.receivers.Keys, who, raised);
      assert QueueFits(m, kernel, kernel.See(), roles);
      Whole(m);
    }

    /** After a step of threads that are in no call. */
    lemma ThreadDone(v: View, heads: set<int>, who: set<int>, raised: set<int>)
      requires Fit({}, v, roles) && Closed(roles) && kernel.Valid() && Frame(v, kernel.See(), heads, who, raised, kernel.wide)
      requires (forall h :: h in heads ==> DEFUNCT <= h) && who !! roles.calls.Keys
      ensures Valid() && (AllTidy({}, v) && (raised == {} || AllApart({}, v, raised)) ==> Ordered())
    {
      hide ListsOk, ThreadsOk, Fit, AllTidy, AllApart, Members, Urgent;
      Others(null, {}, v, roles, heads, who, raised);
    }

    /** rt_sem_take */
    method SemTake(s: Semaphore, t: int, time: int) returns (r: TakeResult)
      requires Valid() && s in objects && t !in roles.calls
      requires s.value == 0 && time != 0 ==> t in kernel.at && kernel.threads[t].stat == Ready
      modifies this`roles, s, kernel
      ensures Valid() && (old(Ordered()) ==> Ordered()) && s.TakeStep(t, time, r)
      ensures roles == Calling(old(roles), s, old(s.fate.Keys), s.fate.Keys)
    {
      hide Fit, AllTidy, AllApart, Parts, Owns, Calling, Closed, Unclaimed, Frame, Roused, ListsOk, ThreadsOk, FatesOk, Urgent, Handed,
           Enqueued, Settled, Cancelled, Without, Members;
      SemStart(s);
      ghost var v, r0, calls := kernel.See(), roles, s.fate.Keys;
      r := s.Take(t, time);
      roles := Calling(r0, s, calls, s.fate.Keys);
      OneEnters(r0, calls, s.fate.Keys, t);
      SemDone(s, v, r0, calls, {t}, {});
    }

    /** rt_sem_release */
    method SemRelease(s: Semaphore)
      requires Valid() && s in objects
      modifies this`roles, s, kernel
      ensures Valid() && (old(Ordered()) ==> Ordered()) && s.ReleaseStep()
      ensures roles == Calling(old(roles), s, old(s.fate.Keys), s.fate.Keys)
    {
      hide Fit, AllTidy, AllApart, Parts, Owns, Calling, Closed, Unclaimed, Frame, Roused, ListsOk, ThreadsOk, FatesOk, Urgent, Handed,
           Enqueued, Settled, Cancelled, Without, Members;
      SemStart(s);
      ghost var v, r0, calls := kernel.See(), roles, s.fate.Keys;
      s.Release();
      roles := Calling(r0, s, calls, s.fate.Keys);
      NobodyEnters(r0, calls, s.fate.Keys, {});
      SemDone(s, v, r0, calls, {}, {});
    }

    /** The end of a rt_sem_take that blocked */
    method SemReturn(s: Semaphore, t: int) returns (e: Error)
      requires Valid() && s in objects && t in s.fate && s.fate[t] != Waiting
      modifies this`roles, s`successes, s`fate
      ensures Valid() && (old(Ordered()) ==> Ordered()) && s.ReturnStep(t, e)
      ensures roles == Calling(old(roles), s, old(s.fate.Keys), s.fate.Keys)
    {
      hide Fit, AllTidy, AllApart, Parts, Owns, Calling, Closed, Unclaimed, Frame, Roused, ListsOk, ThreadsOk, FatesOk, Urgent, Handed,
           Enqueued, Settled, Cancelled, Without, Members;
      SemStart(s);
      ghost var v, r0, calls := kernel.See(), roles, s.fate.Keys;
      e := s.Return(t);
      roles := Calling(r0, s, calls, s.fate.Keys);
      FrameNone(v, {s.head}, {}, {}, kernel.wide);
      NobodyEnters(r0, calls, s.fate.Keys, {});
      SemDone(s, v, r0, calls, {}, {});
    }

    /** A waiter's timer expires */
    method SemTimeout(s: Semaphore, t: int)
      requires Valid() && s in objects && t in s.fate && s.fate[t] == Waiting && t in kernel.threads && kernel.threads[t].armed
      modifies this`roles, s`fate, kernel
      ensures Valid() && (old(Ordered()) ==> Ordered()) && s.TimeoutStep(t)
      ensures roles == Calling(old(roles), s, old(s.fate.Keys), s.fate.Keys)
    {
      hide Fit, AllTidy, AllApart, Parts, Owns, Calling, Closed, Unclaimed, Frame, Roused, ListsOk, ThreadsOk, FatesOk, Urgent, Handed,
           Enqueued, Settled, Cancelled, Without, Members;
      SemStart(s);
      ghost var v, r0, calls := kernel.See(), roles, s.fate.Keys;
      s.Timeout(t);
      roles := Calling(r0, s, calls, s.fate.Keys);
      OneEnters(r0, calls, s.fate.Keys, t);
      SemDone(s, v, r0, calls, {t}, {});
    }

    /** RT_IPC_CMD_RESET */
    method SemReset(s: Semaphore, value: nat)
      requires Valid() && s in objects
      modifies this`roles, s, kernel
      ensures Valid() && (old(Ordered()) ==> Ordered()) && s.ResetStep(value)
      ensures roles == Calling(old(roles), s, old(s.fate.Keys), s.fate.Keys)
    {
      hide Fit, AllTidy, AllApart, Parts, Owns, Calling, Closed, Unclaimed, Frame, Roused, ListsOk, ThreadsOk, FatesOk, Urgent, Handed,
           Enqueued, Settled, Cancelled, Without, Members;
      SemStart(s);
      ghost var v, r0, calls := kernel.See(), roles, s.fate.Keys;
      s.Reset(value);
      roles := Calling(r0, s, calls, s.fate.Keys);
      NobodyEnters(r0, calls, s.fate.Keys, Members(v.q[s.head]));
      SemDone(s, v, r0, calls, Members(v.q[s.head]), {});
    }

    /** rt_mutex_take; the priority of the owner may rise */
    method MutexTake(m: Mutex, t: int, time: int) returns (r: TakeResult)
      requires Valid() && m in objects && t in kernel.at && kernel.threads[t].stat == Ready && t !in roles.calls
      requires !(m.owner == t && m.hold == M8 - 1)
      modifies this`roles, m, kernel
      ensures Valid() && (old(Ordered() && Alone(m, m.owner)) ==> Ordered()) && m.TakeStep(t, time, r)
      ensures roles == Calling(old(roles), m, old(m.fate.Keys), m.fate.Keys)
    {
      hide Fit, AllTidy, AllApart, Parts, Owns, Calling, Closed, Unclaimed, Frame, Roused, ListsOk, ThreadsOk, FatesOk, Urgent, Handed,
           Enqueued, Settled, Cancelled, OwnerOk, Leads, Without, Least;
      MutexStart(m);
      ghost var v, r0, calls := kernel.See(), roles, m.fate.Keys;
      ghost var owner := m.owner;
      r := m.Take(t, time);
      roles := Calling(r0, m, calls, m.fate.Keys);
      OneEnters(r0, calls, m.fate.Keys, t);
      MutexDone(m, v, r0, calls, {t}, {owner});
    }

    /** rt_mutex_release; the caller goes back to its own priority */
    method MutexRelease(m: Mutex, t: int) returns (ok: bool)
      requires Valid() && m in objects && t in kernel.at && t !in roles.calls
      modifies this`roles, m, kernel
      ensures Valid() && (old(Ordered() && Alone(m, t)) ==> Ordered()) && m.ReleaseStep(t, ok)
      ensures roles == Calling(old(roles), m, old(m.fate.Keys), m.fate.Keys)
    {
      hide Fit, AllTidy, AllApart, Parts, Owns, Calling, Closed, Unclaimed, Frame, Roused, ListsOk, ThreadsOk, FatesOk, Urgent, Handed,
           Enqueued, Settled, Cancelled, OwnerOk, Leads, Without, Least;
      MutexStart(m);
      ghost var v, r0, calls := kernel.See(), roles, m.fate.Keys;
      ok := m.Release(t);
      roles := Calling(r0, m, calls, m.fate.Keys);
      OneEnters(r0, calls, m.fate.Keys, t);
      MutexDone(m, v, r0, calls, {t}, {t});
    }

    /** The end of a rt_mutex_take that blocked */
    method MutexReturn(m: Mutex, t: int) returns (e: Error)
      requires Valid() && m in objects && t in m.fate && m.fate[t] != Waiting
      modifies this`roles, m`fate
      ensures Valid() && (old(Ordered()) ==> Ordered()) && m.ReturnStep(t, e)
      ensures roles == Calling(old(roles), m, old(m.fate.Keys), m.fate.Keys)
    {
      hide Fit, AllTidy, AllApart, Parts, Owns, Calling, Closed, Unclaimed, Frame, Roused, ListsOk, ThreadsOk, FatesOk, Urgent, Handed,
           Enqueued, Settled, Cancelled, OwnerOk, Leads, Without, Least;
      MutexStart(m);
      ghost var v, r0, calls := kernel.See(), roles, m.fate.Keys;
      e := m.Return(t);
      roles := Calling(r0, m, calls, m.fate.Keys);
      FrameNone(v, {m.head}, {}, {}, kernel.wide);
      NobodyEnters(r0, calls, m.fate.Keys, {});
      MutexDone(m, v, r0, calls, {}, {});
    }

    /** A waiter's timer expires */
    method MutexTimeout(m: Mutex, t: int)
      requires Valid() && m in objects && t in m.fate && m.fate[t] == Waiting && t in kernel.threads && kernel.threads[t].armed
      modifies this`roles, m`fate, kernel
      ensures Valid() && (old(Ordered()) ==> Ordered()) && m.TimeoutStep(t)
      ensures roles == Calling(old(roles), m, old(m.fate.Keys), m.fate.Keys)
    {
      hide Fit, AllTidy, AllApart, Parts, Owns, Calling, Closed, Unclaimed, Frame, Roused, ListsOk, ThreadsOk, FatesOk, Urgent, Handed,
           Enqueued, Settled, Cancelled, OwnerOk, Leads, Without, Least;
      MutexStart(m);
      ghost var v, r0, calls := kernel.See(), roles, m.fate.Keys;
      m.Timeout(t);
      roles := Calling(r0, m, calls, m.fate.Keys);
      OneEnters(r0, calls, m.fate.Keys, t);
      MutexDone(m, v, r0, calls, {t}, {});
    }

    /** rt_event_recv */
    method EventRecv(e: Event, t: int, set32: bv32, option: bv32, timeout: int) returns (r: Received)
      requires Valid() && e in objects && t in kernel.at && kernel.threads[t].stat == Ready && t !in roles.calls && HasMode(option)
      modifies this`roles, e, kernel
      ensures Valid() && (old(Ordered()) ==> Ordered()) && e.RecvStep(t, set32, option, timeout, r)
      ensures roles == Calling(old(roles), e, old(e.fate.Keys), e.fate.Keys)
    {
      hide Fit, AllTidy, AllApart, Parts, Owns, Calling, Closed, Unclaimed, Frame, Roused, ListsOk, ThreadsOk, FatesOk, Urgent, Turns,
           Served, Settled, Cancelled, Enqueued, Met, Meet, After, HasMode, Quiet, GotOk, Granting, Without, Members, Added;
      EventStart(e);
      ghost var v, r0, calls := kernel.See(), roles, e.fate.Keys;
      r := e.Recv(t, set32, option, timeout);
      roles := Calling(r0, e, calls, e.fate.Keys);
      OneEnters(r0, calls, e.fate.Keys, t);
      EventDone(e, v, r0, calls, {t}, {});
    }

    /** rt_event_send */
    method EventSend(e: Event, set32: bv32) returns (ok: bool)
      requires Valid() && e in objects
      modifies this`roles, e, kernel
      ensures Valid() && (old(Ordered()) ==> Ordered()) && e.SendStep(set32, ok)
      ensures roles == Calling(old(roles), e, old(e.fate.Keys), e.fate.Keys)
    {
      hide Fit, AllTidy, AllApart, Parts, Owns, Calling, Closed, Unclaimed, Frame, Roused, ListsOk, ThreadsOk, FatesOk, Urgent, Turns,
           Served, Settled, Cancelled, Enqueued, Met, Meet, After, HasMode, Quiet, GotOk, Granting, Without, Members, Added;
      EventStart(e);
      ghost var v, r0, calls := kernel.See(), roles, e.fate.Keys;
      ok := e.Send(set32);
      roles := Calling(r0, e, calls, e.fate.Keys);
      NobodyEnters(r0, calls, e.fate.Keys, Members(v.q[e.head]));
      EventDone(e, v, r0, calls, Members(v.q[e.head]), {});
    }

    /** The end of a rt_event_recv that blocked */
    method EventReturn(e: Event, t: int) returns (error: Error, set32: bv32)
      requires Valid() && e in objects && t in e.fate && e.fate[t] != Waiting
      modifies this`roles, e`fate
      ensures Valid() && (old(Ordered()) ==> Ordered()) && e.ReturnStep(t, error, set32)
      ensures roles == Calling(old(roles), e, old(e.fate.Keys), e.fate.Keys)
    {
      hide Fit, AllTidy, AllApart, Parts, Owns, Calling, Closed, Unclaimed, Frame, Roused, ListsOk, ThreadsOk, FatesOk, Urgent, Turns,
           Served, Settled, Cancelled, Enqueued, Met, Meet, After, HasMode, Quiet, GotOk, Granting, Without, Members, Added;
      EventStart(e);
      ghost var v, r0, calls := kernel.See(), roles, e.fate.Keys;
      error, set32 := e.Return(t);
      roles := Calling(r0, e, calls, e.fate.Keys);
      FrameNone(v, {e.head}, {}, {}, kernel.wide);
      NobodyEnters(r0, calls, e.fate.Keys, {});
      EventDone(e, v, r0, calls, {}, {});
    }

    /** A waiter's timer expires */
    method EventTimeout(e: Event, t: int)
      requires Valid() && e in objects && t in e.fate && e.fate[t] == Waiting && t in kernel.threads && kernel.threads[t].armed
      modifies this`roles, e`fate, kernel
      ensures Valid() && (old(Ordered()) ==> Ordered()) && e.TimeoutStep(t)
      ensures roles == Calling(old(roles), e, old(e.fate.Keys), e.fate.Keys)
    {
      hide Fit, AllTidy, AllApart, Parts, Owns, Calling, Closed, Unclaimed, Frame, Roused, ListsOk, ThreadsOk, FatesOk, Urgent, Turns,
           Served, Settled, Cancelled, Enqueued, Met, Meet, After, HasMode, Quiet, GotOk, Granting, Without, Members, Added;
      EventStart(e);
      ghost var v, r0, calls := kernel.See(), roles, e.fate.Keys;
      e.Timeout(t);
      roles := Calling(r0, e, calls, e.fate.Keys);
      OneEnters(r0, calls, e.fate.Keys, t);
      EventDone(e, v, r0, calls, {t}, {});
    }

    /** RT_IPC_CMD_RESET */
    method EventReset(e: Event)
      requires Valid() && e in objects
      modifies this`roles, e, kernel
      ensures Valid() && (old(Ordered()) ==> Ordered()) && e.ResetStep()
      ensures roles == Calling(old(roles), e, old(e.fate.Keys), e.fate.Keys)
    {
      hide Fit, AllTidy, AllApart, Parts, Owns, Calling, Closed, Unclaimed, Frame, Roused, ListsOk, ThreadsOk, FatesOk, Urgent, Turns,
           Served, Settled, Cancelled, Enqueued, Met, Meet, After, HasMode, Quiet, GotOk, Granting, Without, Members, Added;
      EventStart(e);
      ghost var v, r0, calls := kernel.See(), roles, e.fate.Keys;
      e.Reset();
      roles := Calling(r0, e, calls, e.fate.Keys);
      NobodyEnters(r0, calls, e.fate.Keys, Members(v.q[e.head]));
      EventDone(e, v, r0, calls, Members(v.q[e.head]), {});
    }

    /** rt_mb_send_wait */
    method BoxSend(b: Mailbox, t: int, value: int, timeout: int) returns (r: Sending)
      requires Valid() && b in objects && t !in roles.calls
      requires b.entry == b.pool.Length && timeout != 0 ==> t in kernel.at && kernel.threads[t].stat == Ready
      modifies this`roles, b, b.pool, kernel
      ensures Valid() && (old(Ordered()) ==> Ordered()) && b.SendStep(t, value, timeout, r)
      ensures roles == Calling(old(roles), b, old(b.receivers.Keys + b.senders.Keys), b.receivers.Keys + b.senders.Keys)
    {
      hide Fit, AllTidy, AllApart, Parts, Owns, Calling, Closed, Unclaimed, Frame, Roused, ListsOk, ThreadsOk, FatesOk, Urgent, RingOk,
           Handed, Enqueued, Settled, Cancelled, Without;
      BoxStart(b);
      ghost var v, r0, calls := kernel.See(), roles, b.receivers.Keys + b.senders.Keys;
      r := b.Send(t, value, timeout);
      roles := Calling(r0, b, calls, b.receivers.Keys + b.senders.Keys);
      OneEnters(r0, calls, b.receivers.Keys + b.senders.Keys, t);
      BoxDone(b, v, r0, calls, {t}, {});
    }

    /** A sender that blocked runs again */
    method BoxSendAgain(b: Mailbox, t: int, value: int, left: int) returns (r: Sending)
      requires Valid() && b in objects && t in b.senders && b.senders[t] != Waiting
      modifies this`roles, b, b.pool, kernel
      ensures Valid() && (old(Ordered()) ==> Ordered()) && b.SendAgainStep(t, value, left, r)
      ensures roles == Calling(old(roles), b, old(b.receivers.Keys + b.senders.Keys), b.receivers.Keys + b.senders.Keys)
    {
      hide Fit, AllTidy, AllApart, Parts, Owns, Calling, Closed, Unclaimed, Frame, Roused, ListsOk, ThreadsOk, FatesOk, Urgent, RingOk,
           Handed, Enqueued, Settled, Cancelled, Without;
      BoxStart(b);
      ghost var v, r0, calls := kernel.See(), roles, b.receivers.Keys + b.senders.Keys;
      r := b.SendAgain(t, value, left);
      roles := Calling(r0, b, calls, b.receivers.Keys + b.senders.Keys);
      OneEnters(r0, calls, b.receivers.Keys + b.senders.Keys, t);
      BoxDone(b, v, r0, calls, {t}, {});
    }

    /** rt_mb_recv */
    method BoxRecv(b: Mailbox, t: int, timeout: int) returns (r: Receiving)
      requires Valid() && b in objects && t !in roles.calls
      requires b.entry == 0 && timeout != 0 ==> t in kernel.at && kernel.threads[t].stat == Ready
      modifies this`roles, b, kernel
      ensures Valid() && (old(Ordered()) ==> Ordered()) && b.RecvStep(t, timeout, r)
      ensures roles == Calling(old(roles), b, old(b.receivers.Keys + b.senders.Keys), b.receivers.Keys + b.senders.Keys)
    {
      hide Fit, AllTidy, AllApart, Parts, Owns, Calling, Closed, Unclaimed, Frame, Roused, ListsOk, ThreadsOk, FatesOk, Urgent, RingOk,
           Handed, Enqueued, Settled, Cancelled, Without;
      BoxStart(b);
      ghost var v, r0, calls := kernel.See(), roles, b.receivers.Keys + b.senders.Keys;
      r := b.Recv(t, timeout);
      roles := Calling(r0, b, calls, b.receivers.Keys + b.senders.Keys);
      OneEnters(r0, calls, b.receivers.Keys + b.senders.Keys, t);
      BoxDone(b, v, r0, calls, {t}, {});
    }

    /** A receiver that blocked runs again */
    method BoxRecvAgain(b: Mailbox, t: int, left: int) returns (r: Receiving)
      requires Valid() && b in objects && t in b.receivers && b.receivers[t] != Waiting
      modifies this`roles, b, kernel
      ensures Valid() && (old(Ordered()) ==> Ordered()) && b.RecvAgainStep(t, left, r)
      ensures roles == Calling(old(roles), b, old(b.receivers.Keys + b.senders.Keys), b.receivers.Keys + b.senders.Keys)
    {
      hide Fit, AllTidy, AllApart, Parts, Owns, Calling, Closed, Unclaimed, Frame, Roused, ListsOk, ThreadsOk, FatesOk, Urgent, RingOk,
           Handed, Enqueued, Settled, Cancelled, Without;
      BoxStart(b);
      ghost var v, r0, calls := kernel.See(), roles, b.receivers.Keys + b.senders.Keys;
      r := b.RecvAgain(t, left);
      roles := Calling(r0, b, calls, b.receivers.Keys + b.senders.Keys);
      OneEnters(r0, calls, b.receivers.Keys + b.senders.Keys, t);
      BoxDone(b, v, r0, calls, {t}, {});
    }

    /** A waiting sender's timer expires */
    method BoxSendTimeout(b: Mailbox, t: int)
      requires Valid() && b in objects && t in b.senders && b.senders[t] == Waiting && t in kernel.threads && kernel.threads[t].armed
      modifies this`roles, b`senders, kernel
      ensures Valid() && (old(Ordered()) ==> Ordered()) && b.SendTimeoutStep(t)
      ensures roles == Calling(old(roles), b, old(b.receivers.Keys + b.senders.Keys), b.receivers.Keys + b.senders.Keys)
    {
      hide Fit, AllTidy, AllApart, Parts, Owns, Calling, Closed, Unclaimed, Frame, Roused, ListsOk, ThreadsOk, FatesOk, Urgent, RingOk,
           Handed, Enqueued, Settled, Cancelled, Without;
      BoxStart(b);
      ghost var v, r0, calls := kernel.See(), roles, b.receivers.Keys + b.senders.Keys;
      b.SendTimeout(t);
      roles := Calling(r0, b, calls, b.receivers.Keys + b.senders.Keys);
      OneEnters(r0, calls, b.receivers.Keys + b.senders.Keys, t);
      BoxDone(b, v, r0, calls, {t}, {});
    }

    /** A waiting receiver's timer expires */
    method BoxRecvTimeout(b: Mailbox, t: int)
      requires Valid() && b in objects && t in b.receivers && b.receivers[t] == Waiting && t in kernel.threads && kernel.threads[t].armed
      modifies this`roles, b`receivers, kernel
      ensures Valid() && (old(Ordered()) ==> Ordered()) && b.RecvTimeoutStep(t)
      ensures roles == Calling(old(roles), b, old(b.receivers.Keys + b.senders.Keys), b.receivers.Keys + b.senders.Keys)
    {
      hide Fit, AllTidy, AllApart, Parts, Owns, Calling, Closed, Unclaimed, Frame, Roused, ListsOk, ThreadsOk, FatesOk, Urgent, RingOk,
           Handed, Enqueued, Settled, Cancelled, Without;
      BoxStart(b);
      ghost var v, r0, calls := kernel.See(), roles, b.receivers.Keys + b.senders.Keys;
      b.RecvTimeout(t);
      roles := Calling(r0, b, calls, b.receivers.Keys + b.senders.Keys);
      OneEnters(r0, calls, b.receivers.Keys + b.senders.Keys, t);
      BoxDone(b, v, r0, calls, {t}, {});
    }

    /** RT_IPC_CMD_RESET */
    method BoxReset(b: Mailbox)
      requires Valid() && b in objects
      modifies this`roles, b, kernel
      ensures Valid() && (old(Ordered()) ==> Ordered()) && b.ResetStep()
      ensures roles == Calling(old(roles), b, old(b.receivers.Keys + b.senders.Keys), b.receivers.Keys + b.senders.Keys)
    {
      hide Fit, AllTidy, AllApart, Parts, Owns, Calling, Closed, Unclaimed, Frame, Roused, ListsOk, ThreadsOk, FatesOk, Urgent, RingOk,
           Handed, Enqueued, Settled, Cancelled, Without;
      BoxStart(b);
      ghost var v, r0, calls := kernel.See(), roles, b.receivers.Keys + b.senders.Keys;
      b.Reset();
      roles := Calling(r0, b, calls, b.receivers.Keys + b.senders.Keys);
      NobodyEnters(r0, calls, b.receivers.Keys + b.senders.Keys, calls);
      BoxDone(b, v, r0, calls, calls, {});
    }

    /** The first region of rt_mq_send and rt_mq_urgent */
    method QueueSendBegin(m: MessageQueue, size: nat) returns (r: Ticket)
      requires Valid() && m in objects && size > 0
      modifies this`roles, m`freeHead, m`owner, m`free
      ensures Valid() && (old(Ordered()) ==> Ordered()) && m.SendBeginStep(size, r)
      ensures roles == Calling(old(roles), m, old(m.receivers.Keys), m.receivers.Keys)
    {
      hide Fit, AllTidy, AllApart, Parts, Owns, Calling, Closed, Unclaimed, Frame, Roused, ListsOk, ThreadsOk, FatesOk, Urgent, Linkage,
           Handed, Enqueued, Settled, Cancelled, Contents, Gone, Drained, Without, Members;
      QueueStart(m);
      ghost var v, r0, calls := kernel.See(), roles, m.receivers.Keys;
      r := m.SendBegin(size);
      roles := Calling(r0, m, calls, m.receivers.Keys);
      FrameNone(v, {m.recvHead}, {}, {}, kernel.wide);
      NobodyEnters(r0, calls, m.receivers.Keys, {});
      QueueDone(m, v, r0, calls, {}, {});
    }

    /** The unprotected copy of rt_mq_send */
    method QueueFillLast(m: MessageQueue, c: int, buffer: seq<int>)
      requires Valid() && m in objects && c in m.owner && m.owner[c] == Filling && |buffer| <= m.msgSize
      modifies this`roles, m`next, m`data, m`filled
      ensures Valid() && (old(Ordered()) ==> Ordered()) && m.FillLastStep(c, buffer)
      ensures roles == Calling(old(roles), m, old(m.receivers.Keys), m.receivers.Keys)
    {
      hide Fit, AllTidy, AllApart, Parts, Owns, Calling, Closed, Unclaimed, Frame, Roused, ListsOk, ThreadsOk, FatesOk, Urgent, Linkage,
           Handed, Enqueued, Settled, Cancelled, Contents, Gone, Drained, Without, Members;
      QueueStart(m);
      ghost var v, r0, calls := kernel.See(), roles, m.receivers.Keys;
      m.FillLast(c, buffer);
      roles := Calling(r0, m, calls, m.receivers.Keys);
      FrameNone(v, {m.recvHead}, {}, {}, kernel.wide);
      NobodyEnters(r0, calls, m.receivers.Keys, {});
      QueueDone(m, v, r0, calls, {}, {});
    }

    /** The unprotected copy of rt_mq_urgent */
    method QueueFillFirst(m: MessageQueue, c: int, buffer: seq<int>)
      requires Valid() && m in objects && c in m.owner && m.owner[c] == Filling && |buffer| <= m.msgSize
      modifies this`roles, m`data, m`filled
      ensures Valid() && (old(Ordered()) ==> Ordered()) && m.FillFirstStep(c, buffer)
      ensures roles == Calling(old(roles), m, old(m.receivers.Keys), m.receivers.Keys)
    {
      hide Fit, AllTidy, AllApart, Parts, Owns, Calling, Closed, Unclaimed, Frame, Roused, ListsOk, ThreadsOk, FatesOk, Urgent, Linkage,
           Handed, Enqueued, Settled, Cancelled, Contents, Gone, Drained, Without, Members;
      QueueStart(m);
      ghost var v, r0, calls := kernel.See(), roles, m.receivers.Keys;
      m.FillFirst(c, buffer);
      roles := Calling(r0, m, calls, m.receivers.Keys);
      FrameNone(v, {m.recvHead}, {}, {}, kernel.wide);
      NobodyEnters(r0, calls, m.receivers.Keys, {});
      QueueDone(m, v, r0, calls, {}, {});
    }

    /** The second region of rt_mq_send */
    method QueueSendEnd(m: MessageQueue, c: int)
      requires Valid() && m in objects && c in m.filled && m.filled[c].last
      modifies this`roles, m, kernel
      ensures Valid() && (old(Ordered()) ==> Ordered()) && m.SendEndStep(c)
      ensures roles == Calling(old(roles), m, old(m.receivers.Keys), m.receivers.Keys)
    {
      hide Fit, AllTidy, AllApart, Parts, Owns, Calling, Closed, Unclaimed, Frame, Roused, ListsOk, ThreadsOk, FatesOk, Urgent, Linkage,
           Handed, Enqueued, Settled, Cancelled, Contents, Gone, Drained, Without, Members;
      QueueStart(m);
      ghost var v, r0, calls := kernel.See(), roles, m.receivers.Keys;
      m.SendEnd(c);
      roles := Calling(r0, m, calls, m.receivers.Keys);
      NobodyEnters(r0, calls, m.receivers.Keys, {});
      QueueDone(m, v, r0, calls, {}, {});
    }

    /** The second region of rt_mq_urgent */
    method QueueUrgentEnd(m: MessageQueue, c: int)
      requires Valid() && m in objects && c in m.filled && !m.filled[c].last
      modifies this`roles, m, kernel
      ensures Valid() && (old(Ordered()) ==> Ordered()) && m.UrgentEndStep(c)
      ensures roles == Calling(old(roles), m, old(m.receivers.Keys), m.receivers.Keys)
    {
      hide Fit, AllTidy, AllApart, Parts, Owns, Calling, Closed, Unclaimed, Frame, Roused, ListsOk, ThreadsOk, FatesOk, Urgent, Linkage,
           Handed, Enqueued, Settled, Cancelled, Contents, Gone, Drained, Without, Members;
      QueueStart(m);
      ghost var v, r0, calls := kernel.See(), roles, m.receivers.Keys;
      m.UrgentEnd(c);
      roles := Calling(r0, m, calls, m.receivers.Keys);
      NobodyEnters(r0, calls, m.receivers.Keys, {});
      QueueDone(m, v, r0, calls, {}, {});
    }

    /** rt_mq_recv */
    method QueueRecv(m: MessageQueue, t: int, timeout: int) returns (r: Taken)
      requires Valid() && m in objects && t !in roles.calls
      requires m.entry == 0 && timeout != 0 ==> t in kernel.at && kernel.threads[t].stat == Ready
      modifies this`roles, m, kernel
      ensures Valid() && (old(Ordered()) ==> Ordered()) && m.RecvStep(t, timeout, r)
      ensures roles == Calling(old(roles), m, old(m.receivers.Keys), m.receivers.Keys)
    {
      hide Fit, AllTidy, AllApart, Parts, Owns, Calling, Closed, Unclaimed, Frame, Roused, ListsOk, ThreadsOk, FatesOk, Urgent, Linkage,
           Handed, Enqueued, Settled, Cancelled, Contents, Gone, Drained, Without, Members;
      QueueStart(m);
      ghost var v, r0, calls := kernel.See(), roles, m.receivers.Keys;
      r := m.Recv(t, timeout);
      roles := Calling(r0, m, calls, m.receivers.Keys);
      OneEnters(r0, calls, m.receivers.Keys, t);
      QueueDone(m, v, r0, calls, {t}, {});
    }

    /** A receiver that blocked runs again */
    method QueueRecvAgain(m: MessageQueue, t: int, left: int) returns (r: Taken)
      requires Valid() && m in objects && t in m.receivers && m.receivers[t] != Waiting
      modifies this`roles, m, kernel
      ensures Valid() && (old(Ordered()) ==> Ordered()) && m.RecvAgainStep(t, left, r)
      ensures roles == Calling(old(roles), m, old(m.receivers.Keys), m.receivers.Keys)
    {
      hide Fit, AllTidy, AllApart, Parts, Owns, Calling, Closed, Unclaimed, Frame, Roused, ListsOk, ThreadsOk, FatesOk, Urgent, Linkage,
           Handed, Enqueued, Settled, Cancelled, Contents, Gone, Drained, Without, Members;
      QueueStart(m);
      ghost var v, r0, calls := kernel.See(), roles, m.receivers.Keys;
      r := m.RecvAgain(t, left);
      roles := Calling(r0, m, calls, m.receivers.Keys);
      OneEnters(r0, calls, m.receivers.Keys, t);
      QueueDone(m, v, r0, calls, {t}, {});
    }

    /** The second region of rt_mq_recv */
    method QueueRecvEnd(m: MessageQueue, c: int)
      requires Valid() && m in objects && c in m.taken
      modifies this`roles, m
      ensures Valid() && (old(Ordered()) ==> Ordered()) && m.RecvEndStep(c)
      ensures roles == Calling(old(roles), m, old(m.receivers.Keys), m.receivers.Keys)
    {
      hide Fit, AllTidy, AllApart, Parts, Owns, Calling, Closed, Unclaimed, Frame, Roused, ListsOk, ThreadsOk, FatesOk, Urgent, Linkage,
           Handed, Enqueued, Settled, Cancelled, Contents, Gone, Drained, Without, Members;
      QueueStart(m);
      ghost var v, r0, calls := kernel.See(), roles, m.receivers.Keys;
      m.RecvEnd(c);
      roles := Calling(r0, m, calls, m.receivers.Keys);
      FrameNone(v, {m.recvHead}, {}, {}, kernel.wide);
      NobodyEnters(r0, calls, m.receivers.Keys, {});
      QueueDone(m, v, r0, calls, {}, {});
    }

    /** A waiter's timer expires */
    method QueueTimeout(m: MessageQueue, t: int)
      requires Valid() && m in objects && t in m.receivers && m.receivers[t] == Waiting && t in kernel.threads && kernel.threads[t].armed
      modifies this`roles, m`receivers, kernel
      ensures Valid() && (old(Ordered()) ==> Ordered()) && m.TimeoutStep(t)
      ensures roles == Calling(old(roles), m, old(m.receivers.Keys), m.receivers.Keys)
    {
      hide Fit, AllTidy, AllApart, Parts, Owns, Calling, Closed, Unclaimed, Frame, Roused, ListsOk, ThreadsOk, FatesOk, Urgent, Linkage,
           Handed, Enqueued, Settled, Cancelled, Contents, Gone, Drained, Without, Members;
      QueueStart(m);
      ghost var v, r0, calls := kernel.See(), roles, m.receivers.Keys;
      m.Timeout(t);
      roles := Calling(r0, m, calls, m.receivers.Keys);
      OneEnters(r0, calls, m.receivers.Keys, t);
      QueueDone(m, v, r0, calls, {t}, {});
    }

    /** RT_IPC_CMD_RESET */
    method QueueReset(m: MessageQueue)
      requires Valid() && m in objects
      modifies this`roles, m, kernel
      ensures Valid() && (old(Ordered()) ==> Ordered()) && m.ResetStep()
      ensures roles == Calling(old(roles), m, old(m.receivers.Keys), m.receivers.Keys)
    {
      hide Fit, AllTidy, AllApart, Parts, Owns, Calling, Closed, Unclaimed, Frame, Roused, ListsOk, ThreadsOk, FatesOk, Urgent, Linkage,
           Handed, Enqueued, Settled, Cancelled, Contents, Gone, Drained, Without, Members;
      QueueStart(m);
      ghost var v, r0, calls := kernel.See(), roles, m.receivers.Keys;
      m.Reset();
      roles := Calling(r0, m, calls, m.receivers.Keys);
      NobodyEnters(r0, calls, m.receivers.Keys, Members(v.q[m.recvHead]));
      QueueDone(m, v, r0, calls, Members(v.q[m.recvHead]), {});
    }

    lemma Apartness()
      requires Valid()
      ensures kernel !in objects && this !in objects && Fit({}, kernel.See(), roles) && Closed(roles)
      ensures Ordered() ==> AllTidy({}, kernel.See())
    {
      hide Fit, AllTidy, ListsOk, ThreadsOk;
    }

    ghost predicate SomeReady()
      reads kernel
    {
      exists t :: t in kernel.at && t in kernel.threads && kernel.threads[t].stat == Ready
    }

    /** rt_thread_init */
    method Create(t: int, prio: nat, slice: nat)
      requires Valid() && t !in kernel.at && 0 < t && prio < Limit(kernel.wide)
      modifies kernel`links, kernel`threads, kernel`at
      ensures Valid() && (old(Ordered()) ==> Ordered()) && kernel.AddThreadStep(t, prio, slice)
    {
      hide Fit, AllTidy, AllApart, Closed, Frame, Roused, ListsOk, ThreadsOk;
      Apartness();
      ghost var v := kernel.See();
      kernel.AddThread(t, prio, slice);
      ThreadDone(v, {}, {}, {});
    }

    /** rt_thread_startup */
    method Startup(t: int)
      requires Valid() && t in kernel.at && t in kernel.threads && kernel.threads[t].stat == Init
      modifies kernel`links, kernel`threads, kernel`index, kernel`q, kernel`at, kernel`current, kernel`currentPriority
      ensures Valid() && (old(Ordered() && AllApart({}, kernel.See(), {t})) ==> Ordered()) && kernel.StartupStep(t)
    {
      hide Fit, AllTidy, AllApart, Closed, Frame, Roused, ListsOk, ThreadsOk, Moved;
      Apartness();
      ghost var v := kernel.See();
      kernel.Startup(t);
      ThreadDone(v, {}, {}, {t});
    }

    /** rt_system_scheduler_start */
    method StartScheduler()
      requires Valid() && SomeReady()
      modifies kernel`current
      ensures Valid() && (old(Ordered()) ==> Ordered()) && kernel.First(kernel.current)
    {
      hide Fit, AllTidy, AllApart, Closed, Frame, Roused, ListsOk, ThreadsOk;
      Apartness();
      ghost var v := kernel.See();
      kernel.Start();
      FrameNone(v, {}, {}, {}, kernel.wide);
      ThreadDone(v, {}, {}, {});
    }

    /** rt_schedule */
    method Schedule()
      requires Valid() && (kernel.lockNest == 0 ==> SomeReady())
      modifies kernel`current, kernel`currentPriority
      ensures Valid() && (old(Ordered()) ==> Ordered()) && kernel.ScheduleStep()
    {
      hide Fit, AllTidy, AllApart, Closed, Frame, Roused, ListsOk, ThreadsOk;
      Apartness();
      ghost var v := kernel.See();
      kernel.Schedule();
      FrameNone(v, {}, {}, {}, kernel.wide);
      ThreadDone(v, {}, {}, {});
    }

    /** rt_enter_critical */
    method EnterCritical()
      requires Valid()
      modifies kernel`lockNest
      ensures Valid() && (old(Ordered()) ==> Ordered()) && kernel.lockNest == old(kernel.lockNest) + 1
    {
      hide Fit, AllTidy, AllApart, Closed, Frame, Roused, ListsOk, ThreadsOk;
      Apartness();
      ghost var v := kernel.See();
      kernel.EnterCritical();
      FrameNone(v, {}, {}, {}, kernel.wide);
      ThreadDone(v, {}, {}, {});
    }

    /** rt_exit_critical */
    method ExitCritical()
      requires Valid() && (kernel.lockNest <= 1 ==> SomeReady())
      modifies kernel`lockNest, kernel`current, kernel`currentPriority
      ensures Valid() && (old(Ordered()) ==> Ordered()) && kernel.ExitCriticalStep()
    {
      hide Fit, AllTidy, AllApart, Closed, Frame, Roused, ListsOk, ThreadsOk;
      Apartness();
      ghost var v := kernel.See();
      kernel.ExitCritical();
      FrameNone(v, {}, {}, {}, kernel.wide);
      ThreadDone(v, {}, {}, {});
    }

    /** rt_thread_yield */
    method Yield()
      requires Valid() && kernel.current in kernel.at && (kernel.lockNest == 0 ==> SomeReady())
      modifies kernel`links, kernel`q, kernel`at, kernel`current, kernel`currentPriority
      ensures Valid() && (old(Ordered()) ==> Ordered()) && kernel.YieldStep()
    {
      hide Fit, AllTidy, AllApart, Closed, Frame, Roused, ListsOk, ThreadsOk, Moved;
      Apartness();
      ghost var v := kernel.See();
      kernel.Yield();
      ThreadDone(v, {}, {}, {});
    }

    /** The end of a time slice */
    method TimeSlice()
      requires Valid() && kernel.current in kernel.at && kernel.current in kernel.threads && (kernel.lockNest == 0 ==> SomeReady())
      modifies kernel`links, kernel`threads, kernel`q, kernel`at, kernel`current, kernel`currentPriority
      ensures Valid() && (old(Ordered()) ==> Ordered()) && kernel.TimeSliceStep()
    {
      hide Fit, AllTidy, AllApart, Closed, Frame, Roused, ListsOk, ThreadsOk, Moved;
      Apartness();
      ghost var v := kernel.See();
      kernel.TimeSlice();
      ThreadDone(v, {}, {}, {});
    }

    /** rt_thread_sleep, by a thread in no call */
    method Sleep()
      requires Valid() && kernel.current in kernel.at && kernel.current in kernel.threads
      requires kernel.current !in roles.calls && kernel.threads[kernel.current].stat == Ready
      modifies kernel`links, kernel`threads, kernel`index, kernel`q, kernel`at
      ensures Valid() && (old(Ordered()) ==> Ordered()) && kernel.SleepStep()
    {
      hide Fit, AllTidy, AllApart, Closed, Frame, Roused, ListsOk, ThreadsOk, Leave;
      Apartness();
      ghost var v := kernel.See();
      kernel.Sleep();
      ThreadDone(v, {}, {kernel.current}, {});
    }

    /** The end of rt_thread_sleep */
    method SleepEnd(t: int)
      requires Valid() && t in kernel.at && t in kernel.threads && t !in roles.calls
      modifies kernel`threads
      ensures Valid() && (old(Ordered()) ==> Ordered()) && kernel.SleepEndStep(t)
    {
      hide Fit, AllTidy, AllApart, Closed, Frame, Roused, ListsOk, ThreadsOk;
      Apartness();
      ghost var v := kernel.See();
      kernel.SleepEnd(t);
      ThreadDone(v, {}, {t}, {});
    }

    /** The timer of a sleeping thread expires */
    method Wake(t: int)
      requires Valid() && t in kernel.at && t in kernel.threads && kernel.threads[t].armed && kernel.at[t] == t && t !in roles.calls
      modifies kernel`links, kernel`threads, kernel`index, kernel`q, kernel`at
      ensures Valid() && (old(Ordered()) ==> Ordered()) && kernel.TimeoutStep(t)
    {
      hide Fit, AllTidy, AllApart, Closed, Frame, Roused, ListsOk, ThreadsOk, Woken;
      Apartness();
      ghost var v := kernel.See();
      kernel.StatOf(t);
      kernel.Timeout(t);
      ThreadDone(v, {t}, {t}, {});
    }

    /** rt_thread_suspend of a thread in no call */
    method Suspend(t: int) returns (ok: bool)
      requires Valid() && t in kernel.at && t !in roles.calls
      modifies kernel`links, kernel`threads, kernel`index, kernel`q, kernel`at
      ensures Valid() && (old(Ordered()) ==> Ordered()) && kernel.SuspendStep(t, ok)
    {
      hide Fit, AllTidy, AllApart, Closed, Frame, Roused, ListsOk, ThreadsOk, Leave;
      Apartness();
      ghost var v := kernel.See();
      ok := kernel.Suspend(t);
      ThreadDone(v, {}, {t}, {});
    }

    /** rt_thread_resume of a thread in no suspend list */
    method Resume(t: int) returns (ok: bool)
      requires Valid() && t in kernel.at && kernel.at[t] == t
      modifies kernel`links, kernel`threads, kernel`index, kernel`q, kernel`at
      ensures Valid() && (old(Ordered()) ==> Ordered()) && kernel.ResumeStep(t, ok)
    {
      hide Fit, AllTidy, AllApart, Closed, Frame, Roused, ListsOk, ThreadsOk, Woken;
      Apartness();
      ghost var v := kernel.See();
      kernel.StatOf(t);
      ok := kernel.Resume(t);
      ThreadDone(v, {t}, {}, {});
    }

    /** RT_THREAD_CTRL_CHANGE_PRIORITY */
    method SetPriority(t: int, prio: nat)
      requires Valid() && t in kernel.at && prio < Limit(kernel.wide)
      modifies kernel`links, kernel`threads, kernel`index, kernel`q, kernel`at
      ensures Valid() && (old(Ordered() && AllApart({}, kernel.See(), {t})) ==> Ordered()) && kernel.SetPriorityStep(t, prio)
    {
      hide Fit, AllTidy, AllApart, Closed, Frame, Roused, ListsOk, ThreadsOk, Moved, OtherWaits, AttrOf;
      Apartness();
      ghost var v := kernel.See();
      kernel.SetPriority(t, prio);
      ThreadDone(v, {}, {}, {t});
    }

    /** rt_thread_exit, by a thread in no call */
    method Exit(detached: bool)
      requires Valid() && kernel.current in kernel.at && kernel.current in kernel.threads
      requires kernel.current !in roles.calls && kernel.threads[kernel.current].stat == Ready
      modifies kernel`links, kernel`threads, kernel`index, kernel`q, kernel`at
      ensures Valid() && (old(Ordered()) ==> Ordered()) && kernel.ExitStep(detached)
    {
      hide Fit, AllTidy, AllApart, Closed, Frame, Roused, ListsOk, ThreadsOk, Leave;
      Apartness();
      ghost var v := kernel.See();
      kernel.Exit(detached);
      ThreadDone(v, {DEFUNCT}, {kernel.current}, {});
    }

    /** rt_thread_delete of a started thread in no call and no suspend list */
    method Delete(t: int)
      requires Valid() && t in kernel.at && t in kernel.threads && t !in roles.calls && DEFUNCT <= kernel.at[t]
      requires kernel.threads[t].stat == Ready || kernel.threads[t].stat == Stat.Suspend
      modifies kernel`links, kernel`threads, kernel`index, kernel`q, kernel`at
      ensures Valid() && (old(Ordered()) ==> Ordered()) && kernel.DeleteStep(t)
    {
      hide Fit, AllTidy, AllApart, Closed, Frame, Roused, ListsOk, ThreadsOk, Leave, Join;
      Apartness();
      ghost var v := kernel.See();
      ghost var was := kernel.at[t];
      kernel.Delete(t);
      ThreadDone(v, {was, DEFUNCT}, {t}, {});
    }

    /** A semaphore is released and a mail is sent: each call wakes whoever waits first for its object, and
        nobody else, as if there were no other. */
    method SignalAndSend(s: Semaphore, b: Mailbox, t: int, value: int)
      requires Valid() && s in objects && b in objects && t !in roles.calls && |b.box| < b.pool.Length
      modifies this`roles, s, b, b.pool, kernel
      ensures Valid() && (old(Ordered()) ==> Ordered()) && s.head in old(kernel.q) && b.recvHead in old(kernel.q)
      ensures Roused(old(kernel.threads), kernel.threads, Foremost(old(kernel.q)[s.head]) + Foremost(old(kernel.q)[b.recvHead]), {})
      ensures b.receivers == FirstWoken(old(b.receivers), old(kernel.q)[b.recvHead]) && b.box == old(b.box) + [value]
    {
      hide Fit, AllTidy, AllApart, Owns, Closed, Unclaimed, Frame, Roused, ListsOk, ThreadsOk, FatesOk, Urgent, Handed, Settled, RingOk,
           FirstWoken, Foremost, Calling;
      SemStart(s);
      BoxStart(b);
      OwnApart(roles, s, {s.head}, s.fate.Keys, b, b.Heads(), b.receivers.Keys + b.senders.Keys);
      ghost var v, r0, calls := kernel.See(), roles, s.fate.Keys;
      SemRelease(s);
      ListStays(b.recvHead, v, kernel.See(), {s.head}, {}, {}, kernel.wide);
      SameCallers(r0, s, calls, s.fate.Keys, {s.head});
      ghost var threads1 := kernel.threads;
      var r := BoxSend(b, t, value, 0);
      RousedBoth(old(kernel.threads), threads1, kernel.threads, Foremost(old(kernel.q)[s.head]), Foremost(old(kernel.q)[b.recvHead]));
    }
  }

  /** From the start to the first thread on the processor. */
  method Boot(wide: bool, prio: nat, slice: nat) returns (y: System, s: Semaphore)
    requires prio < 32
    ensures fresh(y) && fresh(y.kernel) && fresh(s) && y.Valid() && s in y.objects && s.kernel == y.kernel && s.value == 0 && s.fate == map[]
    ensures y.kernel.wide == wide && s.head in y.kernel.q && y.kernel.q[s.head] == [] && y.roles.calls == map[]
    ensures 1 in y.kernel.at && 1 in y.kernel.threads && y.kernel.threads[1].stat == Ready && y.kernel.current == 1
  {
    hide InOrder, RingsOk, ListsOk, ThreadsOk, Frame, System.Fit, System.AllTidy, System.AllApart, Semaphore.Valid, Moved;
    y, s := Setup(wide);
    y.Create(1, prio, slice);
    ghost var v := y.kernel.See();
    y.Startup(1);
    ListStays(s.head, v, y.kernel.See(), {}, {}, {1}, wide);
    y.StartScheduler();
  }

  /** A kernel without threads and a semaphore. */
  method Setup(wide: bool) returns (y: System, s: Semaphore)
    ensures fresh(y) && fresh(y.kernel) && fresh(s) && y.Valid() && s in y.objects && s.kernel == y.kernel && s.value == 0 && s.fate == map[]
    ensures y.kernel.wide == wide && s.head < DEFUNCT && s.head in y.kernel.q && y.kernel.q[s.head] == [] && y.roles.calls == map[]
    ensures y.kernel.at == map[] && y.kernel.threads == map[] && y.kernel.current == 0 && y.kernel.lockNest == 0
  {
    hide InOrder, RingsOk, Sorted, ListsOk, ThreadsOk, Frame, System.Fit, System.AllTidy, System.AllApart, Semaphore.Valid;
    var k := new Kernel(wide);
    y := new System(k);
    s := y.NewSemaphore(DEFUNCT - 1, 0, true);
  }

  /** A thread waits for a semaphore nobody else waits for, and its release lets it run again. */
  method WaitAndWake(y: System, s: Semaphore, t: int)
    requires y.Valid() && s in y.objects && s.kernel == y.kernel && s.value == 0 && s.head in y.kernel.q && y.kernel.q[s.head] == []
    requires t in y.kernel.at && t in y.kernel.threads && y.kernel.threads[t].stat == Ready && t !in y.roles.calls
    modifies y`roles, s, y.kernel
    ensures y.Valid() && s.fate == old(s.fate)[t := Granted] && s.value == 0
    ensures t in y.kernel.threads && Running(y.kernel.threads[t])
  {
    hide InOrder, RingsOk, Sorted, ListsOk, ThreadsOk, Frame, System.Fit, System.AllTidy, System.AllApart, Semaphore.Valid, Settled, Calling;
    var r := y.SemTake(s, t, -1);
    y.SemRelease(s);
  }

  /** A run: the only thread waits for a semaphore, is woken by its release and can run again. */
  method FirstRun(wide: bool, prio: nat, slice: nat) returns (y: System, s: Semaphore)
    requires prio < 32
    ensures fresh(y) && y.Valid() && s in y.objects && s.fate == map[1 := Granted] && s.value == 0
    ensures y.kernel.wide == wide && 1 in y.kernel.threads && Running(y.kernel.threads[1])
  {
    hide InOrder, RingsOk, Sorted, ListsOk, ThreadsOk, System.Fit, System.AllTidy, System.AllApart;
    y, s := Boot(wide, prio, slice);
    WaitAndWake(y, s, 1);
  }
}
