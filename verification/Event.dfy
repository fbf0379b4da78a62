/** ipc.c, events. The reference is rt_event_recv without waiting (Poll): sending wakes exactly the
    waiters whose poll would succeed, one after the other. A method is one region with interrupts
    disabled. */
module Events {
  import opened RtList
  import opened Queues
  import opened ReadyIndex
  import opened Kernel
  import opened Waits

  const FLAG_AND: bv32 := 1
  const FLAG_OR: bv32 := 2
  const FLAG_CLEAR: bv32 := 4

  /** The condition of rt_event_recv and rt_event_send. */
  predicate Met(have: bv32, want: bv32, info: bv32) {
    if info & FLAG_AND != 0 then have & want == want else info & FLAG_OR != 0 && have & want != 0
  }

  /** What a receive that need not wait clears. */
  function After(have: bv32, want: bv32, info: bv32): bv32 {
    if info & FLAG_CLEAR != 0 then have & !want else have
  }

  /** What such a receive returns. */
  function Meet(have: bv32, want: bv32): bv32 {
    have & want
  }

  /** The branches of the loop of rt_event_send: whether the waiter is served, and its event_set then. */
  function Decide(have: bv32, want: bv32, info: bv32): (bool, bv32) {
    if info & FLAG_AND != 0 then
      if want & have == want then (true, want) else (false, want)
    else if info & FLAG_OR != 0 then
      if want & have != 0 then (true, want & have) else (false, want)
    else
      (false, want)
  }

  function Cleared(have: bv32, mine: bv32, info: bv32): bv32 {
    if info & FLAG_CLEAR != 0 then have & !mine else have
  }

  /** The loop serves a waiter as a poll would. */
  lemma DecideIsPoll(have: bv32, want: bv32, info: bv32)
    ensures var d := Decide(have, want, info);
            (d.0 <==> Met(have, want, info)) && (d.0 ==> d.1 == Meet(have, want) && Cleared(have, d.1, info) == After(have, want, info))
  {
    Swap(want, have);
    ClearSame(have, want);
  }

  lemma Swap(a: bv32, b: bv32)
    ensures a & b == b & a
  {
  }

  /** Clearing what was received clears what was asked for. */
  lemma ClearSame(have: bv32, want: bv32)
    ensures have & !(have & want) == have & !want
  {
  }

  // ---- the condition, what is received and what is left, one bit at a time ----

  lemma MetBits(have: bv32, want: bv32, info: bv32)
    ensures info & FLAG_AND != 0 ==> (Met(have, want, info) <==> forall p :: 0 <= p < 32 && Bit(want, p) ==> Bit(have, p))
    ensures info & FLAG_AND == 0 && info & FLAG_OR != 0 ==>
              (Met(have, want, info) <==> exists p :: 0 <= p < 32 && Bit(want, p) && Bit(have, p))
    ensures info & FLAG_AND == 0 && info & FLAG_OR == 0 ==> !Met(have, want, info)
  {
    AllHeld(have, want);
    SomeHeld(have, want);
    hide Bit;
  }

  lemma AllHeld(have: bv32, want: bv32)
    ensures have & want == want <==> forall p :: 0 <= p < 32 && Bit(want, p) ==> Bit(have, p)
  {
    hide Bit;
    Lacks(have, want);
    NoBit(!have & want);
    forall p | 0 <= p < 32 ensures Bit(!have & want, p) <==> !Bit(have, p) && Bit(want, p) {
      AndBit(!have, want, p);
      NotBit(have, p);
    }
  }

  lemma Lacks(have: bv32, want: bv32)
    ensures have & want == want <==> !have & want == 0
  {
    var held, lacking := have & want, !have & want;
    Parted(have, want);
    if lacking == 0 { OrZero(held); }
  }

  lemma Parted(have: bv32, want: bv32)
    ensures want == (have & want) | (!have & want)
    ensures want & (!have & want) == !have & want && (have & want) & (!have & want) == 0
  {
  }

  lemma OrZero(a: bv32)
    ensures a | 0 == a
  {
  }

  lemma SomeHeld(have: bv32, want: bv32)
    ensures have & want != 0 <==> exists p :: 0 <= p < 32 && Bit(want, p) && Bit(have, p)
  {
    hide Bit;
    NoBit(have & want);
    forall p | 0 <= p < 32 ensures Bit(have & want, p) <==> Bit(have, p) && Bit(want, p) { AndBit(have, want, p); }
  }

  lemma MeetBits(have: bv32, want: bv32, p: nat)
    requires p < 32
    ensures Bit(Meet(have, want), p) <==> Bit(have, p) && Bit(want, p)
  {
    hide Bit;
    AndBit(have, want, p);
  }

  lemma AddedBits(have: bv32, want: bv32, p: nat)
    ensures Bit(Added(have, want), p) <==> Bit(have, p) || Bit(want, p)
  {
    hide Bit;
    OrBit(have, want, p);
  }

  lemma AfterBits(have: bv32, want: bv32, info: bv32, p: nat)
    requires p < 32
    ensures Bit(After(have, want, info), p) <==> Bit(have, p) && !(info & FLAG_CLEAR != 0 && Bit(want, p))
  {
    hide Bit;
    if info & FLAG_CLEAR != 0 { ClearBit(have, want, p); }
  }

  /** What a thread asked for, and how. */
  datatype Ask = Ask(want: bv32, info: bv32)

  /** With AND all that was asked for is received, with OR a part of it that is not empty. */
  predicate Answers(v: bv32, ask: Ask) {
    if ask.info & FLAG_AND != 0 then v == ask.want else v != 0 && Within(v, ask.want)
  }

  lemma MetAnswers(have: bv32, want: bv32, info: bv32)
    requires Met(have, want, info)
    ensures Answers(Meet(have, want), Ask(want, info))
  {
    if info & FLAG_AND == 0 { MeetWithin(have, want); }
  }

  lemma MeetWithin(have: bv32, want: bv32)
    ensures Within(have & want, want)
  {
  }

  /** What has become of the waiters: who still waits, the event set, what each woken one received. */
  datatype Round = Round(rest: seq<int>, have: bv32, got: map<int, bv32>)

  /** Each waiter in turn polls the set that those before it left. */
  ghost function Turns(s: seq<int>, threads: map<int, Thread>, have: bv32): Round {
    if s == [] then Round([], have, map[])
    else
      var r, t := Turns(s[..|s| - 1], threads, have), s[|s| - 1];
      if t in threads && Met(r.have, threads[t].eventSet, threads[t].eventInfo)
      then Round(r.rest, After(r.have, threads[t].eventSet, threads[t].eventInfo), r.got[t := Meet(r.have, threads[t].eventSet)])
      else Round(r.rest + [t], r.have, r.got)
  }

  predicate Within(a: bv32, b: bv32) {
    a & b == a
  }

  /** Nobody waits for a condition that holds. */
  ghost predicate Quiet(s: seq<int>, threads: map<int, Thread>, have: bv32) {
    forall t :: t in s ==> t in threads && !Met(have, threads[t].eventSet, threads[t].eventInfo)
  }

  lemma AfterWithin(have: bv32, want: bv32, info: bv32)
    ensures Within(After(have, want, info), have)
  {
    if info & FLAG_CLEAR != 0 { ClearWithin(have, want); } else { WithinSelf(have); }
  }

  lemma ClearWithin(have: bv32, want: bv32)
    ensures (have & !want) & have == have & !want
  {
  }

  lemma WithinTrans(a: bv32, b: bv32, c: bv32)
    requires Within(a, b) && Within(b, c)
    ensures Within(a, c)
  {
  }

  lemma WithinSelf(a: bv32)
    ensures Within(a, a)
  {
  }

  /** A condition that a smaller set meets is met by the larger one. */
  lemma MetGrows(a: bv32, b: bv32, want: bv32, info: bv32)
    requires Within(a, b) && Met(a, want, info)
    ensures Met(b, want, info)
  {
    if info & FLAG_AND != 0 { AndGrows(a, b, want); } else { OrGrows(a, b, want); }
  }

  lemma AndGrows(a: bv32, b: bv32, want: bv32)
    requires a & b == a && a & want == want
    ensures b & want == want
  {
  }

  lemma OrGrows(a: bv32, b: bv32, want: bv32)
    requires a & b == a
    ensures a & want != 0 ==> b & want != 0
  {
  }

  /** After a whole round, although the set has shrunk on the way, no condition of those left is met. */
  lemma {:induction false} TurnsQuiet(s: seq<int>, threads: map<int, Thread>, have: bv32)
    requires forall t :: t in s ==> t in threads
    ensures var r := Turns(s, threads, have);
            Within(r.have, have) && Quiet(r.rest, threads, r.have)
    ensures forall t :: t in Turns(s, threads, have).rest ==> t in s
    ensures forall t :: t in Turns(s, threads, have).got ==> t in s
  {
    hide Met, After, Within, Meet;
    WithinSelf(have);
    if s != [] {
      TurnsQuiet(s[..|s| - 1], threads, have);
      var r, t := Turns(s[..|s| - 1], threads, have), s[|s| - 1];
      var want, info := threads[t].eventSet, threads[t].eventInfo;
      if Met(r.have, want, info) {
        AfterWithin(r.have, want, info);
        WithinTrans(After(r.have, want, info), r.have, have);
        QuietShrinks(r.rest, threads, r.have, After(r.have, want, info));
      }
    }
  }

  /** What each woken waiter receives answers what its block asked for. */
  lemma {:induction false} TurnsAnswer(s: seq<int>, threads: map<int, Thread>, have: bv32)
    ensures var r := Turns(s, threads, have);
            forall t :: t in r.got ==> t in threads && Answers(r.got[t], Ask(threads[t].eventSet, threads[t].eventInfo))
  {
    hide Met, After, Meet, Answers;
    if s != [] {
      TurnsAnswer(s[..|s| - 1], threads, have);
      var r, t := Turns(s[..|s| - 1], threads, have), s[|s| - 1];
      if t in threads && Met(r.have, threads[t].eventSet, threads[t].eventInfo) {
        MetAnswers(r.have, threads[t].eventSet, threads[t].eventInfo);
      }
    }
  }

  lemma QuietShrinks(s: seq<int>, threads: map<int, Thread>, have: bv32, less: bv32)
    requires Quiet(s, threads, have) && Within(less, have)
    ensures Quiet(s, threads, less)
  {
    hide Met, Within;
    forall t | t in s ensures !Met(less, threads[t].eventSet, threads[t].eventInfo) {
      if Met(less, threads[t].eventSet, threads[t].eventInfo) {
        MetGrows(less, have, threads[t].eventSet, threads[t].eventInfo);
      }
    }
  }

  datatype Received = Refused | Got(set32: bv32) | Empty | Pending

  /** The block of each woken waiter, and nothing else, has changed. */
  ghost predicate Served(threads: map<int, Thread>, threads2: map<int, Thread>, got: map<int, bv32>) {
    && threads2.Keys == threads.Keys
    && (forall t :: t in threads && t !in got ==> t in threads2 && threads2[t] == threads[t])
    && (forall t :: t in threads && t in got ==>
          t in threads2 && threads2[t] == threads[t].(stat := Ready, armed := false, eventSet := got[t]))
  }

  ghost function Granting(fate: map<int, Fate>, got: map<int, bv32>): map<int, Fate> {
    map t | t in fate.Keys + got.Keys :: if t in got then Granted else fate[t]
  }

  /** A waiter's block holds what it asked for, that of a woken one what it was given. */
  ghost predicate GotOk(fate: map<int, Fate>, got: map<int, bv32>, asked: map<int, Ask>, threads: map<int, Thread>) {
    && (forall t :: t in fate && fate[t] == Waiting ==>
          t in asked && t in threads && asked[t] == Ask(threads[t].eventSet, threads[t].eventInfo))
    && (forall t :: t in fate && fate[t] == Granted ==>
          t in got && t in asked && t in threads && threads[t].eventSet == got[t] && Answers(got[t], asked[t]))
  }

  class Event {
    const kernel: Kernel
    const head: int
    const byPriority: bool
    var have: bv32                   // event->set
    ghost var fate: map<int, Fate>
    ghost var got: map<int, bv32>    // what each woken waiter was given
    ghost var asked: map<int, Ask>

    /** The invariant, with the lists and control blocks of the kernel as in v. */
    ghost predicate Fits(v: View)
      reads this
    {
      && head < DEFUNCT && head in v.q && FatesOk(fate, v.q[head], v.threads)
      && Quiet(v.q[head], v.threads, have) && GotOk(fate, got, asked, v.threads)
    }

    ghost predicate Valid()
      reads this, kernel
    {
      kernel.Valid() && Fits(kernel.See())
    }

    ghost predicate OrderedIn(v: View)
      requires head in v.q
      reads this
    {
      byPriority ==> Urgent(v.q[head], v.threads)
    }

    ghost predicate Ordered()
      requires head in kernel.q
      reads this, kernel
    {
      OrderedIn(kernel.See())
    }

    /** rt_event_init */
    constructor (kernel: Kernel, head: int, byPriority: bool)
      requires kernel.Valid() && head < DEFUNCT && head !in kernel.q
      modifies kernel`links, kernel`q
      ensures Valid() && Ordered() && fate == map[] && have == 0
      ensures kernel.q == old(kernel.q)[head := []] && Frame(old(kernel.See()), kernel.See(), {}, {}, {}, kernel.wide)
      ensures this.kernel == kernel && this.head == head && this.byPriority == byPriority
    {
      hide ListsOk, ThreadsOk, Frame;
      this.kernel, this.head, this.byPriority, have := kernel, head, byPriority, 0;
      fate, got, asked := map[], map[], map[];
      new;
      kernel.AddList(head);
    }

    /** The body of the loop of rt_event_send for one waiter. */
    method Offer(t: int) returns (served: bool)
      requires kernel.Valid() && head < DEFUNCT && head in kernel.q && t in kernel.q[head] && t in kernel.threads
      modifies this`have, kernel
      ensures kernel.Valid() && head in kernel.q
      ensures served <==> Met(old(have), old(kernel.threads)[t].eventSet, old(kernel.threads)[t].eventInfo)
      ensures !served ==> have == old(have) && kernel.q == old(kernel.q) && kernel.threads == old(kernel.threads) && kernel.links == old(kernel.links)
      ensures served ==> have == After(old(have), old(kernel.threads)[t].eventSet, old(kernel.threads)[t].eventInfo)
      ensures served ==> kernel.q[head] == Without(old(kernel.q)[head], t)
      ensures served ==> kernel.threads == old(kernel.threads)[t := old(kernel.threads)[t].(stat := Ready, armed := false,
                                                                       eventSet := Meet(old(have), old(kernel.threads)[t].eventSet))]
      ensures old(Ordered()) ==> Ordered()
      ensures Frame(old(kernel.See()), kernel.See(), {head}, {t}, {}, kernel.wide)
    {
      hide ListsOk, ThreadsOk, SameWaits, Urgent, Without, Decide, Met, Meet, After, Cleared, Frame;
      ghost var v := kernel.See();
      FrameNone(v, {head}, {t}, {}, kernel.wide);
      kernel.WaiterFacts(head);
      var c := kernel.threads[t];
      DecideIsPoll(have, c.eventSet, c.eventInfo);
      var d := Decide(have, c.eventSet, c.eventInfo);
      served := d.0;
      if served {
        kernel.SetEvent(t, d.1, c.eventInfo);
        ghost var v1 := kernel.See();
        have := Cleared(have, d.1, c.eventInfo);
        kernel.ListWake(head, t);
        FrameThen(v, v1, kernel.See(), {}, {t}, {}, {head}, {}, {}, {head}, {t}, {}, kernel.wide);
      }
    }

    /** The turn of waiter n; the node behind it is read before n may leave the list. */
    method Turn(ghost s: seq<int>, ghost threads0: map<int, Thread>, ghost have0: bv32, ghost i: nat, n: int) returns (next: int)
      requires kernel.Valid() && head < DEFUNCT && head in kernel.q && Midway(s, threads0, have0, i, kernel.q[head], have, kernel.threads)
      requires i < |s| && n == s[i] && Distinct(s) && forall t :: t in s ==> t in threads0
      modifies this`have, kernel
      ensures kernel.Valid() && head in kernel.q && (old(Ordered()) ==> Ordered())
      ensures Midway(s, threads0, have0, i + 1, kernel.q[head], have, kernel.threads)
      ensures next == if i + 1 < |s| then s[i + 1] else head
      ensures Frame(old(kernel.See()), kernel.See(), {head}, Members(s), {}, kernel.wide)
    {
      hide ListsOk, ThreadsOk, Urgent, Midway, Met, Meet, After, Without, Frame;
      kernel.WaiterFacts(head);
      ghost var threads1, have1, now1 := kernel.threads, have, kernel.q[head];
      ghost var k := NextTurn(s, threads0, threads1, have0, have, i, now1);
      kernel.Walk(head, k + 1);
      next := kernel.links.next[n];
      var served := Offer(n);
      assert {n} <= Members(s);
      FrameWider(old(kernel.See()), kernel.See(), {head}, {n}, {}, {head}, Members(s), {}, kernel.wide);
      TurnTaken(s, threads0, threads1, kernel.threads, have0, have1, have, i, now1, kernel.q[head], served);
    }

    /** The loop of rt_event_send: one round over the waiters. */
    method Deliver(ghost s: seq<int>, ghost threads0: map<int, Thread>, ghost have0: bv32)
      requires kernel.Valid() && head < DEFUNCT && head in kernel.q
      requires s == kernel.q[head] && threads0 == kernel.threads && have0 == have
      modifies this`have, kernel
      ensures kernel.Valid() && head in kernel.q && (old(Ordered()) ==> Ordered())
      ensures Midway(s, threads0, have0, |s|, kernel.q[head], have, kernel.threads)
      ensures Frame(old(kernel.See()), kernel.See(), {head}, Members(s), {}, kernel.wide)
    {
      hide ListsOk, ThreadsOk, Urgent, Midway, Met, Meet, After, Without, Frame, Members;
      FrameNone(kernel.See(), {head}, Members(s), {}, kernel.wide);
      kernel.WaiterFacts(head);
      NotHead(s, head);
      NoTurn(s, threads0, have0);
      kernel.Walk(head, 0);
      var n := kernel.links.next[head];
      ghost var i := 0;
      while n != head
        modifies this`have, kernel
        invariant kernel.Valid() && head in kernel.q && 0 <= i <= |s| && (old(Ordered()) ==> Ordered())
        invariant n == if i < |s| then s[i] else head
        invariant Midway(s, threads0, have0, i, kernel.q[head], have, kernel.threads)
        invariant Frame(old(kernel.See()), kernel.See(), {head}, Members(s), {}, kernel.wide)
        decreases |s| - i
      {
        ghost var v := kernel.See();
        var next := Turn(s, threads0, have0, i, n);
        FrameMore(old(kernel.See()), v, kernel.See(), {head}, Members(s), {}, Members(s), Members(s), kernel.wide);
        n, i := next, i + 1;
      }
    }

    twostate predicate SendStep(set32: bv32, ok: bool)
      reads this, kernel
    {
      && head in old(kernel.q) && head in kernel.q && (ok <==> set32 != 0)
      && (!ok ==> have == old(have) && fate == old(fate) && kernel.q == old(kernel.q) && kernel.threads == old(kernel.threads))
      && (ok ==> var r := Turns(old(kernel.q)[head], old(kernel.threads), Added(old(have), set32));
                && kernel.q[head] == r.rest && have == r.have && fate == Granting(old(fate), r.got)
                && got == old(got) + r.got && Served(old(kernel.threads), kernel.threads, r.got))
      && asked == old(asked) && Settled(old(fate), fate) && fate.Keys == old(fate).Keys && Members(old(kernel.q)[head]) <= fate.Keys
      && Frame(old(kernel.See()), kernel.See(), {head}, Members(old(kernel.q)[head]), {}, kernel.wide)
      && (Roused(old(kernel.threads), kernel.threads,
                if ok then Turns(old(kernel.q)[head], old(kernel.threads), Added(old(have), set32)).got.Keys else {}, {}))
    }

    /** rt_event_send: an error for the empty set, otherwise a round over the waiters. */
    method Send(set32: bv32) returns (ok: bool)
      requires Valid()
      modifies this, kernel
      ensures Valid() && (old(Ordered()) ==> Ordered())
      ensures SendStep(set32, ok)
    {
      hide Roused, ListsOk, ThreadsOk, Urgent, Turns, Served, FatesOk, GotOk, Granting, Quiet, Settled, Added, Answers, Frame, Members;
      SettledSame(fate);
      FatesMembers(fate, kernel.q[head], kernel.threads);
      FrameNone(kernel.See(), {head}, Members(kernel.q[head]), {}, kernel.wide);
      RousedNone(kernel.threads);
      if set32 == 0 {
        return false;
      }
      have := Added(have, set32);
      ghost var s, threads0, have0 := kernel.q[head], kernel.threads, have;
      kernel.WaiterFacts(head);
      kernel.Asleep(head);
      Deliver(s, threads0, have0);
      AllTurns(s, threads0, kernel.threads, have0, kernel.q[head], have, fate, got, asked);
      RousedServed(s, threads0, kernel.threads, have0);
      ghost var r := Turns(s, threads0, have0);
      fate, got := Granting(fate, r.got), got + r.got;
      return true;
    }

    twostate predicate RecvStep(t: int, set32: bv32, option: bv32, timeout: int, r: Received)
      reads this, kernel
    {
      && head in old(kernel.q) && head in kernel.q && t in old(kernel.threads) && t in kernel.threads && got == old(got)
      && asked == (if r == Pending then old(asked)[t := Ask(set32, option)] else old(asked))
      && (r.Got? ==> Answers(r.set32, Ask(set32, option)))
      && (r == if set32 == 0 then Refused else if Met(old(have), set32, option) then Got(Meet(old(have), set32))
              else if timeout == 0 then Empty else Pending)
      && (have == if r.Got? then After(old(have), set32, option) else old(have))
      && (r != Pending ==> fate == old(fate) && kernel.q == old(kernel.q)) && (r.Got? ==> kernel.threads[t].error == EOk)
      && (r == Empty ==> kernel.threads[t].error == ETimeout)
      && (r == Pending ==> fate == old(fate)[t := Waiting] && kernel.threads[t].armed == (timeout > 0))
      && (r == Pending ==> kernel.threads[t].eventSet == set32 && kernel.threads[t].eventInfo == option)
      && (r == Pending ==> t in old(kernel.threads) && kernel.q[head] == Enqueued(old(kernel.q[head]), old(kernel.threads), t, byPriority))
      && Frame(old(kernel.See()), kernel.See(), {head}, {t}, {}, kernel.wide)
      && Roused(old(kernel.threads), kernel.threads, {}, if r == Pending then {t} else {})
    }

    /** rt_event_recv up to the point where the thread either returns or gives up the processor. */
    method Recv(t: int, set32: bv32, option: bv32, timeout: int) returns (r: Received)
      requires Valid() && t in kernel.at && kernel.threads[t].stat == Ready && t !in fate && HasMode(option)
      modifies this, kernel
      ensures Valid() && (old(Ordered()) ==> Ordered())
      ensures RecvStep(t, set32, option, timeout, r)
    {
      hide Roused, ListsOk, ThreadsOk, Urgent, Met, Meet, After, FatesOk, GotOk, Quiet, HasMode, Enqueued, Frame, Answers,
           Event.Fits, Event.OrderedIn, Event.Valid, Event.Ordered, Kernel.Valid;
      HeadKnown();
      RousedNone(kernel.threads);
      kernel.StatOf(t);
      FrameNone(kernel.See(), {head}, {t}, {}, kernel.wide);
      if set32 == 0 {
        return Refused;
      }
      r := Receive(t, set32, option, timeout);
      HeadKnown();
    }

    lemma HeadKnown()
      requires Valid()
      ensures head < DEFUNCT && head in kernel.q && kernel.Valid()
    {
    }

    /** rt_event_recv for a set that is not empty: the error is cleared first. */
    method Receive(t: int, set32: bv32, option: bv32, timeout: int) returns (r: Received)
      requires Valid() && t in kernel.at && kernel.threads[t].stat == Ready && t !in fate && t in kernel.threads
      modifies this`have, this`fate, this`asked, kernel
      ensures asked == if r == Pending then old(asked)[t := Ask(set32, option)] else old(asked)
      ensures Valid() && (old(Ordered()) ==> Ordered()) && t in kernel.threads
      ensures r.Got? ==> Answers(r.set32, Ask(set32, option))
      ensures r == if Met(old(have), set32, option) then Got(Meet(old(have), set32)) else if timeout == 0 then Empty else Pending
      ensures have == if r.Got? then After(old(have), set32, option) else old(have)
      ensures r != Pending ==> fate == old(fate) && kernel.q == old(kernel.q)
      ensures r.Got? ==> kernel.threads[t].error == EOk
      ensures r == Empty ==> kernel.threads[t].error == ETimeout
      ensures r == Pending ==> fate == old(fate)[t := Waiting] && kernel.threads[t].armed == (timeout > 0)
      ensures r == Pending ==> kernel.threads[t].eventSet == set32 && kernel.threads[t].eventInfo == option
      ensures r == Pending ==> kernel.q[head] == Enqueued(old(kernel.q[head]), old(kernel.threads), t, byPriority)
      ensures Frame(old(kernel.See()), kernel.See(), {head}, {t}, {}, kernel.wide)
      ensures Roused(old(kernel.threads), kernel.threads, {}, if r == Pending then {t} else {})
    {
      hide Roused, ListsOk, ThreadsOk, Urgent, Met, Meet, After, FatesOk, GotOk, Quiet, Enqueued, Frame, Answers,
           Event.Fits, Event.OrderedIn, Event.Valid, Event.Ordered, Kernel.Valid;
      HeadKnown();
      kernel.WaiterFacts(head);
      ghost var threads0 := kernel.threads;
      MarkError(t, EOk);
      ghost var v1, threads1 := kernel.See(), kernel.threads;
      EnqueuedSame(kernel.q[head], threads0, kernel.threads, t, byPriority);
      r := Poll(t, set32, option, timeout);
      RousedThen(threads0, threads1, kernel.threads, {}, if r == Pending then {t} else {});
      FrameThen(old(kernel.See()), v1, kernel.See(), {}, {t}, {}, {head}, {t}, {}, {head}, {t}, {}, kernel.wide);
    }

    /** The three outcomes of rt_event_recv for a set that is not empty. */
    method Poll(t: int, set32: bv32, option: bv32, timeout: int) returns (r: Received)
      requires Valid() && t in kernel.at && t !in fate
      requires t in kernel.threads && kernel.threads[t].stat == Ready && kernel.threads[t].error == EOk
      modifies this`have, this`fate, this`asked, kernel
      ensures asked == if r == Pending then old(asked)[t := Ask(set32, option)] else old(asked)
      ensures Valid() && (old(Ordered()) ==> Ordered()) && t in kernel.threads
      ensures r.Got? ==> Answers(r.set32, Ask(set32, option))
      ensures r == if Met(old(have), set32, option) then Got(Meet(old(have), set32)) else if timeout == 0 then Empty else Pending
      ensures have == if r.Got? then After(old(have), set32, option) else old(have)
      ensures r != Pending ==> fate == old(fate) && kernel.q == old(kernel.q)
      ensures r.Got? ==> kernel.threads[t].error == EOk
      ensures r == Empty ==> kernel.threads[t].error == ETimeout
      ensures r == Pending ==> fate == old(fate)[t := Waiting] && kernel.threads[t].armed == (timeout > 0)
      ensures r == Pending ==> kernel.threads[t].eventSet == set32 && kernel.threads[t].eventInfo == option
      ensures r == Pending ==> kernel.q[head] == Enqueued(old(kernel.q[head]), old(kernel.threads), t, byPriority)
      ensures Frame(old(kernel.See()), kernel.See(), {head}, {t}, {}, kernel.wide)
      ensures Roused(old(kernel.threads), kernel.threads, {}, if r == Pending then {t} else {})
    {
      hide Roused, ListsOk, ThreadsOk, Urgent, Met, Meet, After, Answers, FatesOk, GotOk, Quiet, Enqueued, Frame;
      RousedNone(kernel.threads);
      if Met(have, set32, option) {
        MetAnswers(have, set32, option);
        r := Got(Meet(have, set32));
        AfterWithin(have, set32, option);
        QuietShrinks(kernel.q[head], kernel.threads, have, After(have, set32, option));
        FrameNone(kernel.See(), {head}, {t}, {}, kernel.wide);
        have := After(have, set32, option);
      } else if timeout == 0 {
        MarkError(t, ETimeout);
        FrameWider(old(kernel.See()), kernel.See(), {}, {t}, {}, {head}, {t}, {}, kernel.wide);
        r := Empty;
      } else {
        Wait(t, set32, option, timeout > 0);
        r := Pending;
      }
    }

    /** thread->error of a thread outside the event */
    method MarkError(t: int, e: Error)
      requires Valid() && t in kernel.at && t !in fate && t in kernel.threads
      modifies kernel
      ensures Valid() && (old(Ordered()) ==> Ordered()) && kernel.q == old(kernel.q) && kernel.at == old(kernel.at)
      ensures kernel.threads == old(kernel.threads)[t := old(kernel.threads)[t].(error := e)]
      ensures Frame(old(kernel.See()), kernel.See(), {}, {t}, {}, kernel.wide) && Roused(old(kernel.threads), kernel.threads, {}, {})
    {
      hide Roused, ListsOk, ThreadsOk, Urgent, FatesOk, GotOk, Quiet, Frame;
      ghost var threads0 := kernel.threads;
      kernel.SetError(t, e);
      Outside(fate, got, asked, kernel.q[head], threads0, kernel.threads, have, t);
    }

    /** The branch of rt_event_recv that gives up the processor. */
    method Wait(t: int, set32: bv32, option: bv32, timed: bool)
      requires Valid() && t in kernel.at && t !in fate && !Met(have, set32, option)
      requires t in kernel.threads && kernel.threads[t].stat == Ready && kernel.threads[t].error == EOk
      modifies this`fate, this`asked, kernel
      ensures Valid() && (old(Ordered()) ==> Ordered()) && fate == old(fate)[t := Waiting] && t in kernel.threads
      ensures asked == old(asked)[t := Ask(set32, option)]
      ensures kernel.threads[t].armed == timed && kernel.threads[t].eventSet == set32 && kernel.threads[t].eventInfo == option
      ensures kernel.q[head] == Enqueued(old(kernel.q[head]), old(kernel.threads), t, byPriority)
      ensures Frame(old(kernel.See()), kernel.See(), {head}, {t}, {}, kernel.wide) && Roused(old(kernel.threads), kernel.threads, {}, {t})
    {
      hide Roused, ListsOk, ThreadsOk, Urgent, Met, FatesOk, GotOk, Quiet, Enqueued, SameWaits, Frame;
      ghost var threads0, s := kernel.threads, kernel.q[head];
      kernel.WaiterFacts(head);
      kernel.SetEvent(t, set32, option);
      EnqueuedSame(s, threads0, kernel.threads, t, byPriority);
      Outside(fate, got, asked, s, threads0, kernel.threads, have, t);
      ghost var threads1, v1 := kernel.threads, kernel.See();
      kernel.Block(head, t, byPriority, timed);
      FrameThen(old(kernel.See()), v1, kernel.See(), {}, {t}, {}, {head}, {t}, {}, {head}, {t}, {}, kernel.wide);
      RousedThen(threads0, threads1, kernel.threads, {}, {t});
      FatesBlock(fate, s, threads1, kernel.q[head], kernel.threads, t);
      FatesMean(fate, s, threads1, t);
      OneMore(fate, got, asked, s, threads1, kernel.q[head], kernel.threads, have, t);
      fate, asked := fate[t := Waiting], asked[t := Ask(set32, option)];
    }

    twostate predicate ReturnStep(t: int, e: Error, recved: bv32)
      reads this, kernel
    {
      && fate == old(fate) - {t} && t in old(fate) && e == ErrorOf(old(fate)[t]) && (e == EOk <==> old(fate)[t] == Granted)
      && (e == EOk ==> t in got && recved == got[t] && t in asked && Answers(recved, asked[t]))
    }

    /** The end of a rt_event_recv that blocked: on RT_EOK it delivers what the waking send set aside. */
    method Return(t: int) returns (e: Error, recved: bv32)
      requires Valid() && t in fate && fate[t] != Waiting
      modifies this`fate
      ensures Valid()
      ensures ReturnStep(t, e, recved)
    {
      hide ListsOk, ThreadsOk, Quiet, Answers;
      e := kernel.threads[t].error;
      recved := kernel.threads[t].eventSet;
      fate := fate - {t};
    }

    twostate predicate TimeoutStep(t: int)
      reads this, kernel
    {
      && head in old(kernel.q) && head in kernel.q && Settled(old(fate), fate) && fate == old(fate)[t := TimedOut]
      && kernel.q[head] == Without(old(kernel.q)[head], t)
      && Frame(old(kernel.See()), kernel.See(), {head}, {t}, {}, kernel.wide)
      && Roused(old(kernel.threads), kernel.threads, {t}, {})
    }

    /** The expiry of a waiter's timer. */
    method Timeout(t: int)
      requires Valid() && t in fate && fate[t] == Waiting && kernel.threads[t].armed
      modifies this`fate, kernel
      ensures Valid() && (old(Ordered()) ==> Ordered())
      ensures TimeoutStep(t)
    {
      hide Roused, ListsOk, ThreadsOk, Urgent, Without, FatesOk, GotOk, Quiet, Settled, Handed, Frame;
      ghost var s, threads0 := kernel.q[head], kernel.threads;
      ExpireWait(kernel, head, t, fate);
      OneLess(fate, got, asked, s, threads0, kernel.q[head], kernel.threads, have, t, TimedOut);
      fate := fate[t := TimedOut];
    }

    twostate predicate ResetStep()
      reads this, kernel
    {
      && head in old(kernel.q) && head in kernel.q && have == 0 && kernel.q[head] == [] && Settled(old(fate), fate) && asked == old(asked)
      && fate == Cancelled(old(fate)) && Members(old(kernel.q)[head]) <= old(fate).Keys && fate.Keys == old(fate).Keys
      && Frame(old(kernel.See()), kernel.See(), {head}, Members(old(kernel.q)[head]), {}, kernel.wide)
      && Roused(old(kernel.threads), kernel.threads, Members(old(kernel.q)[head]), {})
    }

    /** RT_IPC_CMD_RESET: every waiter fails, the set is empty. */
    method Reset()
      requires Valid()
      modifies this, kernel
      ensures Valid() && Ordered()
      ensures ResetStep()
    {
      hide Roused, ListsOk, ThreadsOk, AllWoken, FatesOk, Cancelled, GotOk, Frame, Handed, Settled, Members;
      ghost var s, threads0 := kernel.q[head], kernel.threads;
      CancelAll(kernel, head, fate);
      GotCancelled(fate, got, asked, s, threads0, kernel.threads);
      have := 0;
      fate := Cancelled(fate);
    }

    /** Steps elsewhere, since the kernel looked like v: by other objects, whose calls are made by other
        threads. */
    lemma Elsewhere(v: View, heads: set<int>, who: set<int>, raised: set<int>)
      requires Fits(v) && kernel.Valid() && Frame(v, kernel.See(), heads, who, raised, kernel.wide)
      requires head !in heads && who !! fate.Keys
      ensures Valid() && kernel.q[head] == v.q[head]
      ensures raised !! Members(v.q[head]) && OrderedIn(v) ==> Ordered()
    {
      hide ListsOk, ThreadsOk, Urgent, FatesOk, Frame, GotOk, Quiet;
      FatesElsewhere(fate, v, kernel.See(), head, heads, who, raised, kernel.wide);
      EventsElsewhere(fate, got, asked, v, kernel.See(), head, heads, who, raised, kernel.wide, have);
    }
  }

  lemma EventsElsewhere(fate: map<int, Fate>, got: map<int, bv32>, asked: map<int, Ask>, v: View, w: View, h: int, heads: set<int>, who: set<int>,
                        raised: set<int>, wide: bool, have: bv32)
    requires h in v.q && FatesOk(fate, v.q[h], v.threads) && Frame(v, w, heads, who, raised, wide) && who !! fate.Keys
    requires GotOk(fate, got, asked, v.threads) && Quiet(v.q[h], v.threads, have)
    ensures GotOk(fate, got, asked, w.threads) && Quiet(v.q[h], w.threads, have)
  {
    hide Met, Answers;
    forall t | t in fate ensures t in w.threads && SameCall(v.threads[t], w.threads[t]) { assert t !in who; }
  }

  /** Either RT_EVENT_FLAG_AND or RT_EVENT_FLAG_OR is set. */
  predicate HasMode(option: bv32) {
    option & (FLAG_AND | FLAG_OR) != 0
  }

  lemma Outside(fate: map<int, Fate>, got: map<int, bv32>, asked: map<int, Ask>, s: seq<int>, threads: map<int, Thread>,
                threads2: map<int, Thread>, have: bv32, t: int)
    requires FatesOk(fate, s, threads) && GotOk(fate, got, asked, threads) && Quiet(s, threads, have)
    requires t !in fate && t in threads2 && threads2 == threads[t := threads2[t]]
    ensures FatesOk(fate, s, threads2) && GotOk(fate, got, asked, threads2) && Quiet(s, threads2, have)
  {
    hide Met, Answers;
  }

  lemma OneMore(fate: map<int, Fate>, got: map<int, bv32>, asked: map<int, Ask>, s: seq<int>, threads: map<int, Thread>,
                s2: seq<int>, threads2: map<int, Thread>,
                have: bv32, t: int)
    requires GotOk(fate, got, asked, threads) && Quiet(s, threads, have) && t !in fate && t !in s
    requires t in threads2 && threads2 == threads[t := threads2[t]] && !Met(have, threads2[t].eventSet, threads2[t].eventInfo)
    requires forall x :: x in s2 <==> x in s || x == t
    ensures GotOk(fate[t := Waiting], got, asked[t := Ask(threads2[t].eventSet, threads2[t].eventInfo)], threads2)
    ensures Quiet(s2, threads2, have)
  {
    hide Met, Answers;
  }

  lemma OneLess(fate: map<int, Fate>, got: map<int, bv32>, asked: map<int, Ask>, s: seq<int>, threads: map<int, Thread>,
                s2: seq<int>, threads2: map<int, Thread>,
                have: bv32, t: int, f: Fate)
    requires GotOk(fate, got, asked, threads) && Quiet(s, threads, have) && f != Granted && f != Waiting
    requires t in threads2 && threads2 == threads[t := threads2[t]]
    requires forall x :: x in s2 <==> x in s && x != t
    ensures GotOk(fate[t := f], got, asked, threads2) && Quiet(s2, threads2, have)
  {
    hide Met, Answers;
  }

  lemma GotCancelled(fate: map<int, Fate>, got: map<int, bv32>, asked: map<int, Ask>, s: seq<int>, threads: map<int,
                     Thread>, threads2: map<int, Thread>)
    requires FatesOk(fate, s, threads) && GotOk(fate, got, asked, threads) && AllWoken(s, threads, threads2)
    ensures GotOk(Cancelled(fate), got, asked, threads2)
  {
  }

  function Added(have: bv32, set32: bv32): bv32 {
    have | set32
  }

  /** i waiters have had their turn. */
  ghost predicate Midway(s: seq<int>, threads0: map<int, Thread>, have0: bv32, i: int, now: seq<int>, have: bv32, threads: map<int, Thread>) {
    0 <= i <= |s| &&
    var r := Turns(s[..i], threads0, have0);
    now == r.rest + s[i..] && have == r.have && Served(threads0, threads, r.got)
  }

  lemma NotHead(s: seq<int>, head: int)
    requires head !in s
    ensures forall i :: 0 <= i < |s| ==> s[i] != head
  {
  }

  lemma NoTurn(s: seq<int>, threads: map<int, Thread>, have: bv32)
    ensures Midway(s, threads, have, 0, s, have, threads)
  {
  }

  /** The waiter whose turn comes next stands behind those that were passed over. */
  lemma NextTurn(s: seq<int>, threads0: map<int, Thread>, threads: map<int, Thread>, have0: bv32, have: bv32, i: nat, now: seq<int>)
    returns (k: nat)
    requires i < |s| && Distinct(s) && (forall t :: t in s ==> t in threads0)
    requires Midway(s, threads0, have0, i, now, have, threads) && Distinct(now)
    ensures k < |now| && now[k] == s[i] && s[i] in now && (k + 1 < |now| <==> i + 1 < |s|) && (i + 1 < |s| ==> now[k + 1] == s[i + 1])
    ensures s[i] in threads && threads[s[i]] == threads0[s[i]]
  {
    hide Turns;
    var r, t := Turns(s[..i], threads0, have0), s[i];
    TurnsQuiet(s[..i], threads0, have0);
    k := |r.rest|;
    assert now[k] == t;
  }

  /** The waiters that were served run again. */
  lemma RousedServed(s: seq<int>, threads0: map<int, Thread>, threads: map<int, Thread>, have: bv32)
    requires Distinct(s) && Served(threads0, threads, Turns(s, threads0, have).got)
    requires forall t :: t in s ==> t in threads0 && threads0[t].stat == Stat.Suspend
    ensures Roused(threads0, threads, Turns(s, threads0, have).got.Keys, {})
  {
    hide Turns;
    TurnsSplit(s, threads0, have);
  }

  lemma ServedMore(threads0: map<int, Thread>, threads1: map<int, Thread>, threads2: map<int, Thread>, got: map<int, bv32>, t: int, v: bv32)
    requires Served(threads0, threads1, got) && t in threads0 && t in threads1 && threads1[t] == threads0[t]
    requires threads2 == threads1[t := threads1[t].(stat := Ready, armed := false, eventSet := v)]
    ensures Served(threads0, threads2, got[t := v])
  {
  }

  lemma TurnTaken(s: seq<int>, threads0: map<int, Thread>, threads1: map<int, Thread>, threads2: map<int, Thread>, have0: bv32,
                  have1: bv32, have2: bv32, i: nat, now1: seq<int>, now2: seq<int>, served: bool)
    requires i < |s| && s[i] in threads0 && s[i] in threads1 && threads1[s[i]] == threads0[s[i]]
    requires Midway(s, threads0, have0, i, now1, have1, threads1) && Distinct(now1)
    requires served <==> Met(have1, threads1[s[i]].eventSet, threads1[s[i]].eventInfo)
    requires !served ==> threads2 == threads1 && now2 == now1 && have2 == have1
    requires served ==> now2 == Without(now1, s[i]) && have2 == After(have1, threads1[s[i]].eventSet, threads1[s[i]].eventInfo)
    requires served ==> threads2 == threads1[s[i] := threads1[s[i]].(stat := Ready, armed := false, eventSet := Meet(have1, threads1[s[i]].eventSet))]
    ensures Midway(s, threads0, have0, i + 1, now2, have2, threads2)
  {
    hide Met, After, Meet, Served, Without, Turns;
    var r, t := Turns(s[..i], threads0, have0), s[i];
    NextRound(s, threads0, have0, i);
    if served {
      ServedMore(threads0, threads1, threads2, r.got, t, Meet(r.have, threads0[t].eventSet));
      WithoutNext(r.rest, s, i);
    } else {
      assert r.rest + s[i..] == r.rest + [t] + s[i + 1..];
    }
  }

  /** One more turn in the reference. */
  lemma NextRound(s: seq<int>, threads: map<int, Thread>, have: bv32, i: nat)
    requires i < |s| && s[i] in threads
    ensures var r, t := Turns(s[..i], threads, have), s[i];
            Turns(s[..i + 1], threads, have) ==
              if Met(r.have, threads[t].eventSet, threads[t].eventInfo)
              then Round(r.rest, After(r.have, threads[t].eventSet, threads[t].eventInfo), r.got[t := Meet(r.have, threads[t].eventSet)])
              else Round(r.rest + [t], r.have, r.got)
  {
    hide Met, After, Meet;
    assert s[..i + 1][..i] == s[..i];
  }

  lemma WithoutNext(rest: seq<int>, s: seq<int>, i: nat)
    requires i < |s| && Distinct(rest + s[i..])
    ensures Without(rest + s[i..], s[i]) == rest + s[i + 1..]
  {
    hide Without;
    var now := rest + s[i..];
    assert now[|rest|] == s[i];
    WithoutIndex(now, |rest|);
    assert Dropped(now, |rest|) == rest + s[i + 1..];
  }

  /** Waiters are exactly those left and those served. */
  lemma {:induction false} TurnsSplit(s: seq<int>, threads: map<int, Thread>, have: bv32)
    requires Distinct(s)
    ensures var r := Turns(s, threads, have); forall t :: t in s <==> (t in r.rest) != (t in r.got)
    ensures var r := Turns(s, threads, have); forall t :: t in r.rest || t in r.got ==> t in s
  {
    hide Met, After, Meet;
    if s != [] {
      var u, t := s[..|s| - 1], s[|s| - 1];
      TurnsSplit(u, threads, have);
      assert s == u + [t] && t !in u;
    }
  }

  lemma AllTurns(s: seq<int>, threads0: map<int, Thread>, threads: map<int, Thread>, have: bv32,
                 now: seq<int>, left: bv32, fate: map<int, Fate>, got: map<int, bv32>, asked: map<int, Ask>)
    requires Distinct(s) && FatesOk(fate, s, threads0) && GotOk(fate, got, asked, threads0)
    requires forall t :: t in s ==> t in threads0
    requires Midway(s, threads0, have, |s|, now, left, threads)
    ensures var r := Turns(s, threads0, have);
            && now == r.rest && left == r.have && Served(threads0, threads, r.got)
            && FatesOk(Granting(fate, r.got), r.rest, threads) && GotOk(Granting(fate, r.got), got + r.got, asked, threads)
            && Settled(fate, Granting(fate, r.got)) && Granting(fate, r.got).Keys == fate.Keys && Quiet(r.rest, threads, r.have)
  {
    hide Turns, Met, GotOk;
    assert s[..|s|] == s;
    TurnsQuiet(s, threads0, have);
    TurnsSplit(s, threads0, have);
    GrantingKeys(fate, s, threads0, Turns(s, threads0, have).got);
    TurnsGot(s, threads0, threads, have, fate, got, asked);
  }

  lemma TurnsGot(s: seq<int>, threads0: map<int, Thread>, threads: map<int, Thread>, have: bv32,
                 fate: map<int, Fate>, got: map<int, bv32>, asked: map<int, Ask>)
    requires FatesOk(fate, s, threads0) && GotOk(fate, got, asked, threads0)
    requires var r := Turns(s, threads0, have); Served(threads0, threads, r.got) && forall t :: t in r.got ==> t in s
    ensures var r := Turns(s, threads0, have); GotOk(Granting(fate, r.got), got + r.got, asked, threads)
  {
    hide Turns, Answers;
    TurnsAnswer(s, threads0, have);
  }

  lemma GrantingKeys(fate: map<int, Fate>, s: seq<int>, threads: map<int, Thread>, got: map<int, bv32>)
    requires FatesOk(fate, s, threads) && forall t :: t in got ==> t in s
    ensures Granting(fate, got).Keys == fate.Keys
  {
    forall t | t in got ensures t in fate { assert t in s; }
  }
}
