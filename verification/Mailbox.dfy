/** ipc.c, mailboxes. A method is one region with interrupts disabled: a blocking call is Send or
    Recv, then one SendAgain or RecvAgain each time the thread runs again. */
module Mailboxes {
  import opened RtList
  import opened Queues
  import opened ReadyIndex
  import opened Kernel
  import opened Waits

  datatype Sending = Sent | Full | SendPending | SendError(error: Error)
  datatype Receiving = Mail(value: int) | NoMail | RecvPending | RecvError(error: Error)

  /** The slot i places behind the output offset of the ring. */
  function Slot(out: nat, i: nat, size: nat): nat {
    if out + i < size then out + i else out + i - size
  }

  /** The ring holds this sequence of mails. */
  ghost predicate RingOk(pool: seq<int>, size: nat, entry: nat, out: nat, inn: nat, box: seq<int>) {
    && |pool| == size && entry == |box| && entry <= size && (out < size || out == 0) && (inn < size || inn == 0)
    && (size > 0 ==> inn == Slot(out, entry, size))
    && forall i :: 0 <= i < entry ==> Slot(out, i, size) < size && pool[Slot(out, i, size)] == box[i]
  }

  function Next(i: nat, size: nat): nat {
    if i + 1 >= size then 0 else i + 1
  }

  /** Writing at the input offset appends. */
  lemma RingPut(pool: seq<int>, size: nat, entry: nat, out: nat, inn: nat, box: seq<int>, v: int)
    requires RingOk(pool, size, entry, out, inn, box) && entry < size
    ensures inn < size && RingOk(pool[inn := v], size, entry + 1, out, Next(inn, size), box + [v])
  {
  }

  /** Reading at the output offset takes the oldest mail. */
  lemma RingGet(pool: seq<int>, size: nat, entry: nat, out: nat, inn: nat, box: seq<int>)
    requires RingOk(pool, size, entry, out, inn, box) && entry > 0
    ensures out < size && pool[out] == box[0] && RingOk(pool, size, entry - 1, Next(out, size), inn, box[1..])
  {
    assert pool[Slot(out, 0, size)] == box[0];
    forall i | 0 <= i < entry - 1 ensures Slot(Next(out, size), i, size) < size && pool[Slot(Next(out, size), i, size)] == box[1..][i] {
      assert pool[Slot(out, i + 1, size)] == box[i + 1];
    }
  }

  class Mailbox {
    const kernel: Kernel
    const recvHead: int              // parent.suspend_thread
    const sendHead: int              // suspend_sender_thread
    const byPriority: bool
    const pool: array<int>
    var entry: nat
    var inOffset: nat
    var outOffset: nat
    ghost var box: seq<int>
    ghost var accepted: seq<int>     // everything sent since the last reset
    ghost var delivered: seq<int>    // everything received since then
    ghost var receivers: map<int, Fate>
    ghost var senders: map<int, Fate>

    ghost predicate BaseFits(v: View)
      reads this, pool
    {
      && recvHead < DEFUNCT && sendHead < DEFUNCT && recvHead != sendHead && recvHead in v.q && sendHead in v.q
      && RingOk(pool[..], pool.Length, entry, outOffset, inOffset, box) && accepted == delivered + box
      && FatesOk(receivers, v.q[recvHead], v.threads) && FatesOk(senders, v.q[sendHead], v.threads)
      && receivers.Keys !! senders.Keys
    }

    /** The invariant, with the lists and control blocks of the kernel as in v. */
    ghost predicate Fits(v: View)
      reads this, pool
    {
      BaseFits(v) && Awake(v.q[recvHead], entry, receivers) && Awake(v.q[sendHead], pool.Length - entry, senders)
    }

    /** All of the invariant but the two wakeup conditions. */
    ghost predicate Base()
      reads this, kernel, pool
    {
      kernel.Valid() && BaseFits(kernel.See())
    }

    ghost predicate Valid()
      reads this, kernel, pool
    {
      kernel.Valid() && Fits(kernel.See())
    }

    ghost predicate OrderedIn(v: View)
      requires recvHead in v.q && sendHead in v.q
      reads this
    {
      byPriority ==> Urgent(v.q[recvHead], v.threads) && Urgent(v.q[sendHead], v.threads)
    }

    ghost predicate Ordered()
      requires recvHead in kernel.q && sendHead in kernel.q
      reads this, kernel
    {
      OrderedIn(kernel.See())
    }

    /** rt_mb_init; the size field has 16 bits. */
    constructor (kernel: Kernel, recvHead: int, sendHead: int, size: nat, byPriority: bool)
      requires kernel.Valid() && recvHead < DEFUNCT && sendHead < DEFUNCT && recvHead != sendHead
      requires recvHead !in kernel.q && sendHead !in kernel.q
      modifies kernel`links, kernel`q
      ensures Valid() && Ordered() && box == [] && accepted == [] && delivered == [] && fresh(pool)
      ensures receivers == map[] && senders == map[] && pool.Length == size % 0x1_0000
      ensures this.kernel == kernel && this.recvHead == recvHead && this.sendHead == sendHead && this.byPriority == byPriority
      ensures kernel.q == old(kernel.q)[recvHead := []][sendHead := []] && Frame(old(kernel.See()), kernel.See(), {}, {}, {}, kernel.wide)
    {
      hide ListsOk, ThreadsOk, Frame, RingOk;
      this.kernel, this.recvHead, this.sendHead, this.byPriority := kernel, recvHead, sendHead, byPriority;
      pool := new int[size % 0x1_0000];
      entry, inOffset, outOffset := 0, 0, 0;
      box, accepted, delivered, receivers, senders := [], [], [], map[], map[];
      new;
      EmptyRing(pool[..]);
      NewLists(kernel, recvHead, sendHead);
    }

    /** The mail goes to the input offset of the ring. */
    method Push(value: int)
      requires entry < pool.Length && RingOk(pool[..], pool.Length, entry, outOffset, inOffset, box) && accepted == delivered + box
      modifies this`entry, this`inOffset, this`box, this`accepted, pool
      ensures RingOk(pool[..], pool.Length, entry, outOffset, inOffset, box) && accepted == delivered + box
      ensures box == old(box) + [value] && accepted == old(accepted) + [value] && entry == old(entry) + 1
    {
      hide RingOk;
      RingPut(pool[..], pool.Length, entry, outOffset, inOffset, box, value);
      pool[inOffset] := value;
      inOffset := inOffset + 1;
      if inOffset >= pool.Length {
        inOffset := 0;
      }
      entry := entry + 1;
      box, accepted := box + [value], accepted + [value];
    }

    /** The mail at the output offset of the ring. */
    method Pop() returns (value: int)
      requires entry > 0 && RingOk(pool[..], pool.Length, entry, outOffset, inOffset, box) && accepted == delivered + box
      modifies this`entry, this`outOffset, this`box, this`delivered
      ensures RingOk(pool[..], pool.Length, entry, outOffset, inOffset, box) && accepted == delivered + box
      ensures old(box) == [value] + box && delivered == old(delivered) + [value] && entry == old(entry) - 1
    {
      hide RingOk;
      RingGet(pool[..], pool.Length, entry, outOffset, inOffset, box);
      RingSize(pool[..], pool.Length, entry, outOffset, inOffset, box);
      value := pool[outOffset];
      outOffset := outOffset + 1;
      if outOffset >= pool.Length {
        outOffset := 0;
      }
      entry := entry - 1;
      box, delivered := box[1..], delivered + [value];
    }

    /** The second half of rt_mb_send_wait. Called with one place free for each woken sender and for
        the caller. */
    method Put(value: int)
      requires Base() && entry < pool.Length
      requires Awake(kernel.q[recvHead], entry, receivers) && Awake(kernel.q[sendHead], pool.Length - entry - 1, senders)
      modifies this`entry, this`inOffset, this`box, this`accepted, this`receivers, pool, kernel
      ensures Valid() && (old(Ordered()) ==> Ordered())
      ensures box == old(box) + [value] && accepted == old(accepted) + [value] && kernel.q[sendHead] == old(kernel.q[sendHead])
      ensures receivers == FirstWoken(old(receivers), old(kernel.q)[recvHead])
      ensures if old(kernel.q[recvHead]) == [] then kernel.q == old(kernel.q) else kernel.q[recvHead] == old(kernel.q[recvHead])[1..]
      ensures Frame(old(kernel.See()), kernel.See(), Heads(), {}, {}, kernel.wide) && receivers.Keys == old(receivers).Keys
      ensures Roused(old(kernel.threads), kernel.threads, Foremost(old(kernel.q)[recvHead]), {})
    {
      hide Roused, ListsOk, ThreadsOk, Urgent, FatesOk, RingOk, Handed, Frame;
      RousedNone(kernel.threads);
      FrameNone(kernel.See(), Heads(), {}, {}, kernel.wide);
      Push(value);
      kernel.WaiterFacts(recvHead);
      if !IsEmpty(kernel.links, recvHead) {
        receivers := Wake(recvHead, sendHead, receivers, senders);
      }
    }

    ghost function Heads(): set<int> {
      {recvHead, sendHead}
    }

    /** rt_ipc_list_resume on one of the two lists. */
    method Wake(h: int, g: int, ghost mine: map<int, Fate>, ghost other: map<int, Fate>) returns (ghost woken: map<int, Fate>)
      requires kernel.Valid() && h < DEFUNCT && g < DEFUNCT && h != g && h in kernel.q && g in kernel.q && kernel.q[h] != []
      requires FatesOk(mine, kernel.q[h], kernel.threads) && FatesOk(other, kernel.q[g], kernel.threads) && h in Heads()
      modifies kernel
      ensures kernel.Valid() && h in kernel.q && g in kernel.q
      ensures kernel.q[h] == old(kernel.q[h])[1..] && kernel.q[g] == old(kernel.q[g])
      ensures woken == mine[old(kernel.q[h])[0] := Granted] && woken.Keys == mine.Keys && |Handed(woken)| == |Handed(mine)| + 1
      ensures FatesOk(woken, kernel.q[h], kernel.threads) && FatesOk(other, kernel.q[g], kernel.threads)
      ensures old(Urgent(kernel.q[h], kernel.threads)) ==> Urgent(kernel.q[h], kernel.threads)
      ensures old(Urgent(kernel.q[g], kernel.threads)) ==> Urgent(kernel.q[g], kernel.threads)
      ensures Frame(old(kernel.See()), kernel.See(), Heads(), {}, {}, kernel.wide)
      ensures Roused(old(kernel.threads), kernel.threads, {old(kernel.q[h])[0]}, {})
    {
      hide Roused, ListsOk, ThreadsOk, Urgent, FatesOk, Handed, Frame, Settled;
      ghost var t := kernel.q[h][0];
      WakeFirst(kernel, h, mine);
      FatesElsewhere(other, old(kernel.See()), kernel.See(), g, {h}, {}, {}, kernel.wide);
      FrameWider(old(kernel.See()), kernel.See(), {h}, {}, {}, Heads(), {}, {}, kernel.wide);
      woken := mine[t := Granted];
    }

    /** The second half of rt_mb_recv. Called with one mail for each woken receiver and for the caller. */
    method Get() returns (value: int)
      requires Base() && entry > 0
      requires Awake(kernel.q[recvHead], entry - 1, receivers) && Awake(kernel.q[sendHead], pool.Length - entry, senders)
      modifies this`entry, this`outOffset, this`box, this`delivered, this`senders, kernel
      ensures Valid() && (old(Ordered()) ==> Ordered())
      ensures old(box) == [value] + box && delivered == old(delivered) + [value] && kernel.q[recvHead] == old(kernel.q[recvHead])
      ensures senders == FirstWoken(old(senders), old(kernel.q)[sendHead])
      ensures if old(kernel.q[sendHead]) == [] then kernel.q == old(kernel.q) else kernel.q[sendHead] == old(kernel.q[sendHead])[1..]
      ensures Frame(old(kernel.See()), kernel.See(), Heads(), {}, {}, kernel.wide) && senders.Keys == old(senders).Keys
      ensures Roused(old(kernel.threads), kernel.threads, Foremost(old(kernel.q)[sendHead]), {})
    {
      hide Roused, ListsOk, ThreadsOk, Urgent, FatesOk, RingOk, Handed, Frame;
      RousedNone(kernel.threads);
      FrameNone(kernel.See(), Heads(), {}, {}, kernel.wide);
      value := Pop();
      kernel.WaiterFacts(sendHead);
      if !IsEmpty(kernel.links, sendHead) {
        senders := Wake(sendHead, recvHead, senders, receivers);
      }
    }

    /** Gives up the processor in one of the two lists. */
    method Wait(h: int, g: int, t: int, timed: bool, ghost mine: map<int, Fate>, ghost other: map<int, Fate>) returns (ghost waiting: map<int, Fate>)
      requires kernel.Valid() && h < DEFUNCT && g < DEFUNCT && h != g && h in kernel.q && g in kernel.q && h in Heads()
      requires FatesOk(mine, kernel.q[h], kernel.threads) && FatesOk(other, kernel.q[g], kernel.threads)
      requires t in kernel.at && kernel.threads[t].stat == Ready && t !in mine && t !in other
      modifies kernel
      ensures kernel.Valid() && h in kernel.q && g in kernel.q && kernel.q[g] == old(kernel.q[g])
      ensures t in old(kernel.threads) && kernel.q[h] == Enqueued(old(kernel.q[h]), old(kernel.threads), t, byPriority)
      ensures t in kernel.threads && kernel.threads[t].armed == timed
      ensures waiting == mine[t := Waiting] && waiting.Keys == mine.Keys + {t} && Handed(waiting) == Handed(mine)
      ensures FatesOk(waiting, kernel.q[h], kernel.threads) && FatesOk(other, kernel.q[g], kernel.threads)
      ensures byPriority && old(Urgent(kernel.q[h], kernel.threads)) ==> Urgent(kernel.q[h], kernel.threads)
      ensures old(Urgent(kernel.q[g], kernel.threads)) ==> Urgent(kernel.q[g], kernel.threads)
      ensures Frame(old(kernel.See()), kernel.See(), Heads(), {t}, {}, kernel.wide)
      ensures Roused(old(kernel.threads), kernel.threads, {}, {t})
    {
      hide Roused, ListsOk, ThreadsOk, Urgent, FatesOk, Handed, Enqueued, Frame;
      StartWait(kernel, h, t, byPriority, timed, mine);
      FatesElsewhere(other, old(kernel.See()), kernel.See(), g, {h}, {t}, {}, kernel.wide);
      FrameWider(old(kernel.See()), kernel.See(), {h}, {t}, {}, Heads(), {t}, {}, kernel.wide);
      waiting := mine[t := Waiting];
    }

    twostate predicate SendStep(t: int, value: int, timeout: int, r: Sending)
      reads this, kernel, pool
    {
      && recvHead in old(kernel.q) && sendHead in old(kernel.q) && recvHead in kernel.q && sendHead in kernel.q
      && delivered == old(delivered) && Frame(old(kernel.See()), kernel.See(), Heads(), {t}, {}, kernel.wide)
      && (Roused(old(kernel.threads), kernel.threads, if r == Sent then Foremost(old(kernel.q)[recvHead]) else {}, if r == SendPending then {t} else {}))
      && (r == if old(|box|) < pool.Length then Sent else if timeout == 0 then Full else SendPending)
      && (r == Sent ==> box == old(box) + [value] && accepted == old(accepted) + [value])
      && (r == Sent ==> receivers == FirstWoken(old(receivers), old(kernel.q)[recvHead]) && receivers.Keys == old(receivers).Keys)
      && (r != Sent ==> box == old(box) && accepted == old(accepted) && receivers == old(receivers))
      && (r == SendPending ==> senders == old(senders)[t := Waiting])
      && (r == SendPending ==> t in kernel.threads && kernel.threads[t].armed == (timeout > 0))
      && (r == SendPending ==> t in old(kernel.threads) && kernel.q[sendHead] == Enqueued(old(kernel.q[sendHead]), old(kernel.threads), t, byPriority))
      && (r != SendPending ==> senders == old(senders))
      && (r == Full ==> kernel.q == old(kernel.q) && kernel.threads == old(kernel.threads))
    }

    /** rt_mb_send_wait up to the point where the caller returns or gives up the processor. Only a
        thread may wait; a call that does not wait may come from an interrupt. */
    method Send(t: int, value: int, timeout: int) returns (r: Sending)
      requires Valid()
      requires entry == pool.Length && timeout != 0 ==> t in kernel.at && kernel.threads[t].stat == Ready && t !in senders && t !in receivers
      modifies this, pool, kernel
      ensures Valid() && (old(Ordered()) ==> Ordered())
      ensures SendStep(t, value, timeout, r)
    {
      hide Roused, ListsOk, ThreadsOk, Urgent, FatesOk, RingOk, Handed, Enqueued, Frame;
      RousedNone(kernel.threads);
      FrameNone(kernel.See(), Heads(), {t}, {}, kernel.wide);
      RingSize(pool[..], pool.Length, entry, outOffset, inOffset, box);
      if entry == pool.Length && timeout == 0 {
        return Full;
      }
      if entry == pool.Length {
        senders := Wait(sendHead, recvHead, t, timeout > 0, senders, receivers);
        return SendPending;
      }
      Put(value);
      FrameWider(old(kernel.See()), kernel.See(), Heads(), {}, {}, Heads(), {t}, {}, kernel.wide);
      return Sent;
    }

    twostate predicate SendAgainStep(t: int, value: int, left: int, r: Sending)
      reads this, kernel, pool
    {
      && recvHead in old(kernel.q) && sendHead in old(kernel.q) && recvHead in kernel.q && sendHead in kernel.q && t in old(senders)
      && delivered == old(delivered) && Frame(old(kernel.See()), kernel.See(), Heads(), {t}, {}, kernel.wide)
      && (Roused(old(kernel.threads), kernel.threads, if r == Sent then Foremost(old(kernel.q)[recvHead]) else {}, if r == SendPending then {t} else {}))
      && (r == if old(senders)[t] != Granted then SendError(ErrorOf(old(senders)[t])) else if old(|box|) < pool.Length then Sent
              else if left == 0 then Full else SendPending)
      && (r == Sent ==> box == old(box) + [value] && accepted == old(accepted) + [value])
      && (r == Sent ==> receivers == FirstWoken(old(receivers), old(kernel.q)[recvHead]) && receivers.Keys == old(receivers).Keys)
      && (r != Sent ==> box == old(box) && accepted == old(accepted) && receivers == old(receivers))
      && (senders == if r == SendPending then old(senders)[t := Waiting] else old(senders) - {t})
      && (r == SendPending ==> t in kernel.threads && kernel.threads[t].armed == (left > 0))
      && (r == SendPending ==> t in old(kernel.threads) && kernel.q[sendHead] == Enqueued(old(kernel.q[sendHead]), old(kernel.threads), t, byPriority))
    }

    /** A sender that blocked runs again. What is left of its timeout is 0 at least, or negative for
        a caller that waits forever. */
    method SendAgain(t: int, value: int, left: int) returns (r: Sending)
      requires Valid() && t in senders && senders[t] != Waiting
      modifies this, pool, kernel
      ensures Valid() && (old(Ordered()) ==> Ordered())
      ensures SendAgainStep(t, value, left, r)
    {
      hide Roused, ListsOk, ThreadsOk, Urgent, FatesOk, RingOk, Handed, Enqueued, Frame;
      RousedNone(kernel.threads);
      FrameNone(kernel.See(), Heads(), {t}, {}, kernel.wide);
      RingSize(pool[..], pool.Length, entry, outOffset, inOffset, box);
      FateRead(senders, kernel.q[sendHead], kernel.threads, t);
      HandedLess(senders, t);
      kernel.Known();
      if kernel.threads[t].error != EOk {
        r := SendError(kernel.threads[t].error);
        senders := senders - {t};
        return;
      }
      senders := senders - {t};
      if entry == pool.Length {
        if left == 0 {
          Quit(sendHead, recvHead, t, senders, receivers, EOk);
          return Full;
        }
        senders := Wait(sendHead, recvHead, t, left > 0, senders, receivers);
        MapBack(old(senders), t);
        return SendPending;
      }
      Put(value);
      FrameWider(old(kernel.See()), kernel.See(), Heads(), {}, {}, Heads(), {t}, {}, kernel.wide);
      return Sent;
    }

    /** The error code of a thread outside the call. */
    method Quit(h: int, g: int, t: int, ghost mine: map<int, Fate>, ghost other: map<int, Fate>, e: Error)
      requires kernel.Valid() && h in kernel.q && g in kernel.q && t in kernel.at && t !in mine && t !in other
      requires FatesOk(mine, kernel.q[h], kernel.threads) && FatesOk(other, kernel.q[g], kernel.threads)
      modifies kernel
      ensures kernel.Valid() && kernel.q == old(kernel.q) && t in kernel.threads && kernel.threads[t].error == e
      ensures FatesOk(mine, kernel.q[h], kernel.threads) && FatesOk(other, kernel.q[g], kernel.threads)
      ensures forall s: seq<int> :: Urgent(s, old(kernel.threads)) ==> Urgent(s, kernel.threads)
      ensures Frame(old(kernel.See()), kernel.See(), Heads(), {t}, {}, kernel.wide) && Roused(old(kernel.threads), kernel.threads, {}, {})
    {
      hide Roused, ListsOk, ThreadsOk, Urgent, FatesOk, Frame;
      ghost var threads0 := kernel.threads;
      kernel.SetError(t, e);
      FatesSame(mine, kernel.q[h], threads0, kernel.threads, t);
      FatesSame(other, kernel.q[g], threads0, kernel.threads, t);
      FrameWider(old(kernel.See()), kernel.See(), {}, {t}, {}, Heads(), {t}, {}, kernel.wide);
    }

    twostate predicate RecvStep(t: int, timeout: int, r: Receiving)
      reads this, kernel, pool
    {
      && recvHead in old(kernel.q) && sendHead in old(kernel.q) && recvHead in kernel.q && sendHead in kernel.q
      && accepted == old(accepted) && Frame(old(kernel.See()), kernel.See(), Heads(), {t}, {}, kernel.wide)
      && (Roused(old(kernel.threads), kernel.threads, if r.Mail? then Foremost(old(kernel.q)[sendHead]) else {}, if r == RecvPending then {t} else {}))
      && (r == if old(box) != [] then Mail(old(box)[0]) else if timeout == 0 then NoMail else RecvPending)
      && (r.Mail? ==> box == old(box)[1..] && delivered == old(delivered) + [r.value])
      && (r.Mail? ==> senders == FirstWoken(old(senders), old(kernel.q)[sendHead]) && senders.Keys == old(senders).Keys)
      && (!r.Mail? ==> box == old(box) && delivered == old(delivered) && senders == old(senders))
      && (r == RecvPending ==> receivers == old(receivers)[t := Waiting])
      && (r == RecvPending ==> t in kernel.threads && kernel.threads[t].armed == (timeout > 0))
      && (r == RecvPending ==> t in old(kernel.threads) && kernel.q[recvHead] == Enqueued(old(kernel.q[recvHead]), old(kernel.threads), t, byPriority))
      && (r != RecvPending ==> receivers == old(receivers))
      && (r == NoMail ==> kernel.q == old(kernel.q) && kernel.threads == old(kernel.threads))
    }

    /** rt_mb_recv up to the point where the caller returns or gives up the processor. */
    method Recv(t: int, timeout: int) returns (r: Receiving)
      requires Valid()
      requires entry == 0 && timeout != 0 ==> t in kernel.at && kernel.threads[t].stat == Ready && t !in senders && t !in receivers
      modifies this, kernel
      ensures Valid() && (old(Ordered()) ==> Ordered())
      ensures RecvStep(t, timeout, r)
    {
      hide Roused, ListsOk, ThreadsOk, Urgent, FatesOk, RingOk, Handed, Enqueued, Frame;
      RousedNone(kernel.threads);
      FrameNone(kernel.See(), Heads(), {t}, {}, kernel.wide);
      RingSize(pool[..], pool.Length, entry, outOffset, inOffset, box);
      if entry == 0 && timeout == 0 {
        return NoMail;
      }
      if entry == 0 {
        receivers := Wait(recvHead, sendHead, t, timeout > 0, receivers, senders);
        return RecvPending;
      }
      var v := Get();
      FrameWider(old(kernel.See()), kernel.See(), Heads(), {}, {}, Heads(), {t}, {}, kernel.wide);
      return Mail(v);
    }

    twostate predicate RecvAgainStep(t: int, left: int, r: Receiving)
      reads this, kernel, pool
    {
      && recvHead in old(kernel.q) && sendHead in old(kernel.q) && recvHead in kernel.q && sendHead in kernel.q && t in old(receivers)
      && accepted == old(accepted) && Frame(old(kernel.See()), kernel.See(), Heads(), {t}, {}, kernel.wide)
      && (Roused(old(kernel.threads), kernel.threads, if r.Mail? then Foremost(old(kernel.q)[sendHead]) else {}, if r == RecvPending then {t} else {}))
      && (r == if old(receivers)[t] != Granted then RecvError(ErrorOf(old(receivers)[t])) else if old(box) != [] then Mail(old(box)[0])
              else if left == 0 then NoMail else RecvPending)
      && (r.Mail? ==> box == old(box)[1..] && delivered == old(delivered) + [r.value])
      && (r.Mail? ==> senders == FirstWoken(old(senders), old(kernel.q)[sendHead]) && senders.Keys == old(senders).Keys)
      && (!r.Mail? ==> box == old(box) && delivered == old(delivered) && senders == old(senders))
      && (receivers == if r == RecvPending then old(receivers)[t := Waiting] else old(receivers) - {t})
      && (r == RecvPending ==> t in kernel.threads && kernel.threads[t].armed == (left > 0))
      && (r == RecvPending ==> t in old(kernel.threads) && kernel.q[recvHead] == Enqueued(old(kernel.q[recvHead]), old(kernel.threads), t, byPriority))
      && (r == NoMail ==> t in kernel.threads && kernel.threads[t].error == ETimeout)
    }

    /** A receiver that blocked runs again. */
    method RecvAgain(t: int, left: int) returns (r: Receiving)
      requires Valid() && t in receivers && receivers[t] != Waiting
      modifies this, kernel
      ensures Valid() && (old(Ordered()) ==> Ordered())
      ensures RecvAgainStep(t, left, r)
    {
      hide Roused, ListsOk, ThreadsOk, Urgent, FatesOk, RingOk, Handed, Enqueued, Frame;
      RousedNone(kernel.threads);
      FrameNone(kernel.See(), Heads(), {t}, {}, kernel.wide);
      RingSize(pool[..], pool.Length, entry, outOffset, inOffset, box);
      FateRead(receivers, kernel.q[recvHead], kernel.threads, t);
      HandedLess(receivers, t);
      kernel.Known();
      if kernel.threads[t].error != EOk {
        r := RecvError(kernel.threads[t].error);
        receivers := receivers - {t};
        return;
      }
      receivers := receivers - {t};
      if entry == 0 {
        if left == 0 {
          Quit(recvHead, sendHead, t, receivers, senders, ETimeout);
          return NoMail;
        }
        receivers := Wait(recvHead, sendHead, t, left > 0, receivers, senders);
        MapBack(old(receivers), t);
        return RecvPending;
      }
      var v := Get();
      FrameWider(old(kernel.See()), kernel.See(), Heads(), {}, {}, Heads(), {t}, {}, kernel.wide);
      return Mail(v);
    }

    /** The expiry of the timer of a waiter in one of the two lists. */
    method Expire(h: int, g: int, t: int, ghost mine: map<int, Fate>, ghost other: map<int, Fate>) returns (ghost less: map<int, Fate>)
      requires kernel.Valid() && h < DEFUNCT && g < DEFUNCT && h != g && h in kernel.q && g in kernel.q && h in Heads()
      requires FatesOk(mine, kernel.q[h], kernel.threads) && FatesOk(other, kernel.q[g], kernel.threads) && mine.Keys !! other.Keys
      requires t in mine && mine[t] == Waiting && kernel.threads[t].armed
      modifies kernel
      ensures kernel.Valid() && h in kernel.q && g in kernel.q && kernel.q[g] == old(kernel.q[g])
      ensures kernel.q[h] == Without(old(kernel.q[h]), t) && old(kernel.q[h]) != []
      ensures less == mine[t := TimedOut] && less.Keys == mine.Keys && Handed(less) == Handed(mine)
      ensures FatesOk(less, kernel.q[h], kernel.threads) && FatesOk(other, kernel.q[g], kernel.threads)
      ensures old(Urgent(kernel.q[h], kernel.threads)) ==> Urgent(kernel.q[h], kernel.threads)
      ensures old(Urgent(kernel.q[g], kernel.threads)) ==> Urgent(kernel.q[g], kernel.threads)
      ensures Frame(old(kernel.See()), kernel.See(), Heads(), {t}, {}, kernel.wide) && Roused(old(kernel.threads), kernel.threads, {t}, {})
    {
      hide Roused, ListsOk, ThreadsOk, Urgent, FatesOk, Handed, Without, Frame, Settled;
      ExpireWait(kernel, h, t, mine);
      FatesElsewhere(other, old(kernel.See()), kernel.See(), g, {h}, {t}, {}, kernel.wide);
      FrameWider(old(kernel.See()), kernel.See(), {h}, {t}, {}, Heads(), {t}, {}, kernel.wide);
      less := mine[t := TimedOut];
    }

    twostate predicate SendTimeoutStep(t: int)
      reads this, kernel, pool
    {
      && recvHead in old(kernel.q) && sendHead in old(kernel.q) && recvHead in kernel.q && sendHead in kernel.q
      && senders == old(senders)[t := TimedOut] && kernel.q[sendHead] == Without(old(kernel.q[sendHead]), t)
      && kernel.q[recvHead] == old(kernel.q[recvHead]) && Frame(old(kernel.See()), kernel.See(), Heads(), {t}, {}, kernel.wide)
      && Roused(old(kernel.threads), kernel.threads, {t}, {})
    }

    method SendTimeout(t: int)
      requires Valid() && t in senders && senders[t] == Waiting && kernel.threads[t].armed
      modifies this`senders, kernel
      ensures Valid() && (old(Ordered()) ==> Ordered())
      ensures SendTimeoutStep(t)
    {
      hide Roused, ListsOk, ThreadsOk, Urgent, FatesOk, RingOk, Handed, Without, Frame;
      senders := Expire(sendHead, recvHead, t, senders, receivers);
    }

    twostate predicate RecvTimeoutStep(t: int)
      reads this, kernel, pool
    {
      && recvHead in old(kernel.q) && sendHead in old(kernel.q) && recvHead in kernel.q && sendHead in kernel.q
      && receivers == old(receivers)[t := TimedOut] && kernel.q[recvHead] == Without(old(kernel.q[recvHead]), t)
      && kernel.q[sendHead] == old(kernel.q[sendHead]) && Frame(old(kernel.See()), kernel.See(), Heads(), {t}, {}, kernel.wide)
      && Roused(old(kernel.threads), kernel.threads, {t}, {})
    }

    method RecvTimeout(t: int)
      requires Valid() && t in receivers && receivers[t] == Waiting && kernel.threads[t].armed
      modifies this`receivers, kernel
      ensures Valid() && (old(Ordered()) ==> Ordered())
      ensures RecvTimeoutStep(t)
    {
      hide Roused, ListsOk, ThreadsOk, Urgent, FatesOk, RingOk, Handed, Without, Frame;
      receivers := Expire(recvHead, sendHead, t, receivers, senders);
    }

    /** rt_ipc_list_resume_all on one of the two lists. */
    method WakeAll(h: int, g: int, ghost mine: map<int, Fate>, ghost other: map<int, Fate>)
      requires kernel.Valid() && h < DEFUNCT && g < DEFUNCT && h != g && h in kernel.q && g in kernel.q && h in Heads()
      requires FatesOk(mine, kernel.q[h], kernel.threads) && FatesOk(other, kernel.q[g], kernel.threads) && mine.Keys !! other.Keys
      modifies kernel
      ensures kernel.Valid() && h in kernel.q && g in kernel.q && kernel.q[h] == [] && kernel.q[g] == old(kernel.q[g])
      ensures FatesOk(Cancelled(mine), kernel.q[h], kernel.threads) && FatesOk(other, kernel.q[g], kernel.threads)
      ensures Cancelled(mine).Keys == mine.Keys && Handed(Cancelled(mine)) == Handed(mine)
      ensures Frame(old(kernel.See()), kernel.See(), Heads(), mine.Keys, {}, kernel.wide)
      ensures Roused(old(kernel.threads), kernel.threads, Members(old(kernel.q)[h]), {})
    {
      hide Roused, ListsOk, ThreadsOk, FatesOk, AllWoken, Frame, Settled, Handed, Cancelled;
      CancelAll(kernel, h, mine);
      FrameWider(old(kernel.See()), kernel.See(), {h}, Members(old(kernel.q)[h]), {}, {h}, mine.Keys, {}, kernel.wide);
      FatesElsewhere(other, old(kernel.See()), kernel.See(), g, {h}, mine.Keys, {}, kernel.wide);
      FrameWider(old(kernel.See()), kernel.See(), {h}, mine.Keys, {}, Heads(), mine.Keys, {}, kernel.wide);
    }

    twostate predicate ResetStep()
      reads this, kernel, pool
    {
      && recvHead in old(kernel.q) && sendHead in old(kernel.q) && recvHead in kernel.q && sendHead in kernel.q
      && box == [] && kernel.q[recvHead] == [] && kernel.q[sendHead] == [] && receivers == Cancelled(old(receivers))
      && senders == Cancelled(old(senders)) && receivers.Keys == old(receivers).Keys && senders.Keys == old(senders).Keys
      && Frame(old(kernel.See()), kernel.See(), Heads(), old(receivers).Keys + old(senders).Keys, {}, kernel.wide)
      && Roused(old(kernel.threads), kernel.threads, Members(old(kernel.q)[recvHead]) + Members(old(kernel.q)[sendHead]), {})
    }

    /** RT_IPC_CMD_RESET: every waiter fails, every mail is dropped. */
    method Reset()
      requires Valid()
      modifies this, kernel
      ensures Valid() && Ordered()
      ensures ResetStep()
    {
      hide Roused, ListsOk, ThreadsOk, FatesOk, Handed, Cancelled, Frame;
      WakeEveryone();
      entry, inOffset, outOffset := 0, 0, 0;
      box, accepted, delivered := [], [], [];
    }

    method WakeEveryone()
      requires Base()
      modifies this`receivers, this`senders, kernel
      ensures Base() && kernel.q[recvHead] == [] && kernel.q[sendHead] == []
      ensures receivers == Cancelled(old(receivers)) && senders == Cancelled(old(senders))
      ensures receivers.Keys == old(receivers).Keys && senders.Keys == old(senders).Keys
      ensures Frame(old(kernel.See()), kernel.See(), Heads(), old(receivers).Keys + old(senders).Keys, {}, kernel.wide)
      ensures Roused(old(kernel.threads), kernel.threads, Members(old(kernel.q)[recvHead]) + Members(old(kernel.q)[sendHead]), {})
    {
      hide Roused, ListsOk, ThreadsOk, FatesOk, Handed, Cancelled, RingOk, Frame;
      ghost var who := receivers.Keys + senders.Keys;
      WakeAll(recvHead, sendHead, receivers, senders);
      ghost var v, threads1 := kernel.See(), kernel.threads;
      receivers := Cancelled(receivers);
      WakeAll(sendHead, recvHead, senders, receivers);
      FrameMore(old(kernel.See()), v, kernel.See(), Heads(), who, {}, old(receivers).Keys, old(senders).Keys, kernel.wide);
      RousedBoth(old(kernel.threads), threads1, kernel.threads, Members(old(kernel.q)[recvHead]), Members(old(kernel.q)[sendHead]));
      senders := Cancelled(senders);
    }

    /** Steps elsewhere, since the kernel looked like v: by other objects, whose calls are made by other
        threads. */
    lemma Elsewhere(v: View, heads: set<int>, who: set<int>, raised: set<int>)
      requires Fits(v) && kernel.Valid() && Frame(v, kernel.See(), heads, who, raised, kernel.wide)
      requires Heads() !! heads && who !! receivers.Keys && who !! senders.Keys
      ensures Valid() && kernel.q[recvHead] == v.q[recvHead] && kernel.q[sendHead] == v.q[sendHead]
      ensures raised !! Members(v.q[recvHead]) && raised !! Members(v.q[sendHead]) && OrderedIn(v) ==> Ordered()
    {
      hide ListsOk, ThreadsOk, Urgent, FatesOk, RingOk, Handed, Frame;
      assert recvHead in Heads() && sendHead in Heads();
      FatesElsewhere(receivers, v, kernel.See(), recvHead, heads, who, raised, kernel.wide);
      FatesElsewhere(senders, v, kernel.See(), sendHead, heads, who, raised, kernel.wide);
    }
  }

  /** The two suspend lists of a new mailbox. */
  method NewLists(kernel: Kernel, g: int, h: int)
    requires kernel.Valid() && g < DEFUNCT && h < DEFUNCT && g != h && g !in kernel.q && h !in kernel.q
    modifies kernel`links, kernel`q
    ensures kernel.Valid() && kernel.q == old(kernel.q)[g := []][h := []] && Frame(old(kernel.See()), kernel.See(), {}, {}, {}, kernel.wide)
  {
    hide ListsOk, ThreadsOk, Frame;
    kernel.AddList(g);
    ghost var v := kernel.See();
    kernel.AddList(h);
    FrameMore(old(kernel.See()), v, kernel.See(), {}, {}, {}, {}, {}, kernel.wide);
  }

  lemma EmptyRing(pool: seq<int>)
    ensures RingOk(pool, |pool|, 0, 0, 0, [])
  {
  }

  lemma RingSize(pool: seq<int>, size: nat, entry: nat, out: nat, inn: nat, box: seq<int>)
    requires RingOk(pool, size, entry, out, inn, box)
    ensures entry == |box| && entry <= size
  {
  }

}
