/** ipc.c, message queues. Sending takes a cell off the free list in one region with interrupts
    disabled, fills it unprotected, and links it in a second region; receiving mirrors this. Each
    region and each unprotected copy is a method, so calls of several threads interleave freely. */
module MsgQueues {
  import opened Options
  import opened RtList
  import opened Queues
  import opened ReadyIndex
  import opened Kernel
  import opened Waits
  import opened Chains

  const M16: nat := 0x1_0000         // msg_size and max_msgs have 16 bits
  const LINK: nat := 4               // sizeof(struct rt_mq_message)

  datatype Holder = Free | Queued | Filling | Emptying
  datatype Fill = Fill(message: seq<int>, last: bool)
  datatype Ticket = Cell(cell: int) | TooLong | Full
  datatype Taken = Message(cell: int) | NoMessage | Pending | RecvError(error: Error)

  /** Every cell is in exactly one place, and the two lists are those of the cells so placed. */
  ghost predicate Owned(owner: map<int, Holder>, free: seq<int>, queue: seq<int>) {
    && 0 !in owner
    && (forall c :: c in free <==> c in owner && owner[c] == Free)
    && (forall c :: c in queue <==> c in owner && owner[c] == Queued)
  }

  /** Cells in flight: a filled one holds its message, a taken one still holds it. */
  ghost predicate InFlight(owner: map<int, Holder>, next: map<int, int>, data: map<int, seq<int>>, msgSize: nat,
                           filled: map<int, Fill>, taken: map<int, seq<int>>) {
    && (forall c :: c in owner ==> c in next && c in data && |data[c]| == msgSize)
    && (forall c :: c in filled ==> c in owner && owner[c] == Filling && data[c] == filled[c].message && (filled[c].last ==> next[c] == 0))
    && (forall c :: c in taken <==> c in owner && owner[c] == Emptying)
    && (forall c :: c in taken ==> data[c] == taken[c])
  }

  /** Both lists, the tail and the cells in flight. */
  ghost predicate Linkage(next: map<int, int>, freeHead: int, free: seq<int>, head: int, tail: int, queue: seq<int>, owner: map<int, Holder>,
                          data: map<int, seq<int>>, msgSize: nat, filled: map<int, Fill>, taken: map<int, seq<int>>) {
    && Chain(next, freeHead, free) && Chain(next, head, queue) && tail == Tail(queue)
    && Owned(owner, free, queue) && InFlight(owner, next, data, msgSize, filled, taken)
  }

  /** The messages of these cells. */
  ghost function Contents(queue: seq<int>, data: map<int, seq<int>>): (m: seq<seq<int>>)
    ensures |m| == |queue|
  {
    seq(|queue|, i requires 0 <= i < |queue| => if queue[i] in data then data[queue[i]] else [])
  }

  /** The bytes of a cell after a message was copied into it. */
  function Copied(cell: seq<int>, buffer: seq<int>): (r: seq<int>)
    requires |buffer| <= |cell|
    ensures |r| == |cell| && r[..|buffer|] == buffer
  {
    buffer + cell[|buffer|..]
  }

  class MessageQueue {
    const kernel: Kernel
    const recvHead: int
    const byPriority: bool
    const msgSize: nat
    var next: map<int, int>          // of each cell
    var data: map<int, seq<int>>     // the bytes behind it
    var head: int                    // msg_queue_head
    var tail: int
    var freeHead: int                // msg_queue_free
    var entry: nat
    ghost const cells: set<int>
    ghost var owner: map<int, Holder>
    ghost var free: seq<int>
    ghost var queue: seq<int>
    ghost var filled: map<int, Fill>
    ghost var taken: map<int, seq<int>>
    ghost var receivers: map<int, Fate>

    ghost predicate Lists()
      reads this
    {
      Linkage(next, freeHead, free, head, tail, queue, owner, data, msgSize, filled, taken) && owner.Keys == cells
    }

    ghost predicate Cells()
      reads this
    {
      Lists() && entry == |queue|
    }

    /** The messages waiting, in order. */
    ghost function Messages(): seq<seq<int>>
      reads this
    {
      Contents(queue, data)
    }

    ghost predicate BaseFits(v: View)
      reads this
    {
      recvHead < DEFUNCT && recvHead in v.q && FatesOk(receivers, v.q[recvHead], v.threads) && Cells()
    }

    /** The invariant, with the lists and control blocks of the kernel as in v. */
    ghost predicate Fits(v: View)
      reads this
    {
      BaseFits(v) && Awake(v.q[recvHead], entry, receivers)
    }

    ghost predicate Base()
      reads this, kernel
    {
      kernel.Valid() && BaseFits(kernel.See())
    }

    ghost predicate Valid()
      reads this, kernel
    {
      kernel.Valid() && Fits(kernel.See())
    }

    ghost predicate OrderedIn(v: View)
      requires recvHead in v.q
      reads this
    {
      byPriority ==> Urgent(v.q[recvHead], v.threads)
    }

    ghost predicate Ordered()
      requires recvHead in kernel.q
      reads this, kernel
    {
      OrderedIn(kernel.See())
    }

    /** rt_mq_init: as many cells as the pool has room for, all free. Both the aligned message size and
        the number of cells are cut to 16 bits. */
    constructor (kernel: Kernel, recvHead: int, pool: nat, msg_size: nat, poolSize: nat, byPriority: bool, align: nat)
      requires kernel.Valid() && recvHead < DEFUNCT && recvHead !in kernel.q && 0 < pool && (align == 4 || align == 8)
      modifies kernel`links, kernel`q
      ensures Valid() && Ordered() && Messages() == [] && filled == map[] && taken == map[] && receivers == map[]
      ensures msgSize == RoundUp(msg_size, align) % M16 && |free| == poolSize / (msgSize + LINK) % M16
      ensures forall i :: 0 <= i < |free| ==> free[i] == CellAt(pool, |free| - 1 - i, msgSize + LINK)
      ensures this.kernel == kernel && this.recvHead == recvHead && this.byPriority == byPriority
      ensures kernel.q == old(kernel.q)[recvHead := []] && Frame(old(kernel.See()), kernel.See(), {}, {}, {}, kernel.wide)
    {
      hide ListsOk, ThreadsOk, Chain, Owned, InFlight, PoolOk, CellAt, Frame;
      this.kernel, this.recvHead, this.byPriority := kernel, recvHead, byPriority;
      var size := RoundUp(msg_size, align) % M16;
      var max := poolSize / (size + LINK) % M16;
      ghost var list: seq<int>, places: map<int, Holder>;
      var links, bytes, first;
      links, bytes, first, list, places := BuildPool(pool, size, max);
      PoolDone(pool, size, max, links, bytes, first, list, places);
      msgSize, next, data, freeHead := size, links, bytes, first;
      head, tail, entry, owner, free, queue := 0, 0, 0, places, list, [];
      filled, taken, receivers, cells := map[], map[], map[], places.Keys;
      new;
      kernel.AddList(recvHead);
    }

    // ---- the cells ----

    /** The first free cell passes into the hands of a sender. */
    method TakeFree() returns (c: int)
      requires Cells() && freeHead != 0
      modifies this`freeHead, this`owner, this`free
      ensures Cells() && old(free) == [c] + free && owner == old(owner)[c := Filling] && c !in filled
    {
      hide Chain, Owned, InFlight, Tail;
      ChainHead(next, freeHead, free);
      ChainPop(next, freeHead, free);
      c := freeHead;
      OwnedOut(owner, free, queue, true, Filling);
      HandsFree(owner, next, data, msgSize, filled, taken, free, queue, c);
      freeHead := next[c];
      assert free == [c] + free[1..];
      free := free[1..];
      owner := owner[c := Filling];
    }

    twostate predicate FillLastStep(c: int, buffer: seq<int>)
      reads this
    {
      && Messages() == old(Messages()) && c in data && filled == old(filled)[c := Fill(data[c], true)] && |data[c]| == msgSize
      && |buffer| <= |data[c]| && data[c][..|buffer|] == buffer
    }

    /** The unprotected copy of rt_mq_send, which also ends the cell's list. */
    method FillLast(c: int, buffer: seq<int>)
      requires Cells() && c in owner && owner[c] == Filling && |buffer| <= msgSize
      modifies this`next, this`data, this`filled
      ensures Cells()
      ensures FillLastStep(c, buffer)
    {
      hide Chain, Owned, InFlight, Tail, Copied, Contents;
      OwnedApart(owner, free, queue, c);
      ChainFrame(next, freeHead, free, c, 0);
      ChainFrame(next, head, queue, c, 0);
      CellKnown(owner, next, data, msgSize, filled, taken, c);
      var d := Copied(data[c], buffer);
      HandsFill(owner, next, data, msgSize, filled, taken, c, d, true);
      ContentsSame(queue, data, c, d);
      next := next[c := 0];
      data := data[c := d];
      filled := filled[c := Fill(d, true)];
    }

    twostate predicate FillFirstStep(c: int, buffer: seq<int>)
      reads this
    {
      && Messages() == old(Messages()) && c in data && filled == old(filled)[c := Fill(data[c], false)] && |data[c]| == msgSize
      && |buffer| <= |data[c]| && data[c][..|buffer|] == buffer
    }

    /** The unprotected copy of rt_mq_urgent. */
    method FillFirst(c: int, buffer: seq<int>)
      requires Cells() && c in owner && owner[c] == Filling && |buffer| <= msgSize
      modifies this`data, this`filled
      ensures Cells()
      ensures FillFirstStep(c, buffer)
    {
      hide Chain, Owned, InFlight, Tail, Copied, Contents;
      OwnedApart(owner, free, queue, c);
      CellKnown(owner, next, data, msgSize, filled, taken, c);
      var d := Copied(data[c], buffer);
      HandsFill(owner, next, data, msgSize, filled, taken, c, d, false);
      ContentsSame(queue, data, c, d);
      data := data[c := d];
      filled := filled[c := Fill(d, false)];
    }

    /** The linking of rt_mq_send. */
    method LinkLast(c: int)
      requires Cells() && c in filled && filled[c].last
      modifies this`next, this`head, this`tail, this`entry, this`owner, this`queue, this`filled
      ensures Cells() && entry == old(entry) + 1 && queue == old(queue) + [c] && owner == old(owner)[c := Queued]
      ensures Messages() == old(Messages()) + [old(filled)[c].message] && filled == old(filled) - {c}
    {
      hide Linkage, Contents;
      LinkedLast(owner, next, data, msgSize, filled, taken, freeHead, free, head, tail, queue, c);
      Append(c);
      entry := entry + 1;
      queue, owner, filled := queue + [c], owner[c := Queued], filled - {c};
    }

    /** The pointers of rt_mq_send. */
    method Append(c: int)
      modifies this`next, this`head, this`tail
      ensures next == (if old(tail) != 0 then old(next)[old(tail) := c] else old(next)) && head == (if old(head) == 0 then c else old(head))
      ensures tail == c
    {
      if tail != 0 {
        next := next[tail := c];
      }
      tail := c;
      if head == 0 {
        head := c;
      }
    }

    /** The linking of rt_mq_urgent. */
    method LinkFirst(c: int)
      requires Cells() && c in filled
      modifies this`next, this`head, this`tail, this`entry, this`owner, this`queue, this`filled
      ensures Cells() && entry == old(entry) + 1 && queue == [c] + old(queue) && owner == old(owner)[c := Queued]
      ensures Messages() == [old(filled)[c].message] + old(Messages()) && filled == old(filled) - {c}
    {
      hide Linkage, Contents;
      LinkedFirst(owner, next, data, msgSize, filled, taken, freeHead, free, head, tail, queue, c);
      next := next[c := head];
      head := c;
      if tail == 0 {
        tail := c;
      }
      entry := entry + 1;
      queue, owner, filled := [c] + queue, owner[c := Queued], filled - {c};
    }

    /** The unlinking of rt_mq_recv. */
    method TakeHead() returns (c: int)
      requires Cells() && entry > 0
      modifies this`head, this`tail, this`entry, this`owner, this`queue, this`taken
      ensures Cells() && entry == old(entry) - 1 && old(queue) == [c] + queue && owner == old(owner)[c := Emptying]
      ensures c in old(owner) && old(owner)[c] == Queued && c !in old(taken)
      ensures c in data && old(Messages()) == [data[c]] + Messages() && taken == old(taken)[c := data[c]]
    {
      hide Chain, Owned, InFlight, Tail, Contents;
      ChainHead(next, head, queue);
      ChainPop(next, head, queue);
      c := head;
      OwnedOut(owner, free, queue, false, Emptying);
      CellKnown(owner, next, data, msgSize, filled, taken, c);
      HandsTake(owner, next, data, msgSize, filled, taken, free, queue, c);
      ContentsRest(queue, data, c);
      head := next[c];
      if tail == c {
        tail := 0;
      }
      entry := entry - 1;
      assert queue == [c] + queue[1..];
      queue := queue[1..];
      owner := owner[c := Emptying];
      taken := taken[c := data[c]];
    }

    /** The end of rt_mq_recv: the cell goes to the front of the free list. */
    method GiveBack(c: int)
      requires Cells() && c in taken
      modifies this`next, this`freeHead, this`owner, this`free, this`taken
      ensures Cells() && free == [c] + old(free) && owner == old(owner)[c := Free] && taken == old(taken) - {c}
      ensures Messages() == old(Messages())
    {
      hide Chain, Owned, InFlight, Tail, Contents;
      HandsGive(owner, next, data, msgSize, filled, taken, free, queue, c, freeHead);
      OwnedApart(owner, free, queue, c);
      ChainPush(next, freeHead, free, c);
      ChainFrame(next, head, queue, c, freeHead);
      OwnedBack(owner, free, queue, c);
      next := next[c := freeHead];
      freeHead := c;
      free, owner, taken := [c] + free, owner[c := Free], taken - {c};
    }

    // ---- the kernel calls ----

    twostate predicate SendBeginStep(size: nat, r: Ticket)
      reads this
    {
      && (r == if size > msgSize then TooLong else if old(free) == [] then Full else Cell(old(free)[0]))
      && (r.Cell? ==> free == old(free)[1..] && owner == old(owner)[r.cell := Filling] && r.cell !in filled)
      && (!r.Cell? ==> free == old(free) && owner == old(owner))
    }

    /** The first region of rt_mq_send and rt_mq_urgent. */
    method SendBegin(size: nat) returns (r: Ticket)
      requires Valid() && size > 0
      modifies this`freeHead, this`owner, this`free
      ensures Valid() && (old(Ordered()) ==> Ordered())
      ensures SendBeginStep(size, r)
    {
      hide ListsOk, ThreadsOk, Urgent, FatesOk, Handed, Chain, Owned, InFlight, Tail;
      if size > msgSize {
        return TooLong;
      }
      ChainHead(next, freeHead, free);
      if freeHead == 0 {
        return Full;
      }
      var c := TakeFree();
      return Cell(c);
    }

    twostate predicate SendEndStep(c: int)
      reads this, kernel
    {
      && recvHead in old(kernel.q) && recvHead in kernel.q && c in old(filled) && owner == old(owner)[c := Queued]
      && free == old(free) && Messages() == old(Messages()) + [old(filled)[c].message] && filled == old(filled) - {c}
      && taken == old(taken) && receivers == FirstWoken(old(receivers), old(kernel.q)[recvHead])
      && Frame(old(kernel.See()), kernel.See(), {recvHead}, {}, {}, kernel.wide)
      && receivers.Keys == old(receivers).Keys
      && Roused(old(kernel.threads), kernel.threads, Foremost(old(kernel.q)[recvHead]), {})
    }

    /** The second region of rt_mq_send: the message goes to the back, and wakes one receiver. */
    method SendEnd(c: int)
      requires Valid() && c in filled && filled[c].last
      modifies this, kernel
      ensures Valid() && (old(Ordered()) ==> Ordered())
      ensures SendEndStep(c)
    {
      hide Roused, ListsOk, ThreadsOk, Urgent, FatesOk, Handed, Chain, Owned, InFlight, Tail, Contents, Frame;
      LinkLast(c);
      WakeOne();
    }

    twostate predicate UrgentEndStep(c: int)
      reads this, kernel
    {
      && recvHead in old(kernel.q) && recvHead in kernel.q && c in old(filled) && owner == old(owner)[c := Queued]
      && free == old(free) && Messages() == [old(filled)[c].message] + old(Messages()) && filled == old(filled) - {c}
      && taken == old(taken) && receivers == FirstWoken(old(receivers), old(kernel.q)[recvHead])
      && Frame(old(kernel.See()), kernel.See(), {recvHead}, {}, {}, kernel.wide)
      && receivers.Keys == old(receivers).Keys
      && Roused(old(kernel.threads), kernel.threads, Foremost(old(kernel.q)[recvHead]), {})
    }

    /** The second region of rt_mq_urgent: the message goes to the front. */
    method UrgentEnd(c: int)
      requires Valid() && c in filled
      modifies this, kernel
      ensures Valid() && (old(Ordered()) ==> Ordered())
      ensures UrgentEndStep(c)
    {
      hide Roused, ListsOk, ThreadsOk, Urgent, FatesOk, Handed, Chain, Owned, InFlight, Tail, Contents, Frame;
      LinkFirst(c);
      WakeOne();
    }

    /** Called with one message too many for the receivers woken so far. */
    method WakeOne()
      requires Base() && Awake(kernel.q[recvHead], entry - 1, receivers)
      modifies this`receivers, kernel
      ensures Valid() && (old(Ordered()) ==> Ordered())
      ensures receivers == FirstWoken(old(receivers), old(kernel.q)[recvHead])
      ensures Frame(old(kernel.See()), kernel.See(), {recvHead}, {}, {}, kernel.wide) && receivers.Keys == old(receivers).Keys
      ensures Roused(old(kernel.threads), kernel.threads, Foremost(old(kernel.q)[recvHead]), {})
    {
      hide Roused, ListsOk, ThreadsOk, Urgent, FatesOk, Handed, Chain, Owned, InFlight, Tail, Frame, Settled;
      RousedNone(kernel.threads);
      FrameNone(kernel.See(), {recvHead}, {}, {}, kernel.wide);
      kernel.WaiterFacts(recvHead);
      if !IsEmpty(kernel.links, recvHead) {
        ghost var t := kernel.q[recvHead][0];
        WakeFirst(kernel, recvHead, receivers);
        receivers := receivers[t := Granted];
      }
    }

    twostate predicate RecvStep(t: int, timeout: int, r: Taken)
      reads this, kernel
    {
      && recvHead in old(kernel.q) && recvHead in kernel.q && free == old(free) && filled == old(filled)
      && (r == if old(queue) != [] then Message(old(queue)[0]) else if timeout == 0 then NoMessage else Pending)
      && (r.Message? ==> Gone(old(Messages()), Messages(), old(taken), taken, r.cell))
      && (r.Message? ==> r.cell in old(owner) && old(owner)[r.cell] == Queued && r.cell !in old(taken) && owner == old(owner)[r.cell := Emptying])
      && (!r.Message? ==> Messages() == old(Messages()) && owner == old(owner) && taken == old(taken))
      && (receivers == if r == Pending then old(receivers)[t := Waiting] else old(receivers))
      && Frame(old(kernel.See()), kernel.See(), {recvHead}, {t}, {}, kernel.wide)
      && Roused(old(kernel.threads), kernel.threads, {}, if r == Pending then {t} else {})
      && (r == Pending ==> t in kernel.threads && kernel.threads[t].armed == (timeout > 0))
      && (r == Pending ==> t in old(kernel.threads) && kernel.q[recvHead] == Enqueued(old(kernel.q[recvHead]), old(kernel.threads), t, byPriority))
    }

    /** rt_mq_recv up to the point where the caller holds a message, returns or gives up the processor. */
    method Recv(t: int, timeout: int) returns (r: Taken)
      requires Valid() && (entry == 0 && timeout != 0 ==> t in kernel.at && kernel.threads[t].stat == Ready && t !in receivers)
      modifies this, kernel
      ensures Valid() && (old(Ordered()) ==> Ordered())
      ensures RecvStep(t, timeout, r)
    {
      hide Roused, ListsOk, ThreadsOk, Urgent, FatesOk, Handed, Chain, Owned, InFlight, Tail, Contents, Frame, Enqueued;
      RousedNone(kernel.threads);
      FrameNone(kernel.See(), {recvHead}, {t}, {}, kernel.wide);
      if entry == 0 && timeout == 0 {
        return NoMessage;
      }
      if entry == 0 {
        Wait(t, timeout > 0);
        return Pending;
      }
      var c := TakeHead();
      return Message(c);
    }

    twostate predicate RecvAgainStep(t: int, left: int, r: Taken)
      reads this, kernel
    {
      && recvHead in old(kernel.q) && recvHead in kernel.q && t in old(receivers)
      && free == old(free) && filled == old(filled)
      && (r == if old(receivers)[t] != Granted then RecvError(ErrorOf(old(receivers)[t])) else if old(queue) != [] then Message(old(queue)[0])
              else if left == 0 then NoMessage else Pending)
      && (r.Message? ==> Gone(old(Messages()), Messages(), old(taken), taken, r.cell))
      && (r.Message? ==> r.cell in old(owner) && old(owner)[r.cell] == Queued && r.cell !in old(taken) && owner == old(owner)[r.cell := Emptying])
      && (!r.Message? ==> Messages() == old(Messages()) && owner == old(owner) && taken == old(taken))
      && (receivers == if r == Pending then old(receivers)[t := Waiting] else old(receivers) - {t})
      && Frame(old(kernel.See()), kernel.See(), {recvHead}, {t}, {}, kernel.wide)
      && Roused(old(kernel.threads), kernel.threads, {}, if r == Pending then {t} else {})
      && (r == Pending ==> t in kernel.threads && kernel.threads[t].armed == (left > 0))
      && (r == Pending ==> t in old(kernel.threads) && kernel.q[recvHead] == Enqueued(old(kernel.q[recvHead]), old(kernel.threads), t, byPriority))
      && (r == NoMessage ==> t in kernel.threads && kernel.threads[t].error == ETimeout)
    }

    /** A receiver that blocked runs again. */
    method RecvAgain(t: int, left: int) returns (r: Taken)
      requires Valid() && t in receivers && receivers[t] != Waiting
      modifies this, kernel
      ensures Valid() && (old(Ordered()) ==> Ordered())
      ensures RecvAgainStep(t, left, r)
    {
      hide Roused, ListsOk, ThreadsOk, Urgent, FatesOk, Handed, Chain, Owned, InFlight, Tail, Contents, Frame, Enqueued;
      RousedNone(kernel.threads);
      FrameNone(kernel.See(), {recvHead}, {t}, {}, kernel.wide);
      FateRead(receivers, kernel.q[recvHead], kernel.threads, t);
      HandedLess(receivers, t);
      kernel.Known();
      if kernel.threads[t].error != EOk {
        r := RecvError(kernel.threads[t].error);
        receivers := receivers - {t};
        return;
      }
      receivers := receivers - {t};
      if entry == 0 {
        if left == 0 {
          GiveUp(t);
          return NoMessage;
        }
        Wait(t, left > 0);
        MapBack(old(receivers), t);
        return Pending;
      }
      var c := TakeHead();
      return Message(c);
    }

    /** The error of a receiver whose time is over. */
    method GiveUp(t: int)
      requires Valid() && t in kernel.at && t !in receivers
      modifies kernel
      ensures Valid() && (old(Ordered()) ==> Ordered()) && t in kernel.threads && kernel.threads[t].error == ETimeout
      ensures Frame(old(kernel.See()), kernel.See(), {recvHead}, {t}, {}, kernel.wide) && Roused(old(kernel.threads), kernel.threads, {}, {})
    {
      hide Roused, ListsOk, ThreadsOk, Urgent, FatesOk, Handed, Linkage, Frame;
      ghost var threads0 := kernel.threads;
      kernel.StatOf(t);
      kernel.SetError(t, ETimeout);
      FatesSame(receivers, kernel.q[recvHead], threads0, kernel.threads, t);
      FrameWider(old(kernel.See()), kernel.See(), {}, {t}, {}, {recvHead}, {t}, {}, kernel.wide);
    }

    /** Gives up the processor in the suspend list. */
    method Wait(t: int, timed: bool)
      requires Valid() && t in kernel.at && kernel.threads[t].stat == Ready && t !in receivers && entry == 0
      modifies this`receivers, kernel
      ensures Valid() && (old(Ordered()) ==> Ordered()) && receivers == old(receivers)[t := Waiting]
      ensures t in kernel.threads && kernel.threads[t].armed == timed && t in old(kernel.threads)
      ensures kernel.q[recvHead] == Enqueued(old(kernel.q[recvHead]), old(kernel.threads), t, byPriority)
      ensures Frame(old(kernel.See()), kernel.See(), {recvHead}, {t}, {}, kernel.wide)
      ensures Roused(old(kernel.threads), kernel.threads, {}, {t})
    {
      hide Roused, ListsOk, ThreadsOk, Urgent, FatesOk, Handed, Chain, Owned, InFlight, Tail, Enqueued, Frame;
      StartWait(kernel, recvHead, t, byPriority, timed, receivers);
      receivers := receivers[t := Waiting];
    }

    /** The unprotected copy of rt_mq_recv: the message it took, cut to the size of the buffer. */
    method Copy(c: int, size: nat) returns (buffer: seq<int>)
      requires Valid() && c in taken && size > 0
      ensures |taken[c]| == msgSize && buffer == taken[c][..Min(size, msgSize)]
    {
      hide ListsOk, ThreadsOk, FatesOk, Handed, Chain, Owned, Tail;
      buffer := data[c][..if size > msgSize then msgSize else size];
    }

    twostate predicate RecvEndStep(c: int)
      reads this
    {
      && Messages() == old(Messages()) && owner == old(owner)[c := Free] && taken == old(taken) - {c}
      && free == [c] + old(free) && filled == old(filled) && receivers == old(receivers)
    }

    /** The second region of rt_mq_recv. */
    method RecvEnd(c: int)
      requires Valid() && c in taken
      modifies this
      ensures Valid() && (old(Ordered()) ==> Ordered())
      ensures RecvEndStep(c)
    {
      hide ListsOk, ThreadsOk, Urgent, FatesOk, Handed, Chain, Owned, InFlight, Tail, Contents;
      GiveBack(c);
    }

    twostate predicate TimeoutStep(t: int)
      reads this, kernel
    {
      && recvHead in old(kernel.q) && recvHead in kernel.q && receivers == old(receivers)[t := TimedOut]
      && kernel.q[recvHead] == Without(old(kernel.q)[recvHead], t)
      && Frame(old(kernel.See()), kernel.See(), {recvHead}, {t}, {}, kernel.wide)
      && Roused(old(kernel.threads), kernel.threads, {t}, {})
    }

    /** The expiry of a waiter's timer. */
    method Timeout(t: int)
      requires Valid() && t in receivers && receivers[t] == Waiting && kernel.threads[t].armed
      modifies this`receivers, kernel
      ensures Valid() && (old(Ordered()) ==> Ordered())
      ensures TimeoutStep(t)
    {
      hide Roused, ListsOk, ThreadsOk, Urgent, FatesOk, Handed, Chain, Owned, InFlight, Tail, Without, Frame, Settled;
      WithoutEmpty(t);
      ExpireWait(kernel, recvHead, t, receivers);
      receivers := receivers[t := TimedOut];
    }

    twostate predicate ResetStep()
      reads this, kernel
    {
      && recvHead in old(kernel.q) && recvHead in kernel.q && Messages() == [] && queue == [] && kernel.q[recvHead] == []
      && receivers == Cancelled(old(receivers)) && filled == old(filled) && taken == old(taken)
      && |free| == old(|free| + |queue|) && owner == Drained(old(owner))
      && Members(old(kernel.q)[recvHead]) <= old(receivers).Keys && receivers.Keys == old(receivers).Keys
      && Frame(old(kernel.See()), kernel.See(), {recvHead}, Members(old(kernel.q)[recvHead]), {}, kernel.wide)
      && Roused(old(kernel.threads), kernel.threads, Members(old(kernel.q)[recvHead]), {})
    }

    /** RT_IPC_CMD_RESET: every waiter fails, every queued cell becomes free; cells in flight stay where they are. */
    method Reset()
      requires Valid()
      modifies this, kernel
      ensures Valid() && Ordered()
      ensures ResetStep()
    {
      hide Roused, ListsOk, ThreadsOk, FatesOk, AllWoken, Cancelled, Chain, Owned, InFlight, Tail, Drained, Frame, Settled, Handed;
      CancelAll(kernel, recvHead, receivers);
      receivers := Cancelled(receivers);
      Drain();
    }

    /** The loop of the reset. */
    method Drain()
      requires Cells()
      modifies this`next, this`head, this`tail, this`entry, this`freeHead, this`owner, this`free, this`queue
      ensures Cells() && queue == [] && |free| == old(|free| + |queue|) && owner == Drained(old(owner))
    {
      hide Chain, Owned, InFlight, Tail, Drained;
      ChainHead(next, head, queue);
      while head != 0
        modifies this`next, this`head, this`tail, this`freeHead, this`owner, this`free, this`queue
        invariant Lists() && (head == 0 <==> queue == [])
        invariant |free| + |queue| == old(|free| + |queue|) && Drained(owner) == Drained(old(owner))
        decreases |queue|
      {
        DrainOne();
      }
      entry := 0;
      DrainedNone(owner, free, queue);
    }

    method DrainOne()
      requires Lists() && head != 0
      modifies this`next, this`head, this`tail, this`freeHead, this`owner, this`free, this`queue
      ensures Lists() && (head == 0 <==> queue == []) && |queue| == old(|queue|) - 1 && |free| == old(|free|) + 1
      ensures Drained(owner) == Drained(old(owner))
    {
      hide Chain, Owned, InFlight, Tail, Drained;
      ChainHead(next, head, queue);
      ChainPop(next, head, queue);
      DrainCell(owner, next, data, msgSize, filled, taken, free, queue, freeHead);
      DrainedMore(owner, head);
      ChainFrame(next, next[head], queue[1..], head, freeHead);
      ChainPush(next, freeHead, free, head);
      ChainHead(next, next[head], queue[1..]);
      var msg := head;
      head := next[msg];
      if tail == msg {
        tail := 0;
      }
      next := next[msg := freeHead];
      freeHead := msg;
      queue, free, owner := queue[1..], [msg] + free, owner[msg := Free];
    }

    /** Steps elsewhere, since the kernel looked like v: by other objects, whose calls are made by other
        threads. */
    lemma Elsewhere(v: View, heads: set<int>, who: set<int>, raised: set<int>)
      requires Fits(v) && kernel.Valid() && Frame(v, kernel.See(), heads, who, raised, kernel.wide)
      requires recvHead !in heads && who !! receivers.Keys
      ensures Valid() && kernel.q[recvHead] == v.q[recvHead]
      ensures raised !! Members(v.q[recvHead]) && OrderedIn(v) ==> Ordered()
    {
      hide ListsOk, ThreadsOk, Urgent, FatesOk, Frame, Handed, Chain, Owned, InFlight, Tail;
      FatesElsewhere(receivers, v, kernel.See(), recvHead, heads, who, raised, kernel.wide);
    }
  }

  /** Two senders and a receiver, their copies interleaved: the message received is the one that was first
      when it was taken, and the two sent ones stand behind what was left, in the order of their ends. */
  method TwoSendersOneReceiver(m: MessageQueue, first: seq<int>, second: seq<int>, size: nat)
    returns (got: seq<int>, ghost x: seq<int>, ghost y: seq<int>)
    requires m.Valid() && |m.free| >= 2 && m.queue != [] && 0 < |first| <= m.msgSize && 0 < |second| <= m.msgSize && 0 < size
    modifies m, m.kernel
    ensures m.Valid() && m.filled == old(m.filled) && m.taken == old(m.taken)
    ensures old(m.queue) != [] && |old(m.Messages())[0]| == m.msgSize && got == old(m.Messages())[0][..Min(size, m.msgSize)]
    ensures m.Messages() == old(m.Messages())[1..] + [y, x]
    ensures |first| <= |x| && x[..|first|] == first && |second| <= |y| && y[..|second|] == second
  {
    hide ListsOk, ThreadsOk, FatesOk, Linkage, Handed, Contents, Frame, MessageQueue.Fits;
    var a, b, r;
    a, b, r, x, y := AllInFlight(m, first, second);
    BothEnd(m, b, a);
    got := m.Copy(r, size);
    m.RecvEnd(r);
  }

  method BothEnd(m: MessageQueue, b: int, a: int)
    requires m.Valid() && a in m.filled && b in m.filled && a != b && m.filled[a].last && m.filled[b].last
    modifies m, m.kernel
    ensures m.Valid() && m.filled == old(m.filled) - {b} - {a} && m.taken == old(m.taken)
    ensures m.Messages() == old(m.Messages()) + [old(m.filled)[b].message] + [old(m.filled)[a].message]
  {
    hide ListsOk, ThreadsOk, FatesOk, Linkage, Handed, Contents, Frame, MessageQueue.Fits;
    m.SendEnd(b);
    m.SendEnd(a);
  }

  /** Both senders have filled their cells, the receiver has taken its message. */
  method AllInFlight(m: MessageQueue, first: seq<int>, second: seq<int>) returns (a: int, b: int, r: int, ghost x: seq<int>, ghost y: seq<int>)
    requires m.Valid() && |m.free| >= 2 && m.queue != [] && 0 < |first| <= m.msgSize && 0 < |second| <= m.msgSize
    modifies m, m.kernel
    ensures m.Valid() && a == old(m.free)[0] && b == old(m.free)[1] && a != b
    ensures m.filled == old(m.filled)[a := Fill(x, true)][b := Fill(y, true)] && a !in old(m.filled) && b !in old(m.filled)
    ensures m.Messages() == old(m.Messages())[1..] && m.taken == old(m.taken)[r := old(m.Messages())[0]] && r !in old(m.taken)
    ensures |first| <= |x| && x[..|first|] == first && |second| <= |y| && y[..|second|] == second
  {
    hide ListsOk, ThreadsOk, Urgent, FatesOk, Handed, Chain, Owned, InFlight, Tail, Contents, Frame, Enqueued;
    a, b, r := ThreeCells(m, |first|, |second|);
    m.FillLast(a, first);
    x := m.filled[a].message;
    m.FillLast(b, second);
    y := m.filled[b].message;
  }

  method ThreeCells(m: MessageQueue, n: nat, k: nat) returns (a: int, b: int, r: int)
    requires m.Valid() && |m.free| >= 2 && m.queue != [] && 0 < n <= m.msgSize && 0 < k <= m.msgSize
    modifies m, m.kernel
    ensures m.Valid() && a == old(m.free)[0] && b == old(m.free)[1] && a != b && a !in m.filled && b !in m.filled
    ensures m.filled == old(m.filled) && a in m.owner && m.owner[a] == Filling && b in m.owner && m.owner[b] == Filling
    ensures m.Messages() == old(m.Messages())[1..] && m.taken == old(m.taken)[r := old(m.Messages())[0]] && r !in old(m.taken)
  {
    hide ListsOk, ThreadsOk, Urgent, FatesOk, Handed, Chain, Owned, InFlight, Tail, Contents, Frame, Enqueued;
    TwoFree(m.next, m.freeHead, m.free);
    var s := m.SendBegin(n);
    a := s.cell;
    s := m.SendBegin(k);
    b := s.cell;
    var t := m.Recv(0, 0);
    r := t.cell;
  }

  lemma TwoFree(next: map<int, int>, head: int, free: seq<int>)
    requires Chain(next, head, free) && |free| >= 2
    ensures free[0] != free[1] && free[1..] != [] && free[1..][0] == free[1]
  {
  }

  /** The first message is in hand. */
  ghost predicate Gone(was: seq<seq<int>>, left: seq<seq<int>>, taken: map<int, seq<int>>, taken2: map<int, seq<int>>, c: int) {
    was != [] && left == was[1..] && taken2 == taken[c := was[0]]
  }

  ghost function Drained(owner: map<int, Holder>): map<int, Holder> {
    map c | c in owner :: if owner[c] == Queued then Free else owner[c]
  }

  lemma DrainedMore(owner: map<int, Holder>, c: int)
    requires c in owner && owner[c] == Queued
    ensures Drained(owner[c := Free]) == Drained(owner)
  {
  }

  lemma DrainedNone(owner: map<int, Holder>, free: seq<int>, queue: seq<int>)
    requires Owned(owner, free, queue) && queue == []
    ensures Drained(owner) == owner
  {
    assert forall c :: c in owner && owner[c] == Queued ==> c in queue;
  }

  lemma DrainCell(owner: map<int, Holder>, next: map<int, int>, data: map<int, seq<int>>, msgSize: nat,
                  filled: map<int, Fill>, taken: map<int, seq<int>>, free: seq<int>, queue: seq<int>, v: int)
    requires InFlight(owner, next, data, msgSize, filled, taken) && Owned(owner, free, queue)
    requires queue != [] && queue[0] !in queue[1..]
    ensures var c := queue[0];
            && c in owner && owner[c] == Queued && c != 0 && c !in free && owner[c := Free].Keys == owner.Keys
            && Owned(owner[c := Free], [c] + free, queue[1..])
            && InFlight(owner[c := Free], next[c := v], data, msgSize, filled, taken)
  {
    assert queue == [queue[0]] + queue[1..];
  }

  // ---- the cells, on values ----

  lemma OwnedApart(owner: map<int, Holder>, free: seq<int>, queue: seq<int>, c: int)
    requires Owned(owner, free, queue) && c in owner && owner[c] != Free && owner[c] != Queued
    ensures c !in free && c !in queue && c != 0
  {
  }

  lemma TailApart(owner: map<int, Holder>, free: seq<int>, queue: seq<int>, c: int)
    requires Owned(owner, free, queue) && c in queue
    ensures c !in free && c != 0
  {
  }

  /** The first cell of the free list, or of the queue, is taken into hand. */
  lemma OwnedOut(owner: map<int, Holder>, free: seq<int>, queue: seq<int>, fromFree: bool, p: Holder)
    requires Owned(owner, free, queue) && p != Free && p != Queued
    requires if fromFree then free != [] && free[0] !in free[1..] else queue != [] && queue[0] !in queue[1..]
    ensures var c := if fromFree then free[0] else queue[0];
            && c in owner && owner[c] == (if fromFree then Free else Queued) && c != 0 && owner[c := p].Keys == owner.Keys
            && Owned(owner[c := p], if fromFree then free[1..] else free, if fromFree then queue else queue[1..])
            && (if fromFree then c !in queue else c !in free)
  {
    if fromFree { assert free == [free[0]] + free[1..]; } else { assert queue == [queue[0]] + queue[1..]; }
  }

  lemma OwnedIn(owner: map<int, Holder>, free: seq<int>, queue: seq<int>, c: int)
    requires Owned(owner, free, queue) && c in owner && owner[c] != Free
    ensures owner[c := Queued].Keys == owner.Keys
    ensures Owned(owner[c := Queued], free, queue + [c]) && Owned(owner[c := Queued], free, [c] + queue)
  {
  }

  lemma OwnedBack(owner: map<int, Holder>, free: seq<int>, queue: seq<int>, c: int)
    requires Owned(owner, free, queue) && c in owner && owner[c] != Queued
    ensures owner[c := Free].Keys == owner.Keys && Owned(owner[c := Free], [c] + free, queue)
  {
  }

  lemma CellKnown(owner: map<int, Holder>, next: map<int, int>, data: map<int, seq<int>>, msgSize: nat,
                  filled: map<int, Fill>, taken: map<int, seq<int>>, c: int)
    requires InFlight(owner, next, data, msgSize, filled, taken) && c in owner
    ensures c in next && c in data && |data[c]| == msgSize
  {
  }

  lemma CellFilled(owner: map<int, Holder>, next: map<int, int>, data: map<int, seq<int>>, msgSize: nat,
                   filled: map<int, Fill>, taken: map<int, seq<int>>, c: int)
    requires InFlight(owner, next, data, msgSize, filled, taken) && c in filled
    ensures c in owner && owner[c] == Filling && c in next && c in data && data[c] == filled[c].message && (filled[c].last ==> next[c] == 0)
  {
  }

  lemma HandsFree(owner: map<int, Holder>, next: map<int, int>, data: map<int, seq<int>>, msgSize: nat,
                  filled: map<int, Fill>, taken: map<int, seq<int>>, free: seq<int>, queue: seq<int>, c: int)
    requires InFlight(owner, next, data, msgSize, filled, taken) && Owned(owner, free, queue) && c in free
    ensures InFlight(owner[c := Filling], next, data, msgSize, filled, taken) && c !in filled
  {
  }

  lemma HandsFill(owner: map<int, Holder>, next: map<int, int>, data: map<int, seq<int>>, msgSize: nat,
                  filled: map<int, Fill>, taken: map<int, seq<int>>, c: int, d: seq<int>, last: bool)
    requires InFlight(owner, next, data, msgSize, filled, taken) && c in owner && owner[c] == Filling && |d| == msgSize
    ensures last ==> InFlight(owner, next[c := 0], data[c := d], msgSize, filled[c := Fill(d, true)], taken)
    ensures !last ==> InFlight(owner, next, data[c := d], msgSize, filled[c := Fill(d, false)], taken)
  {
  }

  /** c joins the queue; the next field of the cell in front of it, if any, may change. */
  lemma HandsLink(owner: map<int, Holder>, next: map<int, int>, data: map<int, seq<int>>, msgSize: nat,
                  filled: map<int, Fill>, taken: map<int, seq<int>>, free: seq<int>, queue: seq<int>, c: int, tail: int)
    requires InFlight(owner, next, data, msgSize, filled, taken) && Owned(owner, free, queue) && c in filled
    ensures InFlight(owner[c := Queued], next, data, msgSize, filled - {c}, taken)
    ensures tail in queue ==> InFlight(owner[c := Queued], next[tail := c], data, msgSize, filled - {c}, taken)
  {
  }

  lemma HandsLinked(owner: map<int, Holder>, next: map<int, int>, data: map<int, seq<int>>, msgSize: nat,
                    filled: map<int, Fill>, taken: map<int, seq<int>>, c: int, v: int)
    requires InFlight(owner[c := Queued], next, data, msgSize, filled - {c}, taken)
    ensures InFlight(owner[c := Queued], next[c := v], data, msgSize, filled - {c}, taken)
  {
  }

  /** rt_mq_send links c behind the tail. */
  lemma LinkedLast(owner: map<int, Holder>, next: map<int, int>, data: map<int, seq<int>>, msgSize: nat, filled: map<int, Fill>,
                   taken: map<int, seq<int>>, freeHead: int, free: seq<int>, head: int, tail: int, queue: seq<int>, c: int)
    requires Linkage(next, freeHead, free, head, tail, queue, owner, data, msgSize, filled, taken) && c in filled && filled[c].last
    ensures Linkage(if tail != 0 then next[tail := c] else next, freeHead, free, if head == 0 then c else head, c, queue + [c],
                    owner[c := Queued], data, msgSize, filled - {c}, taken)
    ensures owner[c := Queued].Keys == owner.Keys
    ensures Contents(queue + [c], data) == Contents(queue, data) + [filled[c].message]
  {
    hide Chain, Owned, InFlight, Tail, Contents;
    CellFilled(owner, next, data, msgSize, filled, taken, c);
    OwnedApart(owner, free, queue, c);
    ChainAppend(next, head, queue, c);
    ChainHead(next, head, queue);
    OwnedIn(owner, free, queue, c);
    HandsLink(owner, next, data, msgSize, filled, taken, free, queue, c, Tail(queue));
    ContentsLast(queue, data, c);
    TailMember(queue);
    assert queue == [] ==> queue + [c] == [c];
    if queue != [] {
      TailApart(owner, free, queue, Tail(queue));
      ChainFrame(next, freeHead, free, Tail(queue), c);
    }
  }

  /** rt_mq_urgent links c in front of the head. */
  lemma LinkedFirst(owner: map<int, Holder>, next: map<int, int>, data: map<int, seq<int>>, msgSize: nat, filled: map<int, Fill>,
                    taken: map<int, seq<int>>, freeHead: int, free: seq<int>, head: int, tail: int, queue: seq<int>, c: int)
    requires Linkage(next, freeHead, free, head, tail, queue, owner, data, msgSize, filled, taken) && c in filled
    ensures Linkage(next[c := head], freeHead, free, c, if tail == 0 then c else tail, [c] + queue,
                    owner[c := Queued], data, msgSize, filled - {c}, taken)
    ensures owner[c := Queued].Keys == owner.Keys
    ensures Contents([c] + queue, data) == [filled[c].message] + Contents(queue, data)
  {
    hide Chain, Owned, InFlight, Tail, Contents;
    CellFilled(owner, next, data, msgSize, filled, taken, c);
    OwnedApart(owner, free, queue, c);
    ChainPush(next, head, queue, c);
    ChainFrame(next, freeHead, free, c, head);
    OwnedIn(owner, free, queue, c);
    HandsLink(owner, next, data, msgSize, filled, taken, free, queue, c, 0);
    HandsLinked(owner, next, data, msgSize, filled, taken, c, head);
    ContentsFirst(queue, data, c);
    TailMember(queue);
    if queue != [] { TailApart(owner, free, queue, Tail(queue)); }
  }

  lemma HandsTake(owner: map<int, Holder>, next: map<int, int>, data: map<int, seq<int>>, msgSize: nat,
                  filled: map<int, Fill>, taken: map<int, seq<int>>, free: seq<int>, queue: seq<int>, c: int)
    requires InFlight(owner, next, data, msgSize, filled, taken) && Owned(owner, free, queue) && c in queue && c in data
    ensures InFlight(owner[c := Emptying], next, data, msgSize, filled, taken[c := data[c]]) && c !in taken
  {
  }

  lemma HandsGive(owner: map<int, Holder>, next: map<int, int>, data: map<int, seq<int>>, msgSize: nat,
                  filled: map<int, Fill>, taken: map<int, seq<int>>, free: seq<int>, queue: seq<int>, c: int, v: int)
    requires InFlight(owner, next, data, msgSize, filled, taken) && c in taken
    ensures c in owner && owner[c] == Emptying
    ensures InFlight(owner[c := Free], next[c := v], data, msgSize, filled, taken - {c})
  {
  }

  lemma ContentsSame(queue: seq<int>, data: map<int, seq<int>>, c: int, d: seq<int>)
    requires c !in queue
    ensures Contents(queue, data[c := d]) == Contents(queue, data)
  {
  }

  lemma ContentsLast(queue: seq<int>, data: map<int, seq<int>>, c: int)
    requires c in data
    ensures Contents(queue + [c], data) == Contents(queue, data) + [data[c]]
  {
  }

  lemma ContentsFirst(queue: seq<int>, data: map<int, seq<int>>, c: int)
    requires c in data
    ensures Contents([c] + queue, data) == [data[c]] + Contents(queue, data)
  {
  }

  lemma ContentsRest(queue: seq<int>, data: map<int, seq<int>>, c: int)
    requires queue != [] && queue[0] == c && c in data
    ensures Contents(queue, data) == [data[c]] + Contents(queue[1..], data)
  {
  }

  /** The loop of rt_mq_init. */
  method BuildPool(pool: nat, size: nat, max: nat)
    returns (next: map<int, int>, data: map<int, seq<int>>, first: int, ghost list: seq<int>, ghost places: map<int, Holder>)
    requires 0 < pool
    ensures |list| == max && PoolOk(pool, size, max, next, data, first, list, places)
  {
    hide PoolOk, CellAt;
    next, data, first, list, places := map[], map[], 0, [], map[];
    PoolStart(pool, size);
    for i := 0 to max
      invariant |list| == i && PoolOk(pool, size, i, next, data, first, list, places)
    {
      PoolStep(pool, size, i, next, data, first, list, places);
      var c := CellAt(pool, i, size + LINK);
      next, data := next[c := first], data[c := seq(size, _ => 0)];
      first, list, places := c, [c] + list, places[c := Free];
    }
  }

  ghost predicate PoolOk(pool: nat, size: nat, n: nat, next: map<int, int>, data: map<int, seq<int>>, first: int,
                         list: seq<int>, places: map<int, Holder>) {
    && |list| == n && Chain(next, first, list) && Owned(places, list, [])
    && (forall j :: 0 <= j < n ==> list[j] == CellAt(pool, n - 1 - j, size + LINK))
    && (forall c :: c in places ==> c in next && c in data && |data[c]| == size && places[c] == Free && c < CellAt(pool, n, size + LINK))
  }

  lemma PoolStart(pool: nat, size: nat)
    ensures PoolOk(pool, size, 0, map[], map[], 0, [], map[])
  {
  }

  lemma PoolDone(pool: nat, size: nat, n: nat, next: map<int, int>, data: map<int, seq<int>>, first: int, list: seq<int>, places: map<int, Holder>)
    requires PoolOk(pool, size, n, next, data, first, list, places)
    ensures |list| == n && Chain(next, first, list) && Chain(next, 0, []) && Owned(places, list, [])
    ensures InFlight(places, next, data, size, map[], map[])
    ensures forall j :: 0 <= j < n ==> list[j] == CellAt(pool, n - 1 - j, size + LINK)
  {
  }

  lemma PoolStep(pool: nat, size: nat, i: nat, next: map<int, int>, data: map<int, seq<int>>, first: int, list: seq<int>, places: map<int, Holder>)
    requires PoolOk(pool, size, i, next, data, first, list, places) && 0 < pool
    ensures var c := CellAt(pool, i, size + LINK);
            PoolOk(pool, size, i + 1, next[c := first], data[c := seq(size, _ => 0)], c, [c] + list, places[c := Free])
  {
    hide CellAt, Chain;
    var c := CellAt(pool, i, size + LINK);
    StrideGrows(pool, i, size + LINK);
    assert c !in places && c !in list;
    ChainPush(next, first, list, c);
  }

  /** RT_ALIGN */
  function RoundUp(n: nat, align: nat): nat
    requires align > 0
  {
    (n + align - 1) / align * align
  }

  /** A cell has room for a message of the given size exactly when the aligned size fits 16 bits. */
  lemma SizeKept(msg_size: nat, align: nat)
    requires align == 4 || align == 8
    ensures msg_size <= RoundUp(msg_size, align) % M16 <==> msg_size <= M16 - align
    ensures RoundUp(msg_size, align) % align == 0 && msg_size <= RoundUp(msg_size, align) < msg_size + align
  {
  }

  function CellAt(pool: nat, i: int, stride: nat): int {
    pool + i * stride
  }

  /** The cells lie one behind the other in the pool. */
  lemma CellsInside(pool: nat, poolSize: nat, stride: nat, i: nat, j: nat)
    requires 0 < stride && i < poolSize / stride && j < i
    ensures CellAt(pool, j, stride) + stride <= CellAt(pool, i, stride) && CellAt(pool, i, stride) + stride <= pool + poolSize
  {
    var n := poolSize / stride;
    Euclid(poolSize, stride);
    Mono(j + 1, i, stride);
    Mono(i + 1, n, stride);
    Next(j, stride);
    Next(i, stride);
  }

  lemma Next(i: nat, stride: nat)
    ensures (i + 1) * stride == i * stride + stride
  {
  }

  lemma StrideGrows(pool: nat, i: nat, stride: nat)
    requires 0 < stride
    ensures pool <= CellAt(pool, i, stride) < CellAt(pool, i + 1, stride)
  {
  }
}
