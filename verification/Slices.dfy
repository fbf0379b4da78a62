/** clock.c and scheduler.c together, over many ticks: how long a thread runs before the next one of its
    priority, and in which order they run. */
module Slices {
  import opened RtList
  import opened Queues
  import opened ReadyIndex
  import opened Kernel

  /** The running thread is the first of at least two READY ones of its priority. */
  ghost predicate Leads(k: Kernel, h: int)
    reads k
  {
    && k.Valid() && k.current in k.at && k.current in k.threads && k.threads[k.current].stat == Ready
    && k.at[k.current] == h && h in k.q && |k.q[h]| >= 2 && k.q[h][0] == k.current
  }

  /** The first thread of a list is now the last. */
  lemma Rotated(q: map<int, seq<int>>, at: map<int, int>, q2: map<int, seq<int>>, t: int, h: int)
    requires Moved(q, at, q2, at, t, h) && at[t] == h && h in q && q[h] != [] && q[h][0] == t
    ensures q2 == q[h := q[h][1..] + [t]]
  {
    YieldRotates(q, at, q2, at, t, h);
  }

  /** One tick of the running thread. */
  method OneTick(k: Kernel, ghost h: int)
    requires Leads(k, h) && k.threads[k.current].left >= 1
    modifies k`links, k`threads, k`q, k`at, k`current, k`currentPriority
    ensures k.Valid() && k.at == old(k.at)
    ensures var t, c := old(k.current), old(k.threads)[old(k.current)];
            if c.left > 1 then k.threads == old(k.threads)[t := c.(left := c.left - 1)] && k.q == old(k.q) && k.current == t
            else k.threads == old(k.threads)[t := c.(left := c.slice)] && k.q == old(k.q)[h := old(k.q)[h][1..] + [t]]
                 && (k.lockNest == 0 ==> k.First(k.current))
  {
    hide ListsOk, ThreadsOk, Moved, Frame;
    k.TimeSlice();
    if old(k.threads)[old(k.current)].left == 1 { Rotated(old(k.q), old(k.at), k.q, old(k.current), h); }
  }

  /** A thread in front of its list with left ticks to run stays there through fewer ticks, and the last one
      puts it behind the others with a new slice. */
  method RunSlice(k: Kernel, ghost h: int, n: nat)
    requires Leads(k, h) && 1 <= n <= k.threads[k.current].left
    modifies k`links, k`threads, k`q, k`at, k`current, k`currentPriority
    ensures k.Valid() && k.at == old(k.at)
    ensures var t, c := old(k.current), old(k.threads)[old(k.current)];
            if n < c.left then k.threads == old(k.threads)[t := c.(left := c.left - n)] && k.q == old(k.q) && k.current == t
            else k.threads == old(k.threads)[t := c.(left := c.slice)] && k.q == old(k.q)[h := old(k.q)[h][1..] + [t]]
                 && (k.lockNest == 0 ==> k.First(k.current))
  {
    hide ListsOk, ThreadsOk, Frame, Kernel.Valid;
    for i := 1 to n
      modifies k`links, k`threads, k`q, k`at, k`current, k`currentPriority
      invariant Leads(k, h) && k.q == old(k.q) && k.current == old(k.current) && k.at == old(k.at)
      invariant k.threads == old(k.threads)[k.current := old(k.threads)[k.current].(left := old(k.threads)[k.current].left - i + 1)]
    {
      OneTick(k, h);
    }
    OneTick(k, h);
  }

  /** Who runs in each tick when every thread of the list uses up its slice in turn. */
  ghost function Shares(s: seq<int>, threads: map<int, Thread>): seq<int> {
    if s == [] then [] else Shares(s[..|s| - 1], threads) + Share(s[|s| - 1], threads)
  }

  ghost function Share(t: int, threads: map<int, Thread>): seq<int> {
    seq(if t in threads then threads[t].slice else 0, i => t)
  }

  /** The threads of the list have full slices. */
  ghost predicate Fresh(s: seq<int>, threads: map<int, Thread>) {
    forall t :: t in s ==> t in threads && threads[t].stat == Ready && threads[t].slice >= 1 && threads[t].left == threads[t].slice
  }

  /** Nobody READY is more urgent than the threads of the list. */
  ghost predicate Topmost(threads: map<int, Thread>, at: map<int, int>, h: int) {
    h < 0 && forall t :: t in at && t in threads && threads[t].stat == Ready ==> -1 - h <= threads[t].prio
  }

  lemma InFront(k: Kernel, h: int)
    requires k.Valid() && k.First(k.current) && Topmost(k.threads, k.at, h) && h in k.q && |k.q[h]| >= 2 && Fresh(k.q[h], k.threads)
    ensures Leads(k, h)
  {
    hide Agrees, Busy, AttrOf, Ring;
    var x, t := k.q[h][0], k.current;
    assert x in k.q[h];
    assert x in k.at && k.at[x] == h;
    k.StatOf(x);
    k.StatOf(t);
  }

  lemma Highest(k: Kernel, h: int)
    requires Leads(k, h) && k.First(k.current)
    ensures Topmost(k.threads, k.at, h)
  {
    hide ListsOk, AttrOf;
    k.StatOf(k.current);
  }

  /** While nothing else happens, the m threads of the most urgent priority run in the order of their list,
      each for its slice, and then everything is as before. */
  method Round(k: Kernel, ghost h: int, m: nat) returns (ran: seq<int>)
    requires Leads(k, h) && k.lockNest == 0 && k.First(k.current) && Fresh(k.q[h], k.threads) && m == |k.q[h]|
    modifies k`links, k`threads, k`q, k`at, k`current, k`currentPriority
    ensures k.Valid() && k.current == old(k.current) && k.q == old(k.q) && k.at == old(k.at) && k.threads == old(k.threads)
    ensures ran == Shares(old(k.q)[h], old(k.threads))
  {
    hide ListsOk, ThreadsOk, Frame, Kernel.Valid, Kernel.First, Shares, Topmost;
    ghost var s := k.q[h];
    Highest(k, h);
    ran := [];
    SharesNone(k.threads);
    assert s[0..] + s[..0] == s;
    for i := 0 to m
      modifies k`links, k`threads, k`q, k`at, k`current, k`currentPriority
      invariant Leads(k, h) && k.First(k.current) && Topmost(k.threads, k.at, h) && k.at == old(k.at) && k.threads == old(k.threads)
      invariant k.q == old(k.q)[h := s[i..] + s[..i]] && ran == Shares(s[..i], k.threads)
    {
      var t := k.current;
      var n := k.threads[t].slice;
      assert t == s[i] && t in s;
      RunSlice(k, h, n);
      assert (s[i..] + s[..i])[1..] + [t] == s[i + 1..] + s[..i + 1];
      assert k.threads == old(k.threads);
      InFront(k, h);
      ran := ran + seq(n, j => t);
      SharesNext(s, k.threads, i);
    }
    assert s[m..] + s[..m] == s && s[..m] == s;
  }

  lemma SharesNone(threads: map<int, Thread>)
    ensures Shares([], threads) == []
  {
  }

  lemma SharesNext(s: seq<int>, threads: map<int, Thread>, i: nat)
    requires i < |s| && s[i] in threads
    ensures Shares(s[..i + 1], threads) == Shares(s[..i], threads) + seq(threads[s[i]].slice, j => s[i])
  {
    assert s[..i + 1][..i] == s[..i];
  }
}
