/** The lists threads wait in: ready lists and suspend lists, all through the one tlist node of
    each thread. A list is known by its head; a thread in no list is linked to itself. */
module Queues {
  import opened RtList

  /** at gives the list each thread is in, or the thread itself. */
  ghost predicate QueuesOk(k: Links, q: map<int, seq<int>>, at: map<int, int>) {
    && q.Keys !! at.Keys
    && (forall h :: h in q ==> Ring(k, [h] + q[h]))
    && (forall h :: h in q ==> InList(q[h], h, at))
    && (forall t :: t in at && at[t] == t ==> Ring(k, [t]))
    && (forall t :: t in at && at[t] != t ==> at[t] in q && t in q[at[t]])
  }

  ghost predicate InList(s: seq<int>, h: int, at: map<int, int>) {
    forall t :: t in s ==> t in at && at[t] == h
  }

  /** The queues after a thread left the one it was in. */
  ghost function Leave(q: map<int, seq<int>>, at: map<int, int>, t: int): map<int, seq<int>>
    requires t in at
  {
    if at[t] in q then q[at[t] := Without(q[at[t]], t)] else q
  }

  ghost function Join(q: map<int, seq<int>>, h: int, i: nat, t: int): map<int, seq<int>>
    requires h in q && i <= |q[h]|
  {
    q[h := InsertedAt(q[h], i, t)]
  }

  /** Two lists have no node in common. */
  lemma Disjoint(k: Links, q: map<int, seq<int>>, at: map<int, int>, g: int, h: int)
    requires QueuesOk(k, q, at) && g in q && h in q && g != h
    ensures forall x :: x in [g] + q[g] ==> x !in [h] + q[h]
  {
    hide Ring;
    assert InList(q[g], g, at) && InList(q[h], h, at);
  }

  lemma LooseOutside(k: Links, q: map<int, seq<int>>, at: map<int, int>, h: int, t: int)
    requires QueuesOk(k, q, at) && h in q && t in at && at[t] == t
    ensures t !in [h] + q[h]
  {
    hide Ring;
    assert InList(q[h], h, at);
  }

  lemma InsertedElements(s: seq<int>, i: nat, t: int)
    requires i <= |s|
    ensures forall x :: x in InsertedAt(s, i, t) <==> x in s || x == t
  {
    assert s == s[..i] + s[i..];
  }

  lemma InsertBehind(h: int, s: seq<int>, i: nat, t: int)
    requires i <= |s|
    ensures Inserted([h] + s, i, t) == [h] + InsertedAt(s, i, t)
  {
  }

  lemma JoinLists(q: map<int, seq<int>>, at: map<int, int>, h: int, i: nat, t: int)
    requires h in q && i <= |q[h]| && t in at && at[t] == t && q.Keys !! at.Keys
    requires forall g :: g in q ==> InList(q[g], g, at)
    ensures forall g :: g in Join(q, h, i, t) ==> InList(Join(q, h, i, t)[g], g, at[t := h])
  {
    hide InsertedAt;
    InsertedElements(q[h], i, t);
    forall g | g in q ensures InList(Join(q, h, i, t)[g], g, at[t := h]) {
      assert InList(q[g], g, at);
    }
  }

  /** rt_list_insert_after, of a thread that is in no list. */
  lemma JoinAfter(k: Links, q: map<int, seq<int>>, at: map<int, int>, h: int, i: nat, t: int)
    requires QueuesOk(k, q, at) && h in q && i <= |q[h]| && t in at && at[t] == t
    ensures var l := ([h] + q[h])[i];
            l in k.next && QueuesOk(InsertAfter(k, l, t), Join(q, h, i, t), at[t := h])
  {
    hide Ring, InsertAfter, InsertedAt;
    var r, l := [h] + q[h], ([h] + q[h])[i];
    LooseOutside(k, q, at, h, t);
    InsertAfterRing(k, r, i, t);
    InsertBehind(h, q[h], i, t);
    InsertedElements(q[h], i, t);
    JoinLists(q, at, h, i, t);
    var k', q' := InsertAfter(k, l, t), Join(q, h, i, t);
    forall g | g in q' ensures Ring(k', [g] + q'[g]) {
      if g != h {
        Disjoint(k, q, at, g, h);
        LooseOutside(k, q, at, g, t);
        InsertFrame(k, r, i, t, [g] + q[g]);
      }
    }
    forall x | x in at && x != t && at[x] == x ensures Ring(k', [x]) {
      LooseOutside(k, q, at, h, x);
      InsertFrame(k, r, i, t, [x]);
    }
  }

  /** rt_list_insert_before: before member i, or before the head for the end of the list. */
  lemma JoinBefore(k: Links, q: map<int, seq<int>>, at: map<int, int>, h: int, i: nat, t: int)
    requires QueuesOk(k, q, at) && h in q && i <= |q[h]| && t in at && at[t] == t
    ensures var n := if i < |q[h]| then q[h][i] else h;
            n in k.prev && QueuesOk(InsertBefore(k, n, t), Join(q, h, i, t), at[t := h])
  {
    hide Ring, Join, InsertAfter, InsertBefore;
    var r := [h] + q[h];
    Steps(k, r, i);
    Steps(k, r, if i < |q[h]| then i + 1 else 0);
    LooseOutside(k, q, at, h, t);
    BeforeAfter(k, r[i], r[if i < |q[h]| then i + 1 else 0], t);
    JoinAfter(k, q, at, h, i, t);
  }

  lemma LeaveLists(q: map<int, seq<int>>, at: map<int, int>, t: int)
    requires t in at && q.Keys !! at.Keys
    requires forall g :: g in q ==> InList(q[g], g, at) && Distinct(q[g])
    ensures forall g :: g in Leave(q, at, t) ==> InList(Leave(q, at, t)[g], g, at[t := t])
  {
    hide Without, Distinct;
    forall g | g in q ensures InList(Leave(q, at, t)[g], g, at[t := t]) {
      assert InList(q[g], g, at);
      WithoutElements(q[g], t);
    }
  }

  /** rt_list_remove, of a thread in a list or in none. */
  lemma LeaveOk(k: Links, q: map<int, seq<int>>, at: map<int, int>, t: int)
    requires QueuesOk(k, q, at) && t in at
    ensures Has(k, t) && QueuesOk(Remove(k, t), Leave(q, at, t), at[t := t])
  {
    hide Ring, Remove, Without, Dropped;
    forall g | g in q ensures Distinct(q[g]) { RingTail(k, g, q[g]); }
    LeaveLists(q, at, t);
    if at[t] == t {
      assert [t][0] == t;
      RemoveAlone(k, t);
      Steps(k, [t], 0);
    } else {
      var h := at[t];
      var s, r := q[h], [h] + q[h];
      var i :| 0 <= i < |s| && s[i] == t;
      assert r[i + 1] == t;
      WithoutIndex(s, i);
      WithoutElements(s, t);
      RemoveRing(k, r, i + 1);
      DropBehind(h, s, i);
      var k', q' := Remove(k, t), Leave(q, at, t);
      forall g | g in q' ensures Ring(k', [g] + q'[g]) {
        if g != h {
          Disjoint(k, q, at, g, h);
          RemoveFrame(k, r, i + 1, [g] + q[g]);
        }
      }
      forall x | x in at && x != t && at[x] == x ensures Ring(k', [x]) {
        LooseOutside(k, q, at, h, x);
        RemoveFrame(k, r, i + 1, [x]);
      }
    }
  }

  /** rt_list_init of a new list head */
  lemma HeadAdded(k: Links, q: map<int, seq<int>>, at: map<int, int>, h: int)
    requires QueuesOk(k, q, at) && h !in q && h !in at
    ensures QueuesOk(Init(k, h), q[h := []], at)
  {
    hide Ring, Init;
    InitRing(k, h);
    assert [h] + [] == [h];
    forall g | g in q ensures Ring(Init(k, h), [g] + q[g]) {
      assert InList(q[g], g, at);
      InitFrame(k, [g] + q[g], h);
    }
    forall t | t in at && at[t] == t ensures Ring(Init(k, h), [t]) { InitFrame(k, [t], h); }
  }

  /** rt_list_init of a new thread's node */
  lemma ThreadAdded(k: Links, q: map<int, seq<int>>, at: map<int, int>, t: int)
    requires QueuesOk(k, q, at) && t !in q && t !in at
    ensures QueuesOk(Init(k, t), q, at[t := t])
  {
    hide Ring, Init;
    InitRing(k, t);
    forall g | g in q ensures Ring(Init(k, t), [g] + q[g]) && InList(q[g], g, at[t := t]) {
      assert InList(q[g], g, at);
      InitFrame(k, [g] + q[g], t);
    }
    forall x | x in at && at[x] == x ensures Ring(Init(k, t), [x]) { InitFrame(k, [x], t); }
  }
}
