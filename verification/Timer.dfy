/** timer.c: the hard timer skip list. Row 0 is the sparsest, the last row holds every active
    timer; each row is one circular list through a head node shared by number 0. Deadlines
    are compared on 32-bit ticks that wrap around. */
module Timer {
  import opened RtList
  import R = ReadyIndex

  const M32: int := 0x1_0000_0000
  const HALF: int := 0x7FFF_FFFF      // RT_TICK_MAX / 2
  const HEAD: int := 0

  // ---- tick arithmetic ----

  /** The 32-bit tick at a time. */
  function TickAt(time: int): int {
    time % M32
  }

  /** Unsigned 32-bit addition. */
  function Plus(a: int, b: int): int {
    (a + b) % M32
  }

  /** Unsigned 32-bit subtraction. */
  function Minus(a: int, b: int): int {
    (a - b) % M32
  }

  /** Within half the range the wrapped comparisons agree with the true times. */
  lemma TickOrder(e: int, d: int)
    requires -HALF <= e - d < HALF
    ensures Minus(TickAt(e), TickAt(d)) == 0 <==> e == d
    ensures Minus(TickAt(e), TickAt(d)) < HALF <==> d <= e
  {
    var q, r := e / M32, d / M32;
    assert e == q * M32 + e % M32 && d == r * M32 + d % M32;
    ModShift(e - d, e % M32 - d % M32, r - q);
  }

  lemma ModShift(x: int, y: int, k: int)
    requires y == x + k * M32
    ensures x % M32 == y % M32
  {
    var a, b := x / M32, y / M32;
    assert x == a * M32 + x % M32 && y == b * M32 + y % M32;
    assert y % M32 - x % M32 == (k + a - b) * M32;
  }

  // ---- rows ----

  /** The timers of a row in order; every other known timer is linked to itself there. */
  ghost predicate RowOk(k: Links, s: seq<int>, timers: set<int>) {
    && Ring(k, [HEAD] + s)
    && (forall t :: t in s ==> t in timers)
    && (forall t :: t in timers && t !in s ==> Ring(k, [t]))
    && HEAD !in timers
  }

  /** rt_list_remove on one row, for a timer that is in it or not. */
  lemma RowRemove(k: Links, s: seq<int>, timers: set<int>, t: int)
    requires RowOk(k, s, timers) && t in timers
    ensures Has(k, t) && RowOk(Remove(k, t), Without(s, t), timers) && t !in Without(s, t)
  {
    hide Ring, Remove, Without, Dropped;
    RingTail(k, HEAD, s);
    WithoutElements(s, t);
    if t in s {
      var i :| 0 <= i < |s| && s[i] == t;
      var r := [HEAD] + s;
      assert r[i + 1] == t;
      WithoutIndex(s, i);
      RemoveRing(k, r, i + 1);
      DropBehind(HEAD, s, i);
      forall x | x in timers && x !in Without(s, t) ensures Ring(Remove(k, t), [x]) {
        if x != t {
          assert forall y :: y in [x] ==> y !in r;
          RemoveFrame(k, r, i + 1, [x]);
        }
      }
    } else {
      RemoveAlone(k, t);
      RingHas(k, t);
    }
  }

  lemma RingHas(k: Links, t: int)
    requires Ring(k, [t])
    ensures Has(k, t)
  {
    assert [t][0] == t;
  }

  /** rt_list_insert_after on one row: position i counts the head as 0. */
  lemma RowInsert(k: Links, s: seq<int>, timers: set<int>, i: nat, t: int)
    requires RowOk(k, s, timers) && t in timers && t !in s && i <= |s|
    ensures var l := ([HEAD] + s)[i]; l in k.next && RowOk(InsertAfter(k, l, t), InsertedAt(s, i, t), timers)
  {
    hide Ring, InsertAfter;
    var r := [HEAD] + s;
    InsertAfterRing(k, r, i, t);
    assert Inserted(r, i, t) == [HEAD] + InsertedAt(s, i, t);
    assert forall x :: x in InsertedAt(s, i, t) <==> x in s || x == t;
    forall x | x in timers && x !in InsertedAt(s, i, t) ensures Ring(InsertAfter(k, r[i], t), [x]) {
      assert x !in s && x != t;
      assert forall y :: y in [x] ==> y !in r;
      InsertFrame(k, r, i, t, [x]);
    }
  }

  // ---- order ----

  /** Earlier deadline first; equal deadlines in the order of their starts. */
  ghost predicate Before(deadline: map<int, int>, stamp: map<int, nat>, a: int, b: int) {
    a in deadline && b in deadline && a in stamp && b in stamp &&
    (deadline[a] < deadline[b] || (deadline[a] == deadline[b] && stamp[a] < stamp[b]))
  }

  ghost predicate Sorted(s: seq<int>, deadline: map<int, int>, stamp: map<int, nat>) {
    && (forall i :: 0 <= i < |s| ==> s[i] in deadline && s[i] in stamp)
    && (forall i, j :: 0 <= i < j < |s| ==> Before(deadline, stamp, s[i], s[j]))
  }

  lemma SortedDistinct(s: seq<int>, deadline: map<int, int>, stamp: map<int, nat>)
    requires Sorted(s, deadline, stamp)
    ensures Distinct(s)
  {
    forall i, j | 0 <= i < j < |s| ensures s[i] != s[j] { assert Before(deadline, stamp, s[i], s[j]); }
  }

  /** Number of leading timers with a deadline of at most d. */
  function Rank(s: seq<int>, deadline: map<int, int>, d: int): (r: nat)
    ensures r <= |s|
  {
    if s != [] && s[0] in deadline && deadline[s[0]] <= d then 1 + Rank(s[1..], deadline, d) else 0
  }

  /** In a sorted row the rank separates the deadlines up to d from the later ones. */
  lemma {:induction false} RankSplits(s: seq<int>, deadline: map<int, int>, stamp: map<int, nat>, d: int)
    requires Sorted(s, deadline, stamp)
    ensures forall i :: 0 <= i < |s| ==> (i < Rank(s, deadline, d) <==> deadline[s[i]] <= d)
  {
    if s != [] {
      assert Sorted(s[1..], deadline, stamp);
      RankSplits(s[1..], deadline, stamp, d);
      forall i | 0 <= i < |s| ensures i < Rank(s, deadline, d) <==> deadline[s[i]] <= d {
        if i > 0 {
          assert s[i] == s[1..][i - 1];
          assert Before(deadline, stamp, s[0], s[i]);
        }
      }
    }
  }

  /** A freshly started timer goes behind all deadlines up to its own. */
  function Placed(s: seq<int>, t: int, deadline: map<int, int>, d: int): seq<int> {
    InsertedAt(s, Rank(s, deadline, d), t)
  }

  lemma PlacedSorted(s: seq<int>, t: int, deadline: map<int, int>, stamp: map<int, nat>, d: int, now: nat)
    requires Sorted(s, deadline, stamp) && t !in s && forall x :: x in stamp ==> stamp[x] < now
    ensures Sorted(Placed(s, t, deadline, d), deadline[t := d], stamp[t := now])
  {
    RankSplits(s, deadline, stamp, d);
    var r, p, dl, st := Rank(s, deadline, d), Placed(s, t, deadline, d), deadline[t := d], stamp[t := now];
    forall i, j | 0 <= i < j < |p| ensures Before(dl, st, p[i], p[j]) {
      if i != r && j != r {
        var a, b := if i < r then i else i - 1, if j < r then j else j - 1;
        assert p[i] == s[a] && p[j] == s[b] && Before(deadline, stamp, s[a], s[b]);
      } else if i == r {
        assert p[j] == s[j - 1];
      } else {
        assert p[i] == s[i];
      }
    }
  }

  lemma WithoutSorted(s: seq<int>, t: int, deadline: map<int, int>, stamp: map<int, nat>)
    requires Sorted(s, deadline, stamp) && Distinct(s)
    ensures Sorted(Without(s, t), deadline, stamp)
  {
    hide Before, Without;
    if t in s {
      var i :| 0 <= i < |s| && s[i] == t;
      WithoutIndex(s, i);
      var r := Dropped(s, i);
      forall a, b | 0 <= a < b < |r| ensures Before(deadline, stamp, r[a], r[b]) {
        assert r[a] == s[if a < i then a else a + 1] && r[b] == s[if b < i then b else b + 1];
      }
    }
  }

  /** In sorted rows containment is the sub-list relation: members keep their order. */
  lemma SubsetIsSublist(s: seq<int>, t: seq<int>, deadline: map<int, int>, stamp: map<int, nat>, i: nat, j: nat, a: nat, b: nat)
    requires Sorted(s, deadline, stamp) && Sorted(t, deadline, stamp)
    requires i < j < |s| && a < |t| && b < |t| && s[i] == t[a] && s[j] == t[b]
    ensures a < b
  {
    assert Before(deadline, stamp, s[i], s[j]);
    assert a < b || a == b || Before(deadline, stamp, t[b], t[a]);
  }

  // ---- all rows together ----

  ghost predicate RowsOk(rows: seq<Links>, lists: seq<seq<int>>, timers: set<int>) {
    && |rows| == |lists|
    && forall l :: 0 <= l < |rows| ==> RowOk(rows[l], lists[l], timers)
  }

  ghost predicate Contained(s: seq<int>, t: seq<int>) {
    forall x :: x in s ==> x in t
  }

  /** Every row sorted, and contained in the row below it. */
  ghost predicate ListsOk(lists: seq<seq<int>>, deadline: map<int, int>, stamp: map<int, nat>, clock: nat) {
    && (forall l :: 0 <= l < |lists| ==> Sorted(lists[l], deadline, stamp))
    && (forall l :: 0 <= l < |lists| - 1 ==> Contained(lists[l], lists[l + 1]))
    && (forall x :: x in stamp ==> stamp[x] < clock)
  }

  /** Each active timer's tick field holds its true deadline, which lies from lo up to less than hi. */
  ghost predicate RangeOk(bottom: seq<int>, deadline: map<int, int>, timeoutTick: map<int, int>, lo: int, hi: int) {
    forall x :: x in bottom ==> x in deadline && x in timeoutTick && lo <= deadline[x] < hi
                                && timeoutTick[x] == TickAt(deadline[x])
  }

  lemma RangeMeans(s: seq<int>, deadline: map<int, int>, timeoutTick: map<int, int>, lo: int, hi: int)
    requires RangeOk(s, deadline, timeoutTick, lo, hi)
    ensures forall i :: 0 <= i < |s| ==> s[i] in deadline && lo <= deadline[s[i]] < hi
  {
    hide TickAt;
    forall i | 0 <= i < |s| ensures s[i] in deadline && lo <= deadline[s[i]] < hi {
      var x := s[i];
      assert x in s;
      assert x in deadline && lo <= deadline[x] && deadline[x] < hi;
    }
  }

  lemma SortedFrame(s: seq<int>, t: int, deadline: map<int, int>, stamp: map<int, nat>, d: int, c: nat)
    requires Sorted(s, deadline, stamp) && t !in s
    ensures Sorted(s, deadline[t := d], stamp[t := c])
  {
    assert forall i :: 0 <= i < |s| ==> s[i] in s;
  }

  // ---- the rows a timer joins ----

  predicate Clear(c: bv32, mask: bv32) {
    c & mask == 0
  }

  /** The counter without the bits that were tested. */
  function Drop(c: bv32, mask: bv32): bv32 {
    c >> (((mask + 1) >> 1) % 32)
  }

  function Next(c: bv32): bv32 {
    c + 1
  }

  ghost function Rest(c: bv32, mask: bv32, i: nat): bv32 {
    if i == 0 then c else Drop(Rest(c, mask, i - 1), mask)
  }

  /** The rows from stop on are the last row and those above it up to the first set bit of the counter. */
  ghost predicate Climbs(c: bv32, mask: bv32, levels: nat, stop: nat) {
    && stop < levels && (forall i :: 0 <= i < levels - 1 - stop ==> Clear(Rest(c, mask, i), mask))
    && (stop > 0 ==> !Clear(Rest(c, mask, levels - 1 - stop), mask))
  }

  /** With the default mask of two bits, i rows above the last one are joined exactly while the low 2 * i bits
      of the counter are clear. */
  lemma {:induction false} LowBitsClear(c: bv32, i: nat)
    requires i <= 16
    ensures (forall j :: 0 <= j < i ==> Clear(Rest(c, 3, j), 3)) <==> forall p :: 0 <= p < 2 * i ==> !R.Bit(c, p)
  {
    hide Clear, Drop, R.Bit;
    if i > 0 {
      LowBitsClear(c, i - 1);
      RestBits(c, i - 1, 0);
      RestBits(c, i - 1, 1);
      TwoBits(Rest(c, 3, i - 1));
    }
  }

  lemma {:induction false} RestBits(c: bv32, i: nat, q: nat)
    requires q + 2 * i < 32
    ensures R.Bit(Rest(c, 3, i), q) <==> R.Bit(c, q + 2 * i)
  {
    hide Drop, R.Bit;
    if i > 0 {
      DropBit(Rest(c, 3, i - 1), q);
      RestBits(c, i - 1, q + 2);
    }
  }

  lemma DropBit(v: bv32, q: nat)
    requires q + 2 < 32
    ensures R.Bit(Drop(v, 3), q) <==> R.Bit(v, q + 2)
  {
    DropTwo(v);
    hide Drop, R.Half, R.Bit;
    R.BitHalf(R.Half(v), q + 1);
    R.BitHalf(v, q + 2);
  }

  lemma DropTwo(v: bv32)
    ensures Drop(v, 3) == R.Half(R.Half(v))
  {
  }

  lemma TwoBits(v: bv32)
    ensures Clear(v, 3) <==> !R.Bit(v, 0) && !R.Bit(v, 1)
  {
    R.MaskValues();
  }

  /** Rows from stop on receive the timer, the sparser ones do not. */
  function Started(lists: seq<seq<int>>, t: int, deadline: map<int, int>, d: int, stop: nat): (r: seq<seq<int>>)
    ensures |r| == |lists|
  {
    seq(|lists|, l requires 0 <= l < |lists| => if l >= stop then Placed(lists[l], t, deadline, d) else lists[l])
  }

  /** The last row. */
  function Final(lists: seq<seq<int>>): seq<int>
    requires lists != []
  {
    lists[|lists| - 1]
  }

  function Stopped(lists: seq<seq<int>>, t: int): (r: seq<seq<int>>)
    ensures |r| == |lists|
  {
    seq(|lists|, l requires 0 <= l < |lists| => Without(lists[l], t))
  }

  lemma StartedOk(lists: seq<seq<int>>, t: int, deadline: map<int, int>, stamp: map<int, nat>, clock: nat, d: int, stop: nat)
    requires ListsOk(lists, deadline, stamp, clock) && stop < |lists| && Absent(lists, t)
    ensures ListsOk(Started(lists, t, deadline, d, stop), deadline[t := d], stamp[t := clock], clock + 1)
    ensures Joined(Final(lists), Final(Started(lists, t, deadline, d, stop)), t)
  {
    hide Sorted, Placed, Rank;
    var r := Started(lists, t, deadline, d, stop);
    forall l | 0 <= l < |lists|
      ensures Sorted(r[l], deadline[t := d], stamp[t := clock])
      ensures forall x :: x in r[l] <==> x in lists[l] || (x == t && l >= stop)
    {
      PlacedSorted(lists[l], t, deadline, stamp, d, clock);
      SortedFrame(lists[l], t, deadline, stamp, d, clock);
      PlacedElements(lists[l], t, deadline, d);
    }
    forall l | 0 <= l < |r| - 1 ensures Contained(r[l], r[l + 1]) {
      assert Contained(lists[l], lists[l + 1]);
    }
  }

  lemma PlacedElements(s: seq<int>, t: int, deadline: map<int, int>, d: int)
    ensures forall x :: x in Placed(s, t, deadline, d) <==> x in s || x == t
  {
    var k := Rank(s, deadline, d);
    assert s == s[..k] + s[k..];
  }

  lemma StoppedOk(lists: seq<seq<int>>, rows: seq<Links>, timers: set<int>, t: int,
                  deadline: map<int, int>, stamp: map<int, nat>, clock: nat)
    requires ListsOk(lists, deadline, stamp, clock) && RowsOk(rows, lists, timers)
    ensures ListsOk(Stopped(lists, t), deadline, stamp, clock)
    ensures Absent(Stopped(lists, t), t)
    ensures lists != [] ==> t !in Final(Stopped(lists, t)) && Left(Final(lists), Final(Stopped(lists, t)), t)
  {
    hide Sorted, Without, Ring;
    var r := Stopped(lists, t);
    forall l | 0 <= l < |lists|
      ensures Sorted(r[l], deadline, stamp)
      ensures t !in r[l] && forall x :: x in r[l] <==> x in lists[l] && x != t
    {
      assert RowOk(rows[l], lists[l], timers);
      RingTail(rows[l], HEAD, lists[l]);
      WithoutSorted(lists[l], t, deadline, stamp);
      WithoutElements(lists[l], t);
    }
    forall l | 0 <= l < |r| - 1 ensures Contained(r[l], r[l + 1]) {
      assert Contained(lists[l], lists[l + 1]);
    }
  }

  ghost predicate Absent(lists: seq<seq<int>>, t: int) {
    forall l :: 0 <= l < |lists| ==> t !in lists[l]
  }

  /** In each row, the last node whose deadline is not later than d. */
  ghost predicate HeadsOk(heads: seq<int>, lists: seq<seq<int>>, deadline: map<int, int>, d: int) {
    && |heads| == |lists|
    && forall l :: 0 <= l < |lists| ==> heads[l] == ([HEAD] + lists[l])[Rank(lists[l], deadline, d)]
  }

  ghost predicate FlagsOk(active: map<int, bool>, bottom: seq<int>, timers: set<int>) {
    forall t :: t in timers ==> t in active && (active[t] <==> t in bottom)
  }

  /** Every member of a row joined by t, or of a row left by it. */
  ghost predicate Joined(s: seq<int>, r: seq<int>, t: int) {
    forall x :: x in r <==> x in s || x == t
  }

  ghost predicate Left(s: seq<int>, r: seq<int>, t: int) {
    forall x :: x in r <==> x in s && x != t
  }

  lemma LeftJoined(s: seq<int>, r: seq<int>, u: seq<int>, t: int)
    requires Left(s, r, t) && Joined(r, u, t)
    ensures Joined(s, u, t)
  {
  }

  lemma FlagsChange(active: map<int, bool>, s: seq<int>, r: seq<int>, timers: set<int>, t: int, on: bool)
    requires FlagsOk(active, s, timers) && if on then Joined(s, r, t) else Left(s, r, t)
    ensures FlagsOk(active[t := on], r, timers)
  {
  }

  class Timers {
    const levels: nat
    const mask: bv32                 // RT_TIMER_SKIP_LIST_MASK
    var rows: seq<Links>             // timer_list with the row fields of all timers
    var timeoutTick: map<int, int>
    var initTick: map<int, nat>
    var periodic: map<int, bool>
    var active: map<int, bool>
    var randomNr: bv32
    var tick: int
    ghost var now: nat               // the tick without wrap-around
    ghost var timers: set<int>
    ghost var lists: seq<seq<int>>
    ghost var deadline: map<int, int>
    ghost var stamp: map<int, nat>
    ghost var clock: nat

    ghost function Bottom(): seq<int>
      requires |lists| == levels && 0 < levels
      reads this
    {
      Final(lists)
    }

    /** lo is the earliest deadline that may still be waiting. */
    ghost predicate Inv(lo: int)
      reads this
    {
      && 0 < levels == |lists| && RowsOk(rows, lists, timers) && ListsOk(lists, deadline, stamp, clock)
      && RangeOk(Bottom(), deadline, timeoutTick, lo, now + HALF) && now - 1 <= lo && tick == TickAt(now)
      && Known()
    }

    ghost predicate Known()
      reads this
    {
      timers <= initTick.Keys && timers <= periodic.Keys && timers <= active.Keys && timers <= timeoutTick.Keys
    }

    /** The ACTIVATED flag is set exactly on the timers in the list. */
    ghost predicate Flagged()
      requires |lists| == levels && 0 < levels
      reads this
    {
      FlagsOk(active, Bottom(), timers)
    }

    // ---- _rt_timer_remove ----

    method RemoveRows(t: int)
      requires 0 < levels == |lists| && RowsOk(rows, lists, timers) && t in timers
      modifies this`rows, this`lists
      ensures lists == Stopped(old(lists), t) && RowsOk(rows, lists, timers)
    {
      hide RowOk, Remove, Without;
      ghost var was := lists;
      for i := 0 to levels
        invariant |rows| == levels == |lists| && RowsOk(rows, lists, timers)
        invariant forall l :: 0 <= l < i ==> lists[l] == Without(was[l], t)
        invariant forall l :: i <= l < levels ==> lists[l] == was[l]
      {
        RowRemove(rows[i], lists[i], timers, t);
        rows := rows[i := Remove(rows[i], t)];
        lists := lists[i := Without(lists[i], t)];
      }
      assert lists == Stopped(was, t);
    }

    // ---- rt_timer_start ----

    /** Walks one row from a node whose deadline is not later than d to the last such node. */
    method SearchRow(lvl: nat, from: int, tt: int, ghost d: int, ghost start: nat) returns (node: int, ghost k: nat)
      requires lvl < levels == |rows| == |lists| && RowOk(rows[lvl], lists[lvl], timers)
      requires Sorted(lists[lvl], deadline, stamp) && RangeOk(lists[lvl], deadline, timeoutTick, now - 1, now + HALF)
      requires start <= Rank(lists[lvl], deadline, d) && from == ([HEAD] + lists[lvl])[start]
      requires now <= d < now + HALF && tt == TickAt(d)
      ensures k == Rank(lists[lvl], deadline, d) && node == ([HEAD] + lists[lvl])[k]
    {
      hide Ring, Rank, Sorted;
      ghost var s, r, rank := lists[lvl], [HEAD] + lists[lvl], Rank(lists[lvl], deadline, d);
      node, k := from, start;
      RankSplits(s, deadline, stamp, d);
      RowHead(rows[lvl], s);
      while node != rows[lvl].prev[HEAD]
        invariant k <= rank && node == r[k] && (node != rows[lvl].prev[HEAD] <==> k < |s|)
        decreases |s| - k
      {
        Walk(rows[lvl], s, k);
        var p := rows[lvl].next[node];
        assert p in s;
        TickOrder(deadline[p], d);
        if Minus(timeoutTick[p], tt) != 0 && Minus(timeoutTick[p], tt) < HALF {
          break;
        }
        node := p;
        k := k + 1;
        Walk(rows[lvl], s, k);
      }
    }

    /** The row_head array: where the new timer belongs in each row. */
    method Search(tt: int, ghost d: int) returns (heads: seq<int>)
      requires 0 < levels == |lists| && RowsOk(rows, lists, timers) && ListsOk(lists, deadline, stamp, clock)
      requires RangeOk(Bottom(), deadline, timeoutTick, now - 1, now + HALF)
      requires now <= d < now + HALF && tt == TickAt(d)
      ensures HeadsOk(heads, lists, deadline, d)
    {
      hide RowOk, Rank, Sorted;
      heads := [];
      var head := HEAD;
      ghost var k: nat := 0;
      for lvl := 0 to levels
        invariant |heads| == lvl
        invariant forall l :: 0 <= l < lvl ==> heads[l] == ([HEAD] + lists[l])[Rank(lists[l], deadline, d)]
        invariant lvl < levels ==> k <= Rank(lists[lvl], deadline, d) && head == ([HEAD] + lists[lvl])[k]
      {
        RowInBottom(lvl);
        head, k := SearchRow(lvl, head, tt, d, k);
        heads := heads + [head];
        if lvl + 1 < levels {
          assert Contained(lists[lvl], lists[lvl + 1]);
          k := StepDown(lists[lvl], lists[lvl + 1], d, k);
        }
      }
    }

    lemma RowInBottom(lvl: nat)
      requires 0 < levels == |lists| && lvl < levels && ListsOk(lists, deadline, stamp, clock)
      requires RangeOk(Bottom(), deadline, timeoutTick, now - 1, now + HALF)
      ensures Contained(lists[lvl], Bottom()) && RangeOk(lists[lvl], deadline, timeoutTick, now - 1, now + HALF)
      decreases levels - lvl
    {
      hide Sorted;
      if lvl + 1 < levels {
        RowInBottom(lvl + 1);
        assert Contained(lists[lvl], lists[lvl + 1]);
      }
    }

    /** The node found in one row stands, in the row below, no further than the rank there. */
    lemma StepDown(s: seq<int>, t: seq<int>, d: int, k: nat) returns (j: nat)
      requires Sorted(s, deadline, stamp) && Sorted(t, deadline, stamp) && Contained(s, t) && k == Rank(s, deadline, d)
      ensures j <= Rank(t, deadline, d) && ([HEAD] + t)[j] == ([HEAD] + s)[k]
    {
      hide Rank;
      RankSplits(s, deadline, stamp, d);
      RankSplits(t, deadline, stamp, d);
      if k == 0 { j := 0; }
      else {
        assert s[k - 1] in s;
        var i :| 0 <= i < |t| && t[i] == s[k - 1];
        j := i + 1;
      }
    }

    /** Out of every row, flag cleared. */
    method Detach(t: int, ghost lo: int)
      requires Inv(lo) && t in timers
      modifies this`rows, this`lists, this`active
      ensures Inv(lo) && lists == Stopped(old(lists), t) && active == old(active)[t := false]
      ensures Absent(lists, t) && t !in Bottom()
      ensures Left(old(Bottom()), Bottom(), t)
      ensures old(Flagged()) ==> Flagged()
    {
      hide RowsOk, ListsOk, RangeOk, Without, Stopped, Final, FlagsOk, Left;
      StoppedOk(lists, rows, timers, t, deadline, stamp, clock);
      StoppedRange(lists, t, deadline, timeoutTick, lo, now + HALF);
      if FlagsOk(active, Bottom(), timers) { FlagsChange(active, Bottom(), Final(Stopped(lists, t)), timers, t, false); }
      RemoveRows(t);
      active := active[t := false];
    }

    /** rt_timer_start. The rows from stop on receive the timer behind every deadline that is not
        later than its own; stop depends on the insertion counter alone, which counts the starts. */
    method Start(t: int, ghost lo: int) returns (ghost stop: nat)
      requires Inv(lo) && lo <= now && t in timers && initTick[t] < HALF
      modifies this`rows, this`lists, this`timeoutTick, this`active, this`randomNr, this`deadline, this`stamp, this`clock
      ensures Inv(lo) && (old(Flagged()) ==> Flagged())
      ensures stop < levels && deadline == old(deadline)[t := now + initTick[t]]
      ensures randomNr == old(randomNr) + 1 && Climbs(randomNr, mask, levels, stop)
      ensures lists == Started(Stopped(old(lists), t), t, old(deadline), now + initTick[t], stop)
      ensures active == old(active)[t := true] && stamp == old(stamp)[t := old(clock)] && clock == old(clock) + 1
      ensures Joined(old(Bottom()), Bottom(), t)
    {
      hide RowsOk, ListsOk, RangeOk, Rank, Without, Started, Stopped, Final, FlagsOk, Left, Joined, Absent, HeadsOk, TickAt, Plus, Climbs;
      Detach(t, lo);
      ghost var base, d := lists, now + initTick[t];
      TickSum(now, initTick[t]);
      RangeUnaffected(Bottom(), t, deadline, timeoutTick, lo, now + HALF, Plus(tick, initTick[t]));
      timeoutTick := timeoutTick[t := Plus(tick, initTick[t])];
      RangeWider(Bottom(), deadline, timeoutTick, lo, now);
      var heads := Search(timeoutTick[t], d);
      stop := InsertRows(t, heads, d);
      Record(t, lo, base, d, stop);
      LeftJoined(old(Bottom()), Final(base), Bottom(), t);
    }

    /** The flag, and the ghost record of the start. */
    method Record(t: int, ghost lo: int, ghost base: seq<seq<int>>, ghost d: int, ghost stop: nat)
      requires 0 < levels == |lists| == |base| && RowsOk(rows, lists, timers) && ListsOk(base, deadline, stamp, clock)
      requires Absent(base, t) && t !in Final(base) && RangeOk(Final(base), deadline, timeoutTick, lo, now + HALF)
      requires now - 1 <= lo <= d < now + HALF && tick == TickAt(now) && Known() && t in timers && timeoutTick[t] == TickAt(d)
      requires stop < levels && lists == Started(base, t, deadline, d, stop)
      modifies this`active, this`deadline, this`stamp, this`clock
      ensures Inv(lo) && (FlagsOk(old(active), Final(base), timers) ==> Flagged())
      ensures deadline == old(deadline)[t := d] && stamp == old(stamp)[t := old(clock)] && clock == old(clock) + 1
      ensures active == old(active)[t := true] && Joined(Final(base), Bottom(), t)
    {
      hide RowsOk, ListsOk, RangeOk, Started, Final, FlagsOk, Joined, Absent, TickAt;
      StartedOk(base, t, deadline, stamp, clock, d, stop);
      StartedRange(Final(base), Bottom(), t, deadline, timeoutTick, lo, now + HALF, d);
      if FlagsOk(active, Final(base), timers) { FlagsChange(active, Final(base), Bottom(), timers, t, true); }
      deadline := deadline[t := d];
      stamp := stamp[t := clock];
      clock := clock + 1;
      active := active[t := true];
    }

    /** The insertion loop: always the last row, then upward while the low bits of the counter are clear. */
    method InsertRows(t: int, heads: seq<int>, ghost d: int) returns (ghost stop: nat)
      requires 0 < levels == |lists| && RowsOk(rows, lists, timers) && t in timers
      requires Absent(lists, t) && HeadsOk(heads, lists, deadline, d)
      modifies this`rows, this`lists, this`randomNr
      ensures stop < levels && RowsOk(rows, lists, timers) && lists == Started(old(lists), t, deadline, d, stop)
      ensures randomNr == old(randomNr) + 1 && Climbs(randomNr, mask, levels, stop)
    {
      hide RowOk, Rank, InsertAfter, Clear, Drop;
      ghost var was := lists;
      randomNr := Next(randomNr);
      var tst := randomNr;
      var l := levels - 1;
      InsertRow(l, t, heads[l], d);
      while 0 < l && Clear(tst, mask)
        invariant 0 <= l < levels == |lists| && RowsOk(rows, lists, timers)
        invariant forall j :: l <= j < levels ==> lists[j] == Placed(was[j], t, deadline, d)
        invariant forall j :: 0 <= j < l ==> lists[j] == was[j]
        invariant randomNr == Next(old(randomNr))
        invariant tst == Rest(randomNr, mask, levels - 1 - l) && forall i :: 0 <= i < levels - 1 - l ==> Clear(Rest(randomNr, mask, i), mask)
        decreases l
      {
        l := l - 1;
        InsertRow(l, t, heads[l], d);
        tst := Drop(tst, mask);
      }
      stop := l;
      assert lists == Started(was, t, deadline, d, stop);
    }

    method InsertRow(l: nat, t: int, head: int, ghost d: int)
      requires l < levels == |lists| && RowsOk(rows, lists, timers) && t in timers && t !in lists[l]
      requires head == ([HEAD] + lists[l])[Rank(lists[l], deadline, d)]
      modifies this`rows, this`lists
      ensures lists == old(lists)[l := Placed(old(lists)[l], t, deadline, d)] && RowsOk(rows, lists, timers)
    {
      hide RowOk, Rank, InsertAfter;
      RowInsert(rows[l], lists[l], timers, Rank(lists[l], deadline, d), t);
      rows := rows[l := InsertAfter(rows[l], head, t)];
      lists := lists[l := Placed(lists[l], t, deadline, d)];
    }

    // ---- set-up and stop ----

    /** rt_system_timer_init: every row empty. */
    constructor (levels: nat, mask: bv32)
      requires 0 < levels
      ensures this.levels == levels && this.mask == mask && timers == {} && now == 0
      ensures Inv(0) && Flagged() && Bottom() == []
    {
      this.levels, this.mask := levels, mask;
      rows := seq(levels, _ => Init(Links(map[], map[]), HEAD));
      lists := seq(levels, _ => []);
      timeoutTick, initTick, periodic, active := map[], map[], map[], map[];
      randomNr, tick, now, clock := 0, 0, 0, 0;
      timers, deadline, stamp := {}, map[], map[];
    }

    /** _rt_timer_init: not activated, linked to itself in every row. */
    method InitTimer(t: int, time: nat, isPeriodic: bool, ghost lo: int)
      requires Inv(lo) && Flagged() && t !in timers && t != HEAD
      modifies this`rows, this`timeoutTick, this`initTick, this`periodic, this`active, this`timers
      ensures Inv(lo) && Flagged() && timers == old(timers) + {t}
      ensures active == old(active)[t := false] && periodic == old(periodic)[t := isPeriodic]
      ensures initTick == old(initTick)[t := time] && timeoutTick == old(timeoutTick)[t := 0]
    {
      hide RowsOk, ListsOk, RangeOk, FlagsOk, Final;
      LooseTimer(lists, rows, timers, active, t);
      RangeUnaffected(Bottom(), t, deadline, timeoutTick, lo, now + HALF, 0);
      KeysMore(timers, timeoutTick, t, 0);
      KeysMore(timers, initTick, t, time);
      KeysMore(timers, periodic, t, isPeriodic);
      KeysMore(timers, active, t, false);
      InitRows(t);
      timeoutTick, initTick := timeoutTick[t := 0], initTick[t := time];
      periodic, active := periodic[t := isPeriodic], active[t := false];
      timers := timers + {t};
    }

    method InitRows(t: int)
      requires 0 < levels == |lists| && RowsOk(rows, lists, timers) && t !in timers && t != HEAD
      modifies this`rows
      ensures RowsOk(rows, lists, timers + {t})
    {
      hide RowOk, Init;
      for i := 0 to levels
        invariant |rows| == levels
        invariant forall l :: 0 <= l < i ==> RowOk(rows[l], lists[l], timers + {t})
        invariant forall l :: i <= l < levels ==> RowOk(rows[l], lists[l], timers)
      {
        RowInit(rows[i], lists[i], timers, t);
        rows := rows[i := Init(rows[i], t)];
      }
    }

    /** RT_TIMER_CTRL_SET_TIME: in effect from the next start on. */
    method SetTime(t: int, time: nat, ghost lo: int)
      requires Inv(lo) && Flagged() && t in timers
      modifies this`initTick
      ensures Inv(lo) && Flagged() && initTick == old(initTick)[t := time]
    {
      hide RowsOk, ListsOk, RangeOk, FlagsOk;
      KeysMore(timers, initTick, t, time);
      initTick := initTick[t := time];
    }

    /** The active timers, each once, by deadline and then by start. */
    lemma InTheList(lo: int)
      requires Inv(lo)
      ensures Sorted(Bottom(), deadline, stamp) && Distinct(Bottom())
      ensures forall i :: 0 <= i < |Bottom()| ==> Bottom()[i] in deadline && lo <= deadline[Bottom()[i]] < now + HALF
    {
      hide RowsOk, RangeOk, TickAt;
      SortedDistinct(Bottom(), deadline, stamp);
      RangeMeans(Bottom(), deadline, timeoutTick, lo, now + HALF);
    }

    /** rt_timer_stop: an error exactly for a timer that is not in the list. */
    method Stop(t: int, ghost lo: int) returns (ok: bool)
      requires Inv(lo) && Flagged() && t in timers
      modifies this`rows, this`lists, this`active
      ensures Inv(lo) && Flagged() && (ok <==> t in old(Bottom()))
      ensures Absent(lists, t) && Left(old(Bottom()), Bottom(), t) && active == old(active)[t := false]
      ensures if ok then lists == Stopped(old(lists), t) else lists == old(lists) && rows == old(rows)
    {
      hide ListsOk, RangeOk, Stopped;
      ok := active[t];
      if !ok {
        AbsentFromAll(lists, deadline, stamp, clock, t, 0);
        return;
      }
      Detach(t, lo);
    }

    // ---- rt_timer_check ----

    /** A periodic timer comes back behind everything that is due; any other timer is gone. */
    method Expire(t: int)
      requires Inv(now - 1) && Flagged() && Bottom() != [] && t == Bottom()[0] && t in timers
      requires periodic[t] ==> initTick[t] < HALF
      modifies this`rows, this`lists, this`timeoutTick, this`active, this`randomNr, this`deadline, this`stamp, this`clock
      ensures Inv(now - 1) && Flagged()
      ensures !periodic[t] ==> Bottom() == old(Bottom())[1..] && deadline == old(deadline) && stamp == old(stamp) && clock == old(clock)
      ensures periodic[t] ==> Bottom() == Placed(old(Bottom())[1..], t, old(deadline), now + initTick[t])
      ensures periodic[t] ==> deadline == old(deadline)[t := now + initTick[t]] && stamp == old(stamp)[t := old(clock)] && clock == old(clock) + 1
    {
      hide RowsOk, ListsOk, RangeOk, Rank, Without, FlagsOk, Left, Joined, Placed;
      ghost var b := Bottom();
      FirstDue(rows, lists, timers, deadline, stamp, timeoutTick, clock, now);
      FinalStopped(lists, t);
      FlagOf(active, b, timers, t);
      var again := periodic[t] && active[t];
      Detach(t, now - 1);
      if again {
        FinalStopped(lists, t);
        assert Without(Bottom(), t) == Bottom();
        ghost var base := Stopped(lists, t);
        ghost var dl := deadline;
        ghost var stop := Start(t, now - 1);
        FinalStarted(base, t, dl, now + initTick[t], stop);
      }
    }

    /** What a look at the front of the last row tells. */
    ghost predicate Checked()
      requires 0 < levels == |lists|
      reads this
    {
      && |rows| == levels && Has(rows[levels - 1], HEAD) && Distinct(Bottom())
      && (rows[levels - 1].next[HEAD] == HEAD <==> Bottom() == [])
      && (Bottom() == [] ==> Rank(Bottom(), deadline, now) == 0)
      && (Bottom() != [] ==>
            && rows[levels - 1].next[HEAD] == Bottom()[0] && Bottom()[0] in timers && Bottom()[0] in timeoutTick
            && (Minus(tick, timeoutTick[Bottom()[0]]) < HALF <==> Rank(Bottom(), deadline, now) > 0))
    }

    lemma Look()
      requires Inv(now - 1)
      ensures Checked()
    {
      hide RowsOk, ListsOk, RangeOk, Rank;
      FirstDue(rows, lists, timers, deadline, stamp, timeoutTick, clock, now);
    }

    /** rt_timer_check, with timeout functions that leave the list alone. It fires exactly the timers
        whose deadline has come, by deadline and then by start; the periodic ones are armed again
        a period from now, in the order they fired. */
    method Check() returns (fired: seq<int>)
      requires Inv(now - 1) && Flagged()
      requires forall t :: t in timers && periodic[t] ==> 1 <= initTick[t] < HALF
      modifies this`rows, this`lists, this`timeoutTick, this`active, this`randomNr, this`deadline, this`stamp, this`clock
      ensures Inv(now + 1) && Flagged()
      ensures fired == old(Bottom())[..Rank(old(Bottom()), old(deadline), now)]
      ensures Rearmed(fired, old(Bottom()), Bottom(), old(deadline), deadline, initTick, periodic, now)
      ensures InTurn(fired, periodic, stamp, old(clock), clock) && Untouched(fired, old(stamp), stamp)
    {
      hide RowsOk, ListsOk, RangeOk, Rank, FlagsOk, Rearmed, InTurn, Untouched, Placed, Final, Distinct, Minus, Firing;
      ghost var was, dl, st, cl := Bottom(), deadline, stamp, clock;
      fired := [];
      Look();
      NoneFired(was, dl, initTick, periodic, now, st, cl);
      while rows[levels - 1].next[HEAD] != HEAD
        invariant Inv(now - 1) && Flagged() && Checked()
        invariant Firing(fired, was, Bottom(), dl, deadline, st, stamp, cl, clock, initTick, periodic, now)
        decreases Rank(Bottom(), deadline, now)
      {
        var t := rows[levels - 1].next[HEAD];
        if Minus(tick, timeoutTick[t]) >= HALF {
          break;
        }
        ghost var b, dd, ss, cc := Bottom(), deadline, stamp, clock;
        Expire(t);
        FireStep(fired, was, b, Bottom(), dl, dd, deadline, st, ss, stamp, cl, cc, clock, initTick, periodic, now);
        fired := fired + [t];
        Look();
      }
      AllFired(fired, was, Bottom(), dl, deadline, st, stamp, cl, clock, initTick, periodic, now);
      NothingDue(lists, deadline, stamp, timeoutTick, clock, now);
    }

    /** The timer part of rt_tick_increase. */
    method Tick() returns (fired: seq<int>)
      requires Inv(now) && Flagged()
      requires forall t :: t in timers && periodic[t] ==> 1 <= initTick[t] < HALF
      modifies this
      ensures now == old(now) + 1 && Inv(now) && Flagged()
      ensures fired == old(Bottom())[..Rank(old(Bottom()), old(deadline), now)]
      ensures Rearmed(fired, old(Bottom()), Bottom(), old(deadline), deadline, initTick, periodic, now)
      ensures InTurn(fired, periodic, stamp, old(clock), clock) && Untouched(fired, old(stamp), stamp)
      ensures timers == old(timers) && periodic == old(periodic) && initTick == old(initTick)
    {
      hide RowsOk, ListsOk, Rank, FlagsOk, Rearmed, InTurn, Untouched;
      TickSum(now, 1);
      tick := Plus(tick, 1);
      now := now + 1;
      fired := Check();
    }
  }

  lemma RowHead(k: Links, s: seq<int>)
    requires Ring(k, [HEAD] + s)
    ensures Has(k, HEAD) && k.prev[HEAD] == ([HEAD] + s)[|s|]
    ensures forall i :: 0 <= i <= |s| ==> (([HEAD] + s)[i] != k.prev[HEAD] <==> i < |s|)
    ensures k.next[HEAD] == if s == [] then HEAD else s[0]
  {
    Steps(k, [HEAD] + s, 0);
  }

  lemma Walk(k: Links, s: seq<int>, i: nat)
    requires Ring(k, [HEAD] + s) && i <= |s|
    ensures var n := ([HEAD] + s)[i];
            Has(k, n) && Has(k, HEAD) && (i < |s| ==> k.next[n] == s[i]) && (n != k.prev[HEAD] <==> i < |s|)
  {
    hide Ring;
    Steps(k, [HEAD] + s, i);
    RowHead(k, s);
  }

  lemma TickSum(now: nat, init: nat)
    ensures Plus(TickAt(now), init) == TickAt(now + init)
  {
    assert now == now / M32 * M32 + now % M32;
    ModShift(now % M32 + init, now + init, now / M32);
  }

  lemma StoppedRange(lists: seq<seq<int>>, t: int, deadline: map<int, int>, timeoutTick: map<int, int>, lo: int, hi: int)
    requires lists != [] && RangeOk(Final(lists), deadline, timeoutTick, lo, hi)
    requires Left(Final(lists), Final(Stopped(lists, t)), t)
    ensures RangeOk(Final(Stopped(lists, t)), deadline, timeoutTick, lo, hi)
  {
  }

  lemma RangeUnaffected(s: seq<int>, t: int, deadline: map<int, int>, timeoutTick: map<int, int>, lo: int, hi: int, tt: int)
    requires RangeOk(s, deadline, timeoutTick, lo, hi) && t !in s
    ensures RangeOk(s, deadline, timeoutTick[t := tt], lo, hi)
  {
  }

  lemma StartedRange(base: seq<int>, bottom: seq<int>, t: int, deadline: map<int, int>, timeoutTick: map<int, int>,
                     lo: int, hi: int, d: int)
    requires RangeOk(base, deadline, timeoutTick, lo, hi) && lo <= d < hi && t !in base
    requires t in timeoutTick && timeoutTick[t] == TickAt(d) && Joined(base, bottom, t)
    ensures RangeOk(bottom, deadline[t := d], timeoutTick, lo, hi)
  {
  }

  lemma RangeWider(bottom: seq<int>, deadline: map<int, int>, timeoutTick: map<int, int>, lo: int, now: nat)
    requires RangeOk(bottom, deadline, timeoutTick, lo, now + HALF) && now - 1 <= lo
    ensures RangeOk(bottom, deadline, timeoutTick, now - 1, now + HALF)
  {
  }

  // ---- expiry, on values ----

  /** What a check that fired these timers leaves in the list. */
  ghost predicate Rearmed(fired: seq<int>, was: seq<int>, bottom: seq<int>, was_deadline: map<int, int>, deadline: map<int, int>,
                          initTick: map<int, nat>, periodic: map<int, bool>, now: int) {
    && (forall t :: t in bottom <==> if t in fired then t in periodic && periodic[t] else t in was)
    && (forall t :: t in fired && t in periodic && periodic[t] && t in initTick ==> t in deadline && deadline[t] == now + initTick[t])
    && (forall t :: t in was_deadline && t !in fired ==> t in deadline && deadline[t] == was_deadline[t])
  }

  /** The timers started again carry start numbers from lo up, in this order. */
  ghost predicate InTurn(fired: seq<int>, periodic: map<int, bool>, stamp: map<int, nat>, lo: nat, hi: nat) {
    && lo <= hi
    && (forall i :: 0 <= i < |fired| && Again(periodic, fired[i]) ==> fired[i] in stamp && lo <= stamp[fired[i]] < hi)
    && (forall i, j :: 0 <= i < j < |fired| && Again(periodic, fired[i]) && Again(periodic, fired[j])
                       ==> Apart(stamp, fired[i], fired[j]))
  }

  ghost predicate Again(periodic: map<int, bool>, t: int) {
    t in periodic && periodic[t]
  }

  ghost predicate Apart(stamp: map<int, nat>, a: int, b: int) {
    a in stamp && b in stamp && stamp[a] < stamp[b]
  }

  ghost predicate Untouched(fired: seq<int>, was: map<int, nat>, stamp: map<int, nat>) {
    forall t :: t in was && t !in fired ==> t in stamp && stamp[t] == was[t]
  }

  lemma FlagOf(active: map<int, bool>, b: seq<int>, timers: set<int>, t: int)
    requires FlagsOk(active, b, timers) && t in timers && b != [] && t == b[0]
    ensures t in active && active[t] && Without(b, t) == b[1..]
  {
  }

  /** Midway through a check: these have fired, the rest of those due stand at the front. */
  ghost predicate Firing(fired: seq<int>, was: seq<int>, b: seq<int>, dl: map<int, int>, dd: map<int, int>, st: map<int, nat>,
                         ss: map<int, nat>, cl: nat, cc: nat, initTick: map<int, nat>, periodic: map<int, bool>, now: int) {
    var due := Rank(was, dl, now);
    && Distinct(was) && |fired| <= due && fired == was[..|fired|]
    && Rank(b, dd, now) == due - |fired| && b[..due - |fired|] == was[|fired|..due]
    && Rearmed(fired, was, b, dl, dd, initTick, periodic, now)
    && InTurn(fired, periodic, ss, cl, cc) && Untouched(fired, st, ss)
  }

  lemma NoneFired(was: seq<int>, deadline: map<int, int>, initTick: map<int, nat>, periodic: map<int, bool>, now: int,
                  stamp: map<int, nat>, clock: nat)
    requires Distinct(was)
    ensures Firing([], was, was, deadline, deadline, stamp, stamp, clock, clock, initTick, periodic, now)
  {
  }

  lemma FiredMore(fired: seq<int>, was: seq<int>, b: seq<int>, b2: seq<int>, t: int, dl: map<int, int>, dd: map<int, int>,
                  d2: map<int, int>, initTick: map<int, nat>, periodic: map<int, bool>, now: int)
    requires Rearmed(fired, was, b, dl, dd, initTick, periodic, now) && t in was && t !in fired && t in b
    requires t in periodic && t in initTick
    requires periodic[t] ==> Joined(b, b2, t) && d2 == dd[t := now + initTick[t]]
    requires !periodic[t] ==> Left(b, b2, t) && d2 == dd
    ensures Rearmed(fired + [t], was, b2, dl, d2, initTick, periodic, now)
  {
  }

  lemma TurnMore(fired: seq<int>, periodic: map<int, bool>, t: int, stamp: map<int, nat>, stamp2: map<int, nat>,
                 lo: nat, clock: nat, clock2: nat)
    requires InTurn(fired, periodic, stamp, lo, clock) && t !in fired
    requires if Again(periodic, t) then stamp2 == stamp[t := clock] && clock2 == clock + 1 else stamp2 == stamp && clock2 == clock
    ensures InTurn(fired + [t], periodic, stamp2, lo, clock2)
  {
    var f := fired + [t];
    assert forall i :: 0 <= i < |fired| ==> f[i] == fired[i] && f[i] != t;
    forall i, j | 0 <= i < j < |f| && Again(periodic, f[i]) && Again(periodic, f[j]) ensures Apart(stamp2, f[i], f[j]) {
      if j < |fired| { assert Apart(stamp, fired[i], fired[j]); }
    }
  }

  lemma UntouchedMore(fired: seq<int>, t: int, was: map<int, nat>, stamp: map<int, nat>, stamp2: map<int, nat>)
    requires Untouched(fired, was, stamp) && forall x :: x in stamp && x != t ==> x in stamp2 && stamp2[x] == stamp[x]
    ensures Untouched(fired + [t], was, stamp2)
  {
  }

  lemma AllFired(fired: seq<int>, was: seq<int>, b: seq<int>, dl: map<int, int>, dd: map<int, int>, st: map<int, nat>,
                 ss: map<int, nat>, cl: nat, cc: nat, initTick: map<int, nat>, periodic: map<int, bool>, now: int)
    requires Firing(fired, was, b, dl, dd, st, ss, cl, cc, initTick, periodic, now) && Rank(b, dd, now) == 0
    ensures fired == was[..Rank(was, dl, now)]
    ensures Rearmed(fired, was, b, dl, dd, initTick, periodic, now)
    ensures InTurn(fired, periodic, ss, cl, cc) && Untouched(fired, st, ss)
  {
  }

  lemma FireStep(fired: seq<int>, was: seq<int>, b: seq<int>, b2: seq<int>, dl: map<int, int>, dd: map<int, int>, d2: map<int, int>,
                 st: map<int, nat>, ss: map<int, nat>, s2: map<int, nat>, cl: nat, cc: nat, c2: nat,
                 initTick: map<int, nat>, periodic: map<int, bool>, now: int)
    requires Firing(fired, was, b, dl, dd, st, ss, cl, cc, initTick, periodic, now)
    requires Distinct(b) && b != [] && Rank(b, dd, now) > 0 && b[0] in periodic && b[0] in initTick
    requires periodic[b[0]] ==> 1 <= initTick[b[0]] && b2 == Placed(b[1..], b[0], dd, now + initTick[b[0]])
    requires periodic[b[0]] ==> d2 == dd[b[0] := now + initTick[b[0]]] && s2 == ss[b[0] := cc] && c2 == cc + 1
    requires !periodic[b[0]] ==> b2 == b[1..] && d2 == dd && s2 == ss && c2 == cc
    ensures Firing(fired + [b[0]], was, b2, dl, d2, st, s2, cl, c2, initTick, periodic, now)
    ensures Rank(b2, d2, now) < Rank(b, dd, now)
  {
    hide Rearmed, InTurn, Untouched, Placed, Rank, Distinct;
    var t, k, due := b[0], |fired|, Rank(was, dl, now);
    assert t == b[..due - k][0] == was[k];
    NotYet(was, k);
    assert b2[..due - k - 1] == b[1..][..due - k - 1] == b[..due - k][1..] == was[k + 1..due] by {
      Refill(b, b2, t, dd, d2, now, initTick[t], periodic[t]);
    }
    Refill(b, b2, t, dd, d2, now, initTick[t], periodic[t]);
    FiredMore(fired, was, b, b2, t, dl, dd, d2, initTick, periodic, now);
    TurnMore(fired, periodic, t, ss, s2, cl, cc, c2);
    UntouchedMore(fired, t, st, ss, s2);
  }

  lemma NotYet(was: seq<int>, k: nat)
    requires Distinct(was) && k < |was|
    ensures was[k] !in was[..k] && was[..k] + [was[k]] == was[..k + 1]
  {
  }

  lemma {:induction false} RankIs(s: seq<int>, deadline: map<int, int>, d: int, r: nat)
    requires r <= |s| && forall i :: 0 <= i < r ==> s[i] in deadline && deadline[s[i]] <= d
    requires r < |s| ==> s[r] !in deadline || deadline[s[r]] > d
    ensures Rank(s, deadline, d) == r
  {
    if r > 0 {
      assert forall i :: 0 <= i < r - 1 ==> s[1..][i] == s[i + 1];
      RankIs(s[1..], deadline, d, r - 1);
    }
  }

  lemma {:induction false} RankMeans(s: seq<int>, deadline: map<int, int>, d: int)
    ensures var r := Rank(s, deadline, d);
            && (forall i :: 0 <= i < r ==> s[i] in deadline && deadline[s[i]] <= d)
            && (r < |s| ==> s[r] !in deadline || deadline[s[r]] > d)
  {
    if s != [] {
      RankMeans(s[1..], deadline, d);
      assert forall i :: 1 <= i < |s| ==> s[i] == s[1..][i - 1];
    }
  }

  lemma {:induction false} RankGrows(s: seq<int>, deadline: map<int, int>, d: int, e: int)
    requires d <= e
    ensures Rank(s, deadline, d) <= Rank(s, deadline, e)
  {
    if s != [] { RankGrows(s[1..], deadline, d, e); }
  }

  /** Firing the first timer leaves the rest of those due, in place, at the front. */
  lemma Refill(b: seq<int>, b2: seq<int>, t: int, dd: map<int, int>, d2: map<int, int>, now: int, init: nat, again: bool)
    requires b != [] && t == b[0] && Distinct(b) && Rank(b, dd, now) > 0
    requires again ==> 1 <= init && b2 == Placed(b[1..], t, dd, now + init) && d2 == dd[t := now + init]
    requires !again ==> b2 == b[1..] && d2 == dd
    ensures var r := Rank(b, dd, now) - 1;
            Rank(b2, d2, now) == r && r <= |b2| && b2[..r] == b[1..][..r]
    ensures if again then Joined(b, b2, t) else Left(b, b2, t)
  {
    var s, r := b[1..], Rank(b, dd, now) - 1;
    assert r == Rank(s, dd, now);
    Behind(b, t);
    if again { Requeue(s, b2, t, dd, d2, now, now + init); }
  }

  /** Arming the timer that has just fired takes it out of those due exactly when its period is not 0; with
      a period of 0 it stays due at the same tick, and the loop of rt_timer_check comes back to it. */
  lemma RearmShrinks(b: seq<int>, t: int, dd: map<int, int>, now: int, period: nat)
    requires b != [] && t == b[0] && Distinct(b) && Rank(b, dd, now) > 0
    ensures var b2, d2 := Placed(b[1..], t, dd, now + period), dd[t := now + period];
            && (Rank(b2, d2, now) < Rank(b, dd, now) <==> period >= 1)
            && (period == 0 ==> Rank(b2, d2, now) == Rank(b, dd, now) && t in b2)
  {
    var s, b2, d2 := b[1..], Placed(b[1..], t, dd, now + period), dd[t := now + period];
    Behind(b, t);
    if period >= 1 {
      Requeue(s, b2, t, dd, d2, now, now + period);
    } else {
      var r := Rank(s, dd, now);
      RankMeans(s, dd, now);
      assert b2[r] == t && forall i :: 0 <= i < r ==> b2[i] == s[i] && s[i] in s;
      assert r + 1 < |b2| ==> b2[r + 1] == s[r] && s[r] in s;
      RankIs(b2, d2, now, r + 1);
    }
  }

  lemma Behind(b: seq<int>, t: int)
    requires b != [] && t == b[0] && Distinct(b)
    ensures t !in b[1..] && forall x :: x in b <==> x == t || x in b[1..]
  {
    assert b == [t] + b[1..];
  }

  lemma Requeue(s: seq<int>, b2: seq<int>, t: int, dd: map<int, int>, d2: map<int, int>, now: int, d: int)
    requires t !in s && now < d && b2 == Placed(s, t, dd, d) && d2 == dd[t := d]
    ensures var r := Rank(s, dd, now);
            Rank(b2, d2, now) == r && b2[..r] == s[..r] && forall x :: x in b2 <==> x in s || x == t
  {
    hide Rank;
    var q, r := Rank(s, dd, d), Rank(s, dd, now);
    PlacedElements(s, t, dd, d);
    RankGrows(s, dd, now, d);
    RankMeans(s, dd, now);
    assert forall i :: 0 <= i < r ==> b2[i] == s[i] && s[i] in s;
    assert r < |b2| && b2[r] == if r < q then s[r] else t;
    RankIs(b2, d2, now, r);
  }

  lemma FirstDue(rows: seq<Links>, lists: seq<seq<int>>, timers: set<int>, deadline: map<int, int>, stamp: map<int, nat>,
                 timeoutTick: map<int, int>, clock: nat, now: nat)
    requires lists != [] && RowsOk(rows, lists, timers) && ListsOk(lists, deadline, stamp, clock)
    requires RangeOk(Final(lists), deadline, timeoutTick, now - 1, now + HALF)
    ensures |rows| == |lists|
    ensures var k, b := rows[|lists| - 1], Final(lists);
            && Has(k, HEAD) && Distinct(b) && (k.next[HEAD] == HEAD <==> b == [])
            && (b == [] ==> Rank(b, deadline, now) == 0)
            && (b != [] ==>
                  && k.next[HEAD] == b[0] && b[0] in timers && b[0] in timeoutTick
                  && (Minus(TickAt(now), timeoutTick[b[0]]) < HALF <==> Rank(b, deadline, now) > 0))
  {
    hide Ring, Sorted;
    var l := |lists| - 1;
    assert RowOk(rows[l], lists[l], timers);
    RowHead(rows[l], lists[l]);
    RingTail(rows[l], HEAD, lists[l]);
    if lists[l] != [] {
      var t := lists[l][0];
      assert t in lists[l];
      TickOrder(now, deadline[t]);
    }
  }

  /** Once nothing is due every deadline is later than now. */
  lemma NothingDue(lists: seq<seq<int>>, deadline: map<int, int>, stamp: map<int, nat>,
                   timeoutTick: map<int, int>, clock: nat, now: nat)
    requires lists != [] && ListsOk(lists, deadline, stamp, clock)
    requires RangeOk(Final(lists), deadline, timeoutTick, now - 1, now + HALF) && Rank(Final(lists), deadline, now) == 0
    ensures RangeOk(Final(lists), deadline, timeoutTick, now + 1, now + HALF)
  {
    hide Rank;
    RankSplits(Final(lists), deadline, stamp, now);
  }

  lemma LooseTimer(lists: seq<seq<int>>, rows: seq<Links>, timers: set<int>, active: map<int, bool>, t: int)
    requires lists != [] && RowsOk(rows, lists, timers) && t !in timers && FlagsOk(active, Final(lists), timers)
    ensures t !in Final(lists) && FlagsOk(active[t := false], Final(lists), timers + {t})
  {
    hide Ring;
    assert RowOk(rows[|lists| - 1], Final(lists), timers);
  }

  lemma KeysMore<T>(timers: set<int>, m: map<int, T>, t: int, v: T)
    requires timers <= m.Keys
    ensures timers + {t} <= m[t := v].Keys
  {
  }

  lemma RowInit(k: Links, s: seq<int>, timers: set<int>, t: int)
    requires RowOk(k, s, timers) && t !in timers && t != HEAD
    ensures RowOk(Init(k, t), s, timers + {t})
  {
    hide Ring, Init;
    InitRing(k, t);
    InitFrame(k, [HEAD] + s, t);
    forall x | x in timers && x !in s ensures Ring(Init(k, t), [x]) { InitFrame(k, [x], t); }
  }

  lemma FinalStopped(lists: seq<seq<int>>, t: int)
    requires lists != []
    ensures Final(Stopped(lists, t)) == Without(Final(lists), t)
  {
  }

  lemma FinalStarted(lists: seq<seq<int>>, t: int, deadline: map<int, int>, d: int, stop: nat)
    requires lists != [] && stop < |lists|
    ensures Final(Started(lists, t, deadline, d, stop)) == Placed(Final(lists), t, deadline, d)
  {
  }

  lemma AbsentFromAll(lists: seq<seq<int>>, deadline: map<int, int>, stamp: map<int, nat>, clock: nat, t: int, l: nat)
    requires lists != [] && l < |lists| && ListsOk(lists, deadline, stamp, clock) && t !in Final(lists)
    ensures forall j :: l <= j < |lists| ==> t !in lists[j]
    decreases |lists| - l
  {
    hide Sorted;
    if l + 1 < |lists| {
      AbsentFromAll(lists, deadline, stamp, clock, t, l + 1);
      assert Contained(lists[l], lists[l + 1]);
    }
  }
}
