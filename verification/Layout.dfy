/** Layouts of a heap with in-band headers, shared by memheap.c and mem.c: the blocks in
    address order, each a header of h bytes followed by its data up to the next header.
    The last block is the used sentinel. What allocation and release do to a layout. */
module Layout {

  datatype Block = Block(at: int, used: bool)

  type Heap = seq<Block>

  /** Headers in ascending order with room between them, closed by a used sentinel. */
  ghost predicate Tiled(s: Heap, h: nat) {
    && 2 <= |s| && 0 < h && s[|s| - 1].used
    && forall i, j :: 0 <= i < j < |s| ==> s[i].at + h <= s[j].at
  }

  /** No two neighbouring blocks are both free. */
  ghost predicate Coalesced(s: Heap) {
    forall i :: 0 <= i < |s| - 1 ==> s[i].used || s[i + 1].used
  }

  function Size(s: Heap, i: nat, h: nat): int
    requires i + 1 < |s|
  {
    s[i + 1].at - s[i].at - h
  }

  /** Total over the blocks with the given state, sentinel excluded, of their extent less h. */
  function Bytes(s: Heap, used: bool, h: nat): int {
    if |s| < 2 then 0
    else (if s[0].used == used then s[1].at - s[0].at - h else 0) + Bytes(s[1..], used, h)
  }

  function Blocks(s: Heap, used: bool): nat {
    if |s| < 2 then 0 else (if s[0].used == used then 1 else 0) + Blocks(s[1..], used)
  }

  /** Whatever the layout: free data, used data and headers add up to the span. */
  lemma {:induction false} BytesTotal(s: Heap, h: nat)
    requires s != []
    ensures Bytes(s, true, h) + Bytes(s, false, h) + h * (|s| - 1) == s[|s| - 1].at - s[0].at
    ensures Bytes(s, true, 0) == Bytes(s, true, h) + h * Blocks(s, true)
  {
    if |s| > 1 {
      BytesTotal(s[1..], h);
      assert h * (|s| - 1) == h + h * (|s[1..]| - 1);
      assert h * Blocks(s, true) == (if s[0].used then h else 0) + h * Blocks(s[1..], true);
    }
  }

  // ---- elementary changes ----

  function Mark(s: Heap, i: nat, used: bool): (t: Heap)
    requires i < |s|
    ensures |t| == |s| && forall j :: 0 <= j < |t| ==> t[j] == if j == i then Block(s[i].at, used) else s[j]
  {
    s[i := Block(s[i].at, used)]
  }

  /** A new block directly after block i. */
  function Split(s: Heap, i: nat, b: Block): (t: Heap)
    requires i < |s|
    ensures |t| == |s| + 1 && t[i + 1] == b
    ensures forall j :: 0 <= j <= i ==> t[j] == s[j]
    ensures forall j :: i + 1 < j < |t| ==> t[j] == s[j - 1]
  {
    s[..i + 1] + [b] + s[i + 1..]
  }

  /** Block i swallows block i + 1. */
  function Join(s: Heap, i: nat): (t: Heap)
    requires i + 1 < |s|
    ensures |t| == |s| - 1
    ensures forall j :: 0 <= j <= i ==> t[j] == s[j]
    ensures forall j :: i < j < |t| ==> t[j] == s[j + 1]
  {
    s[..i + 1] + s[i + 2..]
  }

  /** What a piece of the heap from a to b contributes to Bytes(_, used, h). */
  function Share(state: bool, used: bool, a: int, b: int, h: nat): int {
    if state == used then b - a - h else 0
  }

  lemma {:induction false} MarkBytes(s: Heap, i: nat, state: bool, used: bool, h: nat)
    requires i + 1 < |s|
    ensures Bytes(Mark(s, i, state), used, h) == Bytes(s, used, h)
            - Share(s[i].used, used, s[i].at, s[i + 1].at, h) + Share(state, used, s[i].at, s[i + 1].at, h)
  {
    if i == 0 {
      assert Mark(s, 0, state)[1..] == s[1..];
    } else {
      assert Mark(s, i, state)[1..] == Mark(s[1..], i - 1, state);
      MarkBytes(s[1..], i - 1, state, used, h);
    }
  }

  lemma {:induction false} SplitBytes(s: Heap, i: nat, b: Block, used: bool, h: nat)
    requires i + 1 < |s|
    ensures Bytes(Split(s, i, b), used, h) == Bytes(s, used, h) - Share(s[i].used, used, s[i].at, s[i + 1].at, h)
            + Share(s[i].used, used, s[i].at, b.at, h) + Share(b.used, used, b.at, s[i + 1].at, h)
  {
    if i == 0 {
      var t := Split(s, 0, b);
      assert t[1..] == [b] + s[1..] && t[1..][1..] == s[1..];
    } else {
      assert Split(s, i, b)[1..] == Split(s[1..], i - 1, b);
      SplitBytes(s[1..], i - 1, b, used, h);
    }
  }

  lemma JoinBytes(s: Heap, i: nat, used: bool, h: nat)
    requires i + 2 < |s|
    ensures Bytes(Join(s, i), used, h) == Bytes(s, used, h) + Share(s[i].used, used, s[i].at, s[i + 2].at, h)
            - Share(s[i].used, used, s[i].at, s[i + 1].at, h) - Share(s[i + 1].used, used, s[i + 1].at, s[i + 2].at, h)
  {
    var t := Join(s, i);
    assert t[i] == s[i] && t[i + 1] == s[i + 2];
    assert Split(t, i, s[i + 1]) == s;
    SplitBytes(t, i, s[i + 1], used, h);
  }

  // ---- allocation and release ----

  /** Takes size bytes from free block i; the rest becomes a free block when it can hold
      a header and least bytes. */
  function Alloc(s: Heap, i: nat, size: nat, h: nat, least: nat): Heap
    requires i + 1 < |s|
  {
    if Size(s, i, h) >= size + h + least
    then Mark(Split(s, i, Block(s[i].at + h + size, false)), i, true)
    else Mark(s, i, true)
  }

  /** Cuts used block i down to size bytes; the tail joins a free neighbour. */
  function Shrink(s: Heap, i: nat, size: nat, h: nat): Heap
    requires i + 1 < |s|
  {
    JoinFree(Split(s, i, Block(s[i].at + h + size, false)), i + 1)
  }

  function JoinFree(s: Heap, i: nat): Heap
    requires i < |s|
  {
    if i + 1 < |s| && !s[i + 1].used then Join(s, i) else s
  }

  /** Joins free block i with its free neighbours. */
  function Plug(s: Heap, i: nat): Heap
    requires i < |s|
  {
    var t := JoinFree(s, i);
    if i > 0 && !t[i - 1].used then Join(t, i - 1) else t
  }

  /** Releases block i and joins it with its free neighbours. */
  function Free(s: Heap, i: nat): Heap
    requires i + 1 < |s|
  {
    Plug(Mark(s, i, false), i)
  }

  lemma MarkTiled(s: Heap, i: nat, used: bool, h: nat)
    requires Tiled(s, h) && i + 1 < |s|
    ensures Tiled(Mark(s, i, used), h)
  {
    hide Mark;
  }

  lemma SplitTiled(s: Heap, i: nat, b: Block, h: nat)
    requires Tiled(s, h) && i + 1 < |s| && s[i].at + h <= b.at && b.at + h <= s[i + 1].at
    ensures Tiled(Split(s, i, b), h)
  {
    hide Split;
  }

  lemma JoinTiled(s: Heap, i: nat, h: nat)
    requires Tiled(s, h) && i + 2 < |s|
    ensures Tiled(Join(s, i), h)
  {
    hide Join;
  }

  lemma AllocKeeps(s: Heap, i: nat, size: nat, h: nat, least: nat)
    requires Tiled(s, h) && Coalesced(s) && i + 1 < |s| && !s[i].used && size <= Size(s, i, h)
    ensures var t := Alloc(s, i, size, h, least);
            Tiled(t, h) && Coalesced(t) && t[0].at == s[0].at && t[|t| - 1] == s[|s| - 1]
            && i + 1 < |t| && t[i] == Block(s[i].at, true) && size <= Size(t, i, h)
  {
    hide Mark, Split, Tiled;
    TiledOrder(s, h);
    MarkTiled(s, i, true, h);
    if Size(s, i, h) >= size + h + least {
      var b := Block(s[i].at + h + size, false);
      SplitTiled(s, i, b, h);
      MarkTiled(Split(s, i, b), i, true, h);
    }
  }

  lemma TiledOrder(s: Heap, h: nat)
    requires Tiled(s, h)
    ensures 2 <= |s| && 0 < h && s[|s| - 1].used
  {
  }

  lemma ShrinkKeeps(s: Heap, i: nat, size: nat, h: nat)
    requires Tiled(s, h) && Coalesced(s) && i + 1 < |s| && s[i].used && size + h <= Size(s, i, h)
    ensures var t := Shrink(s, i, size, h);
            Tiled(t, h) && Coalesced(t) && t[0].at == s[0].at && t[|t| - 1] == s[|s| - 1]
            && i + 1 < |t| && t[i] == s[i] && Size(t, i, h) == size
  {
    hide Join, Split, Tiled;
    TiledOrder(s, h);
    var b := Block(s[i].at + h + size, false);
    var t := Split(s, i, b);
    SplitTiled(s, i, b, h);
    if !t[i + 2].used { JoinTiled(t, i + 1, h); }
  }

  lemma FreeKeeps(s: Heap, i: nat, h: nat)
    requires Tiled(s, h) && Coalesced(s) && i + 1 < |s| && s[i].used
    ensures var t := Free(s, i); Tiled(t, h) && Coalesced(t) && t[0].at == s[0].at && t[|t| - 1] == s[|s| - 1]
  {
    hide Mark, Join, Tiled;
    TiledOrder(s, h);
    var m := Mark(s, i, false);
    MarkTiled(s, i, false, h);
    if !m[i + 1].used { JoinTiled(m, i, h); }
    var t := JoinFree(m, i);
    if i > 0 && !t[i - 1].used { JoinTiled(t, i - 1, h); }
  }

  /** Releasing what was just allocated restores the layout. */
  lemma FreeUndoesAlloc(s: Heap, i: nat, size: nat, h: nat, least: nat)
    requires Tiled(s, h) && Coalesced(s) && i + 1 < |s| && !s[i].used && size <= Size(s, i, h)
    ensures i + 1 < |Alloc(s, i, size, h, least)| && Free(Alloc(s, i, size, h, least), i) == s
  {
    var t := Alloc(s, i, size, h, least);
    if |t| == |s| {
      assert Mark(t, i, false) == s;
    } else {
      assert Join(Mark(t, i, false), i) == s;
    }
  }

  // ---- live allocations ----

  /** p is the address of n bytes handed out and not yet released. */
  ghost predicate Live(s: Heap, h: nat, p: int, n: int) {
    exists i :: 0 <= i < |s| - 1 && LiveAt(s, h, i, p, n)
  }

  ghost predicate LiveAt(s: Heap, h: nat, i: int, p: int, n: int)
    requires 0 <= i < |s| - 1
  {
    s[i].used && s[i].at + h == p && Size(s, i, h) == n
  }

  /** Distinct live allocations lie apart, with a header between them, inside the heap. */
  lemma LiveDisjoint(s: Heap, h: nat, p: int, n: int, q: int, k: int)
    requires Tiled(s, h) && Live(s, h, p, n) && Live(s, h, q, k)
    ensures s[0].at + h <= p && 0 <= n && p + n <= s[|s| - 1].at
    ensures if p == q then n == k else p + n + h <= q || q + k + h <= p
  {
  }

  lemma MarkLive(s: Heap, i: nat, used: bool, h: nat, p: int, n: int)
    requires Tiled(s, h) && i + 1 < |s|
    ensures Live(Mark(s, i, used), h, p, n) <==>
            if p == s[i].at + h then used && n == Size(s, i, h) else Live(s, h, p, n)
  {
    hide Mark;
    var t := Mark(s, i, used);
    assert forall j :: 0 <= j < |s| - 1 && j != i ==> LiveAt(s, h, j, p, n) == LiveAt(t, h, j, p, n);
    assert LiveAt(t, h, i, p, n) == (used && p == s[i].at + h && n == Size(s, i, h));
  }

  lemma SplitLive(s: Heap, i: nat, b: Block, h: nat, p: int, n: int)
    requires Tiled(s, h) && i + 1 < |s| && !b.used && s[i].at + h <= b.at && b.at + h <= s[i + 1].at
    ensures Live(Split(s, i, b), h, p, n) <==>
            if s[i].used && p == s[i].at + h then n == b.at - s[i].at - h else Live(s, h, p, n)
  {
    hide Split;
    var t := Split(s, i, b);
    assert forall j :: 0 <= j < i ==> LiveAt(t, h, j, p, n) == LiveAt(s, h, j, p, n);
    forall j | i < j < |s| - 1 ensures LiveAt(t, h, j + 1, p, n) == LiveAt(s, h, j, p, n) { }
    assert LiveAt(t, h, i, p, n) == (s[i].used && p == s[i].at + h && n == b.at - s[i].at - h);
    if Live(t, h, p, n) {
      var j :| 0 <= j < |t| - 1 && LiveAt(t, h, j, p, n);
      assert j <= i || LiveAt(s, h, j - 1, p, n);
    }
  }

  lemma JoinLive(s: Heap, i: nat, h: nat, p: int, n: int)
    requires Tiled(s, h) && i + 2 < |s| && !s[i + 1].used
    ensures Live(Join(s, i), h, p, n) <==>
            if s[i].used && p == s[i].at + h then n == s[i + 2].at - s[i].at - h else Live(s, h, p, n)
  {
    hide Join;
    var t := Join(s, i);
    assert t[i] == s[i] && t[i + 1] == s[i + 2];
    assert Split(t, i, s[i + 1]) == s;
    JoinTiled(s, i, h);
    SplitLive(t, i, s[i + 1], h, p, n);
    if s[i].used && p == s[i].at + h {
      assert LiveAt(t, h, i, p, s[i + 2].at - s[i].at - h);
      if Live(t, h, p, n) { LiveDisjoint(t, h, p, n, p, s[i + 2].at - s[i].at - h); }
    }
  }

  /** Allocation adds exactly one live area, at the block's data. */
  lemma AllocLive(s: Heap, i: nat, size: nat, h: nat, least: nat, p: int, n: int)
    requires Tiled(s, h) && i + 1 < |s| && !s[i].used && size <= Size(s, i, h)
    ensures var t := Alloc(s, i, size, h, least); var r := s[i].at + h;
            i + 1 < |t| && !Live(s, h, r, n) && (Live(t, h, p, n) <==> Live(s, h, p, n) || (p == r && n == Size(t, i, h)))
  {
    hide Mark, Split, Tiled, Live;
    var r := s[i].at + h;
    NotLive(s, i, h, n);
    MarkLive(s, i, true, h, p, n);
    if Size(s, i, h) >= size + h + least {
      var b := Block(s[i].at + h + size, false);
      SplitTiled(s, i, b, h);
      SplitLive(s, i, b, h, p, n);
      MarkLive(Split(s, i, b), i, true, h, p, n);
    }
  }

  lemma NotLive(s: Heap, i: nat, h: nat, n: int)
    requires Tiled(s, h) && i + 1 < |s| && !s[i].used
    ensures !Live(s, h, s[i].at + h, n)
  {
  }

  /** Release ends exactly one live area. */
  lemma FreeLive(s: Heap, i: nat, h: nat, p: int, n: int)
    requires Tiled(s, h) && Coalesced(s) && i + 1 < |s| && s[i].used
    ensures Live(Free(s, i), h, p, n) <==> Live(s, h, p, n) && p != s[i].at + h
  {
    hide Mark, Join, Tiled, Live;
    TiledOrder(s, h);
    var m := Mark(s, i, false);
    MarkTiled(s, i, false, h);
    MarkLive(s, i, false, h, p, n);
    if !m[i + 1].used { JoinTiled(m, i, h); JoinLive(m, i, h, p, n); }
    var t := JoinFree(m, i);
    if i > 0 && !t[i - 1].used { JoinLive(t, i - 1, h, p, n); }
  }

  lemma ShrinkLive(s: Heap, i: nat, size: nat, h: nat, p: int, n: int)
    requires Tiled(s, h) && Coalesced(s) && i + 1 < |s| && s[i].used && size + h <= Size(s, i, h)
    ensures Live(Shrink(s, i, size, h), h, p, n) <==>
            if p == s[i].at + h then n == size else Live(s, h, p, n)
  {
    hide Join, Split, Tiled, Live;
    TiledOrder(s, h);
    var b := Block(s[i].at + h + size, false);
    var t := Split(s, i, b);
    SplitTiled(s, i, b, h);
    SplitLive(s, i, b, h, p, n);
    if !t[i + 2].used { JoinLive(t, i + 1, h, p, n); }
  }

  /** Joining growing block i with its free neighbour and cutting the rest off again. */
  function Grow(s: Heap, i: nat, size: nat, h: nat): Heap
    requires i + 2 < |s|
  {
    Split(Join(s, i), i, Block(s[i].at + h + size, false))
  }

  lemma GrowKeeps(s: Heap, i: nat, size: nat, h: nat)
    requires Tiled(s, h) && Coalesced(s) && i + 2 < |s| && s[i].used && !s[i + 1].used
    requires Size(s, i, h) <= size && s[i].at + h + size + h <= s[i + 2].at
    ensures var t := Grow(s, i, size, h);
            Tiled(t, h) && Coalesced(t) && t[0].at == s[0].at && t[|t| - 1] == s[|s| - 1]
            && t[i] == s[i] && Size(t, i, h) == size
  {
    hide Join, Split, Tiled;
    TiledOrder(s, h);
    JoinTiled(s, i, h);
    SplitTiled(Join(s, i), i, Block(s[i].at + h + size, false), h);
  }

  lemma GrowLive(s: Heap, i: nat, size: nat, h: nat, p: int, n: int)
    requires Tiled(s, h) && Coalesced(s) && i + 2 < |s| && s[i].used && !s[i + 1].used
    requires Size(s, i, h) <= size && s[i].at + h + size + h <= s[i + 2].at
    ensures Live(Grow(s, i, size, h), h, p, n) <==> if p == s[i].at + h then n == size else Live(s, h, p, n)
  {
    hide Join, Split, Tiled, Live;
    TiledOrder(s, h);
    JoinTiled(s, i, h);
    JoinLive(s, i, h, p, n);
    SplitLive(Join(s, i), i, Block(s[i].at + h + size, false), h, p, n);
  }

  /** Joining backward first and then forward gives the same layout. */
  lemma FreeBackFirst(s: Heap, i: nat)
    requires i + 1 < |s|
    ensures Free(s, i) == if i > 0 && !s[i - 1].used then JoinFree(Join(Mark(s, i, false), i - 1), i - 1)
                          else JoinFree(Mark(s, i, false), i)
  {
    var m := Mark(s, i, false);
    if i > 0 && !s[i + 1].used { assert Join(Join(m, i - 1), i - 1) == Join(Join(m, i), i - 1); }
  }

  // ---- addresses of the free blocks ----

  ghost predicate FreeAt(s: Heap, a: int) {
    exists i :: 0 <= i < |s| && s[i] == Block(a, false)
  }

  lemma FreeAtIndex(s: Heap, i: nat, h: nat)
    requires Tiled(s, h) && i < |s|
    ensures FreeAt(s, s[i].at) <==> !s[i].used
  {
  }

  lemma MarkFreeAt(s: Heap, i: nat, used: bool, h: nat, a: int)
    requires Tiled(s, h) && i < |s|
    ensures FreeAt(Mark(s, i, used), a) <==> if a == s[i].at then !used else FreeAt(s, a)
  {
    hide Mark;
    var t := Mark(s, i, used);
    assert t[i] == Block(s[i].at, used);
    if FreeAt(s, a) {
      var j :| 0 <= j < |s| && s[j] == Block(a, false);
      assert j != i ==> t[j] == s[j];
    }
  }

  lemma SplitFreeAt(s: Heap, i: nat, b: Block, a: int)
    requires i < |s|
    ensures FreeAt(Split(s, i, b), a) <==> FreeAt(s, a) || b == Block(a, false)
  {
    hide Split;
    var t := Split(s, i, b);
    if FreeAt(s, a) {
      var j :| 0 <= j < |s| && s[j] == Block(a, false);
      assert t[if j <= i then j else j + 1] == s[j];
    }
  }

  lemma JoinFreeAt(s: Heap, i: nat, h: nat, a: int)
    requires Tiled(s, h) && i + 1 < |s|
    ensures FreeAt(Join(s, i), a) <==> FreeAt(s, a) && a != s[i + 1].at
  {
    hide Join;
    var t := Join(s, i);
    if FreeAt(s, a) && a != s[i + 1].at {
      var j :| 0 <= j < |s| && s[j] == Block(a, false);
      assert t[if j <= i then j else j - 1] == s[j];
    }
  }

  // ---- addresses of all blocks ----

  function Ats(s: Heap): (r: seq<int>)
    ensures |r| == |s| && forall j :: 0 <= j < |s| ==> r[j] == s[j].at
  {
    seq(|s|, i requires 0 <= i < |s| => s[i].at)
  }

  /** How the header addresses move with the layout. */
  lemma AtsChange(s: Heap, i: nat, used: bool, b: Block)
    requires i < |s|
    ensures Ats(Mark(s, i, used)) == Ats(s)
    ensures Ats(Split(s, i, b)) == Ats(s)[..i + 1] + [b.at] + Ats(s)[i + 1..]
    ensures i + 1 < |s| ==> Ats(Join(s, i)) == Ats(s)[..i + 1] + Ats(s)[i + 2..]
  {
  }

  // ---- header bytes ----

  ghost predicate InHeader(s: Heap, h: nat, a: int) {
    exists i :: 0 <= i < |s| && s[i].at <= a < s[i].at + h
  }

  /** Live data never contains header bytes. */
  lemma LiveNotHeader(s: Heap, h: nat, p: int, n: int, a: int)
    requires Tiled(s, h) && Live(s, h, p, n) && p <= a < p + n
    ensures !InHeader(s, h, a)
  {
  }
}
