/** mem.c: the small-memory heap. Blocks are linked by offsets from heap_ptr; next is kept for
    every block, prev for every block but the end sentinel; lfree caches a place to start
    searching. Offsets and sizes are for RT_ALIGN_SIZE 8, as this board configures it. */
module SmallMem {
  import opened Options
  import opened Layout
  import opened RtList
  import opened Contents

  const S: nat := 16                 // SIZEOF_STRUCT_MEM
  const MIN_SIZE: nat := 12
  const MIN_ALIGNED: nat := 16       // MIN_SIZE_ALIGNED
  const M32: int := 0x1_0000_0000
  const NOWHERE: int := -1           // no header lies outside the heap here

  /** RT_ALIGN on a 32-bit size. */
  function Align(size: nat): (r: nat)
    ensures r % 8 == 0 && (size <= M32 - 8 ==> size <= r < size + 8)
  {
    var x := (size + 7) % M32;
    x - x % 8
  }

  /** The data size rt_malloc looks for. */
  function Want(size: nat): (r: nat)
    ensures r % 8 == 0 && MIN_ALIGNED <= r
  {
    if Align(size) < MIN_ALIGNED then MIN_ALIGNED else Align(size)
  }

  /** The raised size covers the request exactly when aligning does not wrap around 2^32. */
  lemma WantCovers(size: nat)
    requires size < M32
    ensures size <= Want(size) <==> size <= M32 - 8
    ensures size <= Align(size) <==> size <= M32 - 8
  {
  }

  /** For instance rt_realloc of 64 bytes to 2^32 - 1 cuts the area to nothing. */
  lemma AlignWraps()
    ensures Align(0xFFFF_FFFF) == 0 && Want(0xFFFF_FFFF) == MIN_ALIGNED
    ensures var s := [Block(0, true), Block(80, true)];
            Live(s, S, 16, 64) && Align(0xFFFF_FFFF) + S + MIN_SIZE < 64 && Live(Shrink(s, 0, Align(0xFFFF_FFFF), S), S, 16, 0)
  {
    var s := [Block(0, true), Block(80, true)];
    var t := Shrink(s, 0, 0, S);
    assert LiveAt(s, S, 0, 16, 64);
    assert t == [Block(0, true), Block(16, false), Block(80, true)];
    assert LiveAt(t, S, 0, 16, 0);
  }

  // ---- the offset links as values ----

  ghost predicate NextOk(next: map<int, int>, s: Heap)
    requires s != []
  {
    && (forall i :: 0 <= i < |s| ==> s[i].at in next)
    && (forall i :: 0 <= i < |s| - 1 ==> next[s[i].at] == s[i + 1].at)
    && next[s[|s| - 1].at] == s[|s| - 1].at
  }

  ghost predicate PrevOk(prev: map<int, int>, s: Heap)
    requires s != []
  {
    && (forall i :: 0 <= i < |s| ==> s[i].at in prev)
    && (forall i :: 0 < i < |s| - 1 ==> prev[s[i].at] == s[i - 1].at)
    && prev[s[0].at] == s[0].at
  }

  ghost predicate UsedOk(used: map<int, bool>, s: Heap) {
    forall i :: 0 <= i < |s| ==> s[i].at in used && used[s[i].at] == s[i].used
  }

  ghost predicate Linked(next: map<int, int>, prev: map<int, int>, used: map<int, bool>, s: Heap) {
    Tiled(s, S) && NextOk(next, s) && PrevOk(prev, s) && UsedOk(used, s)
  }

  ghost predicate Aligned(s: Heap) {
    forall i :: 0 <= i < |s| ==> s[i].at % 8 == 0
  }

  lemma BlockFields(next: map<int, int>, prev: map<int, int>, used: map<int, bool>, s: Heap, i: nat)
    requires Linked(next, prev, used, s) && i + 1 < |s|
    ensures s[i].at in next && s[i].at in prev && s[i].at in used && used[s[i].at] == s[i].used
    ensures next[s[i].at] == s[i + 1].at && s[i].at + S <= s[i + 1].at <= s[|s| - 1].at && s[0].at <= s[i].at
    ensures s[i + 1].at in used && s[i + 1].at in prev && s[i + 1].at in next && used[s[i + 1].at] == s[i + 1].used
    ensures s[i + 1].at == s[|s| - 1].at <==> i + 2 == |s|
    ensures prev[s[i].at] == s[if i == 0 then 0 else i - 1].at
    ensures i > 0 ==> s[i - 1].at in used && used[s[i - 1].at] == s[i - 1].used && s[i - 1].at in next && s[i - 1].at != s[i].at
    ensures s[|s| - 1].used && Tiled(s, S)
  {
    if i > 0 { assert prev[s[i].at] == s[i - 1].at; }
  }

  lemma JoinNext(next: map<int, int>, s: Heap, i: nat)
    requires Tiled(s, S) && NextOk(next, s) && i + 2 < |s|
    ensures NextOk(next[s[i].at := s[i + 2].at], Join(s, i))
  {
    hide Join;
    var t := Join(s, i);
    assert forall j :: 0 <= j < |t| - 1 && j != i ==> t[j].at != s[i].at;
  }

  lemma JoinPrev(prev: map<int, int>, s: Heap, i: nat)
    requires Tiled(s, S) && PrevOk(prev, s) && i + 2 < |s|
    ensures PrevOk(prev[s[i + 2].at := s[i].at], Join(s, i))
  {
    hide Join;
    var t, p := Join(s, i), prev[s[i + 2].at := s[i].at];
    forall j | 0 < j < |t| - 1 ensures p[t[j].at] == t[j - 1].at {
      if j > i + 1 { assert prev[s[j + 1].at] == s[(j + 1) - 1].at; }
    }
  }

  /** Block i swallows its successor; the successor's successor gets its prev rewritten. */
  lemma JoinLinked(next: map<int, int>, prev: map<int, int>, used: map<int, bool>, s: Heap, i: nat)
    requires Linked(next, prev, used, s) && i + 2 < |s|
    ensures Linked(next[s[i].at := s[i + 2].at], prev[s[i + 2].at := s[i].at], used, Join(s, i))
  {
    hide Join, Tiled, NextOk, PrevOk;
    JoinTiled(s, i, S);
    JoinNext(next, s, i);
    JoinPrev(prev, s, i);
  }

  lemma SplitNext(next: map<int, int>, s: Heap, i: nat, item: int)
    requires Tiled(s, S) && NextOk(next, s) && i + 1 < |s| && s[i].at + S <= item && item + S <= s[i + 1].at
    ensures NextOk(next[item := s[i + 1].at][s[i].at := item], Split(s, i, Block(item, false)))
  {
    hide Split;
    var t, n := Split(s, i, Block(item, false)), next[item := s[i + 1].at][s[i].at := item];
    forall j | 0 <= j < |t| - 1 ensures n[t[j].at] == t[j + 1].at {
      if j > i + 1 { assert next[s[j - 1].at] == s[(j - 1) + 1].at; }
    }
  }

  lemma SplitPrev(prev: map<int, int>, s: Heap, i: nat, item: int)
    requires Tiled(s, S) && PrevOk(prev, s) && i + 1 < |s| && s[i].at + S <= item && item + S <= s[i + 1].at
    ensures var p := prev[item := s[i].at];
            PrevOk(if i + 2 == |s| then p else p[s[i + 1].at := item], Split(s, i, Block(item, false)))
  {
    hide Split;
    var p := prev[item := s[i].at];
    var t, n := Split(s, i, Block(item, false)), if i + 2 == |s| then p else p[s[i + 1].at := item];
    forall j | 0 < j < |t| - 1 ensures n[t[j].at] == t[j - 1].at {
      if j > i + 2 { assert prev[s[j - 1].at] == s[(j - 1) - 1].at; }
    }
  }

  /** A new free block after block i; prev of the next block is rewritten unless that is the end. */
  lemma SplitLinked(next: map<int, int>, prev: map<int, int>, used: map<int, bool>, s: Heap, i: nat, item: int)
    requires Linked(next, prev, used, s) && i + 1 < |s| && s[i].at + S <= item && item + S <= s[i + 1].at
    ensures var p := prev[item := s[i].at];
            Linked(next[item := s[i + 1].at][s[i].at := item], if i + 2 == |s| then p else p[s[i + 1].at := item],
                   used[item := false], Split(s, i, Block(item, false)))
  {
    hide Split, Tiled, NextOk, PrevOk, UsedOk;
    SplitTiled(s, i, Block(item, false), S);
    SplitNext(next, s, i, item);
    SplitPrev(prev, s, i, item);
    SplitUsed(used, s, i, item);
  }

  lemma SplitUsed(used: map<int, bool>, s: Heap, i: nat, item: int)
    requires Tiled(s, S) && UsedOk(used, s) && i + 1 < |s| && s[i].at + S <= item && item + S <= s[i + 1].at
    ensures UsedOk(used[item := false], Split(s, i, Block(item, false)))
  {
    hide Split;
  }

  lemma MarkLinked(next: map<int, int>, prev: map<int, int>, used: map<int, bool>, s: Heap, i: nat, u: bool)
    requires Linked(next, prev, used, s) && i + 1 < |s|
    ensures Linked(next, prev, used[s[i].at := u], Mark(s, i, u))
  {
    hide Mark;
    MarkTiled(s, i, u, S);
  }

  // ---- where the header fields are written ----

  function HeadersOf(next: map<int, int>, prev: map<int, int>, used: map<int, bool>): Headers {
    Headers(Links(next, prev), Links(map[], map[]), used)
  }

  /** Joining writes next of the block and prev of the one behind the swallowed block. */
  lemma JoinWrites(next: map<int, int>, prev: map<int, int>, used: map<int, bool>, s: Heap, i: nat)
    requires Linked(next, prev, used, s) && i + 2 < |s|
    ensures s[i + 1].at in next && next[s[i + 1].at] == s[i + 2].at && Heads(Join(s, i)) <= Heads(s)
    ensures Wrote(HeadersOf(next, prev, used), HeadersOf(next[s[i].at := s[i + 2].at], prev[s[i + 2].at := s[i].at], used), Heads(s))
  {
    hide Linked, Heads, Join;
    BlockFields(next, prev, used, s, i + 1);
    HeadsChange(s, i, false, s[i]);
    HeadsAt(s);
  }

  lemma MarkWrites(next: map<int, int>, prev: map<int, int>, used: map<int, bool>, s: Heap, i: nat)
    requires i < |s|
    ensures Wrote(HeadersOf(next, prev, used), HeadersOf(next, prev, used[s[i].at := false]), Heads(s))
    ensures Heads(Mark(s, i, false)) == Heads(s)
  {
    hide Heads, Mark;
    HeadsChange(s, i, false, s[i]);
    HeadsAt(s);
  }

  /** An allocation writes in the block found, in the new one and in the one behind. */
  lemma TakeWrites(next: map<int, int>, prev: map<int, int>, used: map<int, bool>, s: Heap, i: nat, size: nat)
    requires Linked(next, prev, used, s) && i + 1 < |s|
    ensures var mem, mem2, t := s[i].at, s[i].at + S + size, Alloc(s, i, size, S, MIN_ALIGNED);
            var f, w, n := HeadersOf(next, prev, used), Heads(s) + Heads(t), s[i + 1].at;
            && Wrote(f, HeadersOf(next, prev, used[mem := true]), w)
            && (Size(s, i, S) >= size + S + MIN_ALIGNED ==>
                  && Wrote(f, HeadersOf(next[mem2 := n][mem := mem2], prev[mem2 := mem], used[mem2 := false][mem := true]), w)
                  && Wrote(f, HeadersOf(next[mem2 := n][mem := mem2], prev[mem2 := mem][n := mem2], used[mem2 := false][mem := true]), w))
  {
    hide Linked, Heads, Mark, Split;
    var mem2 := s[i].at + S + size;
    HeadsAt(s);
    HeadsChange(s, i, true, Block(mem2, false));
    HeadsChange(Split(s, i, Block(mem2, false)), i, true, s[i]);
  }

  lemma CutWrites(next: map<int, int>, prev: map<int, int>, used: map<int, bool>, s: Heap, i: nat, size: nat)
    requires i + 1 < |s|
    ensures var mem, mem2, n := s[i].at, s[i].at + S + size, s[i + 1].at;
            var f, w := HeadersOf(next, prev, used), Heads(s) + {mem2};
            && Wrote(f, HeadersOf(next[mem2 := n][mem := mem2], prev[mem2 := mem], used[mem2 := false]), w)
            && Wrote(f, HeadersOf(next[mem2 := n][mem := mem2], prev[mem2 := mem][n := mem2], used[mem2 := false]), w)
  {
    hide Heads;
    HeadsAt(s);
  }

  /** The cut-off block is a header of the final layout. */
  lemma CutHeads(s: Heap, i: nat, size: nat)
    requires i + 1 < |s|
    ensures var b, t := Block(s[i].at + S + size, false), Shrink(s, i, size, S);
            Heads(Split(s, i, b)) == Heads(s) + {b.at} && b.at in Heads(t)
  {
    hide Heads, Split, Join;
    var b, t := Block(s[i].at + S + size, false), Shrink(s, i, size, S);
    HeadsChange(s, i, false, b);
    HeadsAt(t);
    assert t[i + 1].at == b.at;
  }

  // ---- the search cache ----

  /** lfree points to a free block or to the end. */
  ghost predicate CacheOk(s: Heap, lfree: int)
    requires s != []
  {
    FreeAt(s, lfree) || lfree == s[|s| - 1].at
  }

  /** No free block lies below lfree. */
  ghost predicate Lowest(s: Heap, lfree: int) {
    forall a :: FreeAt(s, a) ==> lfree <= a
  }

  /** A valid cache that is lowest is determined by the layout. */
  lemma LowestUnique(s: Heap, a: int, b: int)
    requires Tiled(s, S) && CacheOk(s, a) && CacheOk(s, b) && Lowest(s, a) && Lowest(s, b)
    ensures a == b
  {
    FreeBelowEnd(s, a);
    FreeBelowEnd(s, b);
  }

  lemma FreeBelowEnd(s: Heap, a: int)
    requires Tiled(s, S)
    ensures FreeAt(s, a) ==> s[0].at <= a < s[|s| - 1].at
  {
  }

  function Redirect(lfree: int, from: int, to: int): int {
    if lfree == from then to else lfree
  }

  lemma JoinCache(s: Heap, i: nat, lfree: int)
    requires Tiled(s, S) && i + 2 < |s| && !s[i].used && !s[i + 1].used && CacheOk(s, lfree)
    ensures CacheOk(Join(s, i), Redirect(lfree, s[i + 1].at, s[i].at))
    ensures Lowest(s, lfree) ==> Lowest(Join(s, i), Redirect(lfree, s[i + 1].at, s[i].at))
  {
    hide Join, FreeAt;
    FreeAtIndex(s, i, S);
    forall a ensures FreeAt(Join(s, i), a) <==> FreeAt(s, a) && a != s[i + 1].at { JoinFreeAt(s, i, S, a); }
  }

  lemma AllocFreeAt(s: Heap, i: nat, size: nat, a: int)
    requires Tiled(s, S) && i + 1 < |s| && !s[i].used && size <= Size(s, i, S)
    ensures var t := Alloc(s, i, size, S, MIN_ALIGNED);
            FreeAt(t, a) <==> (FreeAt(s, a) && a != s[i].at)
                              || (a == s[i].at + S + size && Size(s, i, S) >= size + S + MIN_ALIGNED)
  {
    hide Split, Mark, FreeAt;
    MarkFreeAt(s, i, true, S, a);
    if Size(s, i, S) >= size + S + MIN_ALIGNED {
      var b := Block(s[i].at + S + size, false);
      SplitFreeAt(s, i, b, a);
      SplitTiled(s, i, b, S);
      MarkFreeAt(Split(s, i, b), i, true, S, a);
    }
  }

  /** Taking a block the cache does not point to keeps the cache. */
  lemma AllocCache(s: Heap, i: nat, size: nat, lfree: int)
    requires Tiled(s, S) && i + 1 < |s| && !s[i].used && size <= Size(s, i, S) && CacheOk(s, lfree)
    requires var t := Alloc(s, i, size, S, MIN_ALIGNED); t != [] && t[|t| - 1] == s[|s| - 1]
    ensures lfree != s[i].at ==> CacheOk(Alloc(s, i, size, S, MIN_ALIGNED), lfree)
    ensures Lowest(s, lfree) ==> Lowest(Alloc(s, i, size, S, MIN_ALIGNED), lfree)
  {
    hide Alloc, FreeAt, Tiled;
    AllocFreeAt(s, i, size, lfree);
    FreeAtIndex(s, i, S);
    forall a | FreeAt(Alloc(s, i, size, S, MIN_ALIGNED), a) && Lowest(s, lfree) ensures lfree <= a {
      AllocFreeAt(s, i, size, a);
    }
  }

  lemma AllocCases(s: Heap, i: nat, size: nat)
    requires i + 1 < |s|
    ensures Alloc(s, i, size, S, MIN_ALIGNED) ==
            Mark(if Size(s, i, S) >= size + S + MIN_ALIGNED then Split(s, i, Block(s[i].at + S + size, false)) else s, i, true)
  {
  }

  // ---- used_mem ----

  lemma AllocUsed(s: Heap, i: nat, size: nat)
    requires i + 1 < |s| && !s[i].used
    ensures Bytes(Alloc(s, i, size, S, MIN_ALIGNED), true, 0) == Bytes(s, true, 0)
            + if Size(s, i, S) >= size + S + MIN_ALIGNED then size + S else s[i + 1].at - s[i].at
  {
    hide Bytes;
    if Size(s, i, S) >= size + S + MIN_ALIGNED {
      var b := Block(s[i].at + S + size, false);
      SplitBytes(s, i, b, true, 0);
      MarkBytes(Split(s, i, b), i, true, true, 0);
    } else {
      MarkBytes(s, i, true, true, 0);
    }
  }

  lemma PlugUsed(s: Heap, i: nat)
    requires i + 1 < |s| && !s[i].used && s[|s| - 1].used
    ensures Bytes(Plug(s, i), true, 0) == Bytes(s, true, 0)
  {
    hide Bytes, Join;
    JoinFreeUsed(s, i);
    var t := JoinFree(s, i);
    assert i > 0 ==> t[i - 1] == s[i - 1] && t[i] == s[i] && i + 1 < |t|;
    if i > 0 && !t[i - 1].used { JoinFreeUsed(t, i - 1); }
  }

  lemma JoinFreeUsed(s: Heap, i: nat)
    requires i + 1 < |s| && !s[i].used && s[|s| - 1].used
    ensures Bytes(JoinFree(s, i), true, 0) == Bytes(s, true, 0)
  {
    hide Bytes, Join;
    if !s[i + 1].used { JoinBytes(s, i, true, 0); }
  }

  // ---- alignment of every header ----

  lemma AllocAligned(s: Heap, i: nat, size: nat)
    requires Aligned(s) && i + 1 < |s| && size % 8 == 0
    ensures Aligned(Alloc(s, i, size, S, MIN_ALIGNED)) && Aligned(Split(s, i, Block(s[i].at + S + size, false)))
  {
    hide Split;
    var b := Block(s[i].at + S + size, false);
    assert b.at % 8 == 0;
    SplitAligned(s, i, b);
  }

  lemma SplitAligned(s: Heap, i: nat, b: Block)
    requires Aligned(s) && i < |s| && b.at % 8 == 0
    ensures Aligned(Split(s, i, b))
  {
    hide Split;
    var t := Split(s, i, b);
    forall j | 0 <= j < |t| ensures t[j].at % 8 == 0 {
      if j > i + 1 { assert t[j] == s[j - 1]; }
    }
  }

  lemma PlugAligned(s: Heap, i: nat)
    requires Aligned(s) && i < |s|
    ensures Aligned(Plug(s, i))
  {
    hide Join;
    forall t: Heap, j: nat | Aligned(t) && j + 1 < |t| ensures Aligned(Join(t, j)) {
      JoinAligned(t, j);
    }
  }

  lemma JoinAligned(t: Heap, j: nat)
    requires Aligned(t) && j + 1 < |t|
    ensures Aligned(Join(t, j))
  {
    hide Join;
    forall k | 0 <= k < |Join(t, j)| ensures Join(t, j)[k].at % 8 == 0 {
      assert Join(t, j)[k] == t[if k <= j then k else k + 1];
    }
  }

  class SmallHeap {
    const memSize: nat        // mem_size_aligned
    var next: map<int, int>
    var prev: map<int, int>
    var used: map<int, bool>
    var lfree: int
    var usedMem: int
    var maxMem: int
    var bytes: Memory         // by offset, headers included
    var written: Headers      // the header fields as they have gone into bytes
    ghost var blocks: Heap

    /** heap_end as an offset. */
    function End(): int { memSize + S }

    function Fields(): Headers
      reads this`next, this`prev, this`used
    {
      HeadersOf(next, prev, used)
    }

    /** The invariant of every run. A search needs room for one minimal block to terminate. */
    ghost predicate Valid()
      reads this
    {
      Sound() && written == Fields()
    }

    /** The links, the cache and the accounts are right. */
    ghost predicate Sound()
      reads this
    {
      && MIN_ALIGNED <= memSize && memSize + 2 * S < M32 && memSize % 8 == 0
      && Linked(next, prev, used, blocks) && Coalesced(blocks) && Aligned(blocks)
      && Spans(blocks, End()) && CacheOk(blocks, lfree)
      && usedMem == Bytes(blocks, true, 0) && usedMem <= maxMem
    }

    /** lfree is the lowest free block, or the end when there is none. */
    ghost predicate LfreeLowest()
      reads this
    {
      Lowest(blocks, lfree)
    }

    /** rt_system_heap_init for a region from begin to end that it accepts. The invariant holds if there is
        room for one minimal block; in a smaller heap a search would not end. */
    constructor (begin: nat, end: nat)
      requires end < M32 && var b, e := (begin + 7) / 8 * 8, end / 8 * 8; 2 * S < e && b + 2 * S <= e
      ensures LfreeLowest() && (Valid() <==> MIN_ALIGNED <= memSize)
      ensures memSize == end / 8 * 8 - (begin + 7) / 8 * 8 - 2 * S
      ensures blocks == [Block(0, false), Block(End(), true)] && usedMem == 0
    {
      memSize := end / 8 * 8 - (begin + 7) / 8 * 8 - 2 * S;
      var last := end / 8 * 8 - (begin + 7) / 8 * 8 - S;
      next := map[0 := last, last := last];
      prev := map[0 := 0, last := last];
      used := map[0 := false, last := true];
      lfree, usedMem, maxMem, bytes := 0, 0, 0, map[];
      blocks := [Block(0, false), Block(last, true)];
      new;
      written := Fields();
      assert blocks[0] == Block(0, false);
      assert blocks[1..] == [blocks[1]];
      if MIN_ALIGNED <= memSize {
        assert Linked(next, prev, used, blocks) && Coalesced(blocks) && Aligned(blocks) && CacheOk(blocks, lfree);
        assert Spans(blocks, End());
        assert usedMem == Bytes(blocks, true, 0);
        assert memSize % 8 == 0;
        assert memSize + 2 * S < M32;
      }
    }

    /** Brings bytes up to date with the fields: the bytes of every header that has changed are lost. That
        costs no live data, because only headers of the old and the new layout were written. */
    method HeadersWritten(ghost s: Heap)
      requires Tiled(s, S) && Tiled(blocks, S) && Wrote(written, Fields(), Heads(s) + Heads(blocks))
      modifies this`bytes, this`written
      ensures written == Fields() && bytes == Clobber(old(bytes), old(written), Fields(), S, NOWHERE)
      ensures Preserved(s, blocks, old(bytes), bytes, S)
    {
      WroteWider(written, Fields(), Heads(s) + Heads(blocks), Heads(s) + Heads(blocks) + {NOWHERE});
      ClobberKeeps(s, blocks, bytes, written, Fields(), S, NOWHERE);
      bytes := Clobber(bytes, written, Fields(), S, NOWHERE);
      written := Fields();
    }

    // ---- rt_malloc ----

    /** The search of rt_malloc finds a block. */
    ghost predicate Findable(request: nat)
      reads this
    {
      0 < request && Align(request) <= memSize && exists j :: 0 <= j < |blocks| - 1 && Candidate(blocks, j, lfree, Want(request), memSize)
    }

    /** The lowest fitting block from lfree on, among those that start below
        mem_size_aligned - size. It fails, and then changes nothing, exactly when there is none. */
    method Malloc(request: nat) returns (r: Option<int>, ghost i: nat)
      requires Valid() && request < M32
      modifies this
      ensures Valid() && (old(LfreeLowest()) ==> LfreeLowest()) && Preserved(old(blocks), blocks, old(bytes), bytes, S)
      ensures r.None? ==> blocks == old(blocks) && lfree == old(lfree) && usedMem == old(usedMem) && bytes == old(bytes)
      ensures r.Some? <==> old(Findable(request))
      ensures r.Some? ==>
              && i + 1 < |old(blocks)| && Candidate(old(blocks), i, old(lfree), Want(request), memSize)
              && (forall j :: 0 <= j < i ==> !Candidate(old(blocks), j, old(lfree), Want(request), memSize))
              && blocks == Alloc(old(blocks), i, Want(request), S, MIN_ALIGNED)
              && r.value == old(blocks)[i].at + S && r.value % 8 == 0
              && i + 1 < |blocks| && Want(request) <= Layout.Size(blocks, i, S)
              && Added(old(blocks), blocks, r.value, Layout.Size(blocks, i, S), S)
    {
      hide Linked, Coalesced, Aligned, CacheOk, Bytes, Alloc, Tiled, Live, Lowest, Preserved, Added, Wrote, Heads, Spans;
      r, i := None, 0;
      SamePreserved(blocks, bytes, S);
      if request == 0 || Align(request) > memSize { return; }
      var size := Want(request);
      ghost var s := blocks;
      LinkedTiled(next, prev, used, s);
      i := CacheIndex(s, lfree);
      BelowCache(s, i, lfree, size, memSize);
      var ptr := lfree;
      while ptr < memSize - size
        invariant i < |s| && ptr == s[i].at && blocks == s && lfree == old(lfree) && usedMem == old(usedMem) && bytes == old(bytes) && Valid()
        invariant forall j :: 0 <= j < i && j < |s| - 1 ==> !Candidate(s, j, lfree, size, memSize)
        invariant old(LfreeLowest()) ==> LfreeLowest()
        invariant lfree <= ptr
        decreases |s| - i
      {
        NotEnd(s, i, memSize);
        BlockFields(next, prev, used, s, i);
        if !used[ptr] && next[ptr] - (ptr + S) >= size {
          assert Candidate(s, i, lfree, size, memSize);
          Serve(ptr, size, i);
          return Some(ptr + S), i;
        }
        ptr := next[ptr];
        i := i + 1;
      }
      PastLimit(s, i, size, memSize, lfree);
    }

    /** The block found becomes the area handed out. */
    method Serve(mem: int, size: nat, ghost i: nat)
      requires Valid() && i + 1 < |blocks| && blocks[i] == Block(mem, false) && size <= Layout.Size(blocks, i, S) && size % 8 == 0
      modifies this
      ensures Valid() && blocks == Alloc(old(blocks), i, size, S, MIN_ALIGNED) && (old(LfreeLowest()) ==> LfreeLowest())
      ensures Preserved(old(blocks), blocks, old(bytes), bytes, S) && (mem + S) % 8 == 0
      ensures i + 1 < |blocks| && size <= Layout.Size(blocks, i, S) && Added(old(blocks), blocks, mem + S, Layout.Size(blocks, i, S), S)
    {
      hide Linked, Coalesced, Aligned, CacheOk, Bytes, Alloc, Tiled, Live, Lowest, Preserved, Added, Wrote, Heads, Spans;
      ghost var s := blocks;
      LinkedTiled(next, prev, used, s);
      AllocKeeps(s, i, size, S, MIN_ALIGNED);
      AllocAdds(s, i, size, MIN_ALIGNED, S);
      DataAligned(s, i);
      Take(mem, size, i);
      HeadersWritten(s);
    }

    /** Marking the block found, splitting it when the rest can hold a block, and moving lfree on. */
    method Take(mem: int, size: nat, ghost i: nat)
      requires Valid() && i + 1 < |blocks| && blocks[i] == Block(mem, false) && size <= Layout.Size(blocks, i, S)
      requires size % 8 == 0
      modifies this`next, this`prev, this`used, this`lfree, this`usedMem, this`maxMem, this`blocks
      ensures Sound() && blocks == Alloc(old(blocks), i, size, S, MIN_ALIGNED)
      ensures old(LfreeLowest()) ==> LfreeLowest()
      ensures Wrote(old(Fields()), Fields(), Heads(old(blocks)) + Heads(blocks))
    {
      hide Coalesced, Aligned, CacheOk, Bytes, Tiled, NextOk, PrevOk, UsedOk, Lowest, Linked, Spans, Mark, Split, Alloc, Wrote, Heads;
      ghost var s := blocks;
      LinkedTiled(next, prev, used, s);
      AllocKeeps(s, i, size, S, MIN_ALIGNED);
      TiledOrder(Alloc(s, i, size, S, MIN_ALIGNED), S);
      AllocUsed(s, i, size);
      AllocAligned(s, i, size);
      AllocCache(s, i, size, lfree);
      SameSpan(s, Alloc(s, i, size, S, MIN_ALIGNED), End());
      BlockFields(next, prev, used, s, i);
      EndOf(s, End());
      AllocCases(s, i, size);
      TakeWrites(next, prev, used, s, i, size);
      if next[mem] - (mem + S) >= size + S + MIN_ALIGNED {
        var mem2 := mem + S + size;
        SplitLinked(next, prev, used, s, i, mem2);
        used := used[mem2 := false];
        next := next[mem2 := next[mem]];
        prev := prev[mem2 := mem];
        next := next[mem := mem2];
        if next[mem2] != memSize + S {
          prev := prev[next[mem2] := mem2];
        }
        blocks := Split(s, i, Block(mem2, false));
        usedMem := usedMem + (size + S);
      } else {
        usedMem := usedMem + (next[mem] - mem);
      }
      MarkLinked(next, prev, used, blocks, i, true);
      used := used[mem := true];
      blocks := Mark(blocks, i, true);
      if maxMem < usedMem { maxMem := usedMem; }
      if mem == lfree { Advance(i); }
    }

    /** The loop that moves lfree to the next free block after the one just taken. */
    method Advance(ghost i: nat)
      requires Linked(next, prev, used, blocks) && Spans(blocks, End()) && i + 1 < |blocks| && blocks[i].at == lfree
      modifies this`lfree
      ensures CacheOk(blocks, lfree)
      ensures old(LfreeLowest()) ==> LfreeLowest()
    {
      hide Tiled, Linked, NextOk, PrevOk, UsedOk, Spans, Lowest, FreeAt, CacheOk;
      ghost var j := i;
      At(j);
      while used[lfree] && lfree != End()
        invariant j < |blocks| && blocks[j].at == lfree && lfree in used && used[lfree] == blocks[j].used
        invariant lfree == End() <==> j == |blocks| - 1
        invariant old(LfreeLowest()) ==> Lowest(blocks, lfree)
        decreases |blocks| - j
      {
        PastUsed(j);
        lfree := next[lfree];
        j := j + 1;
      }
      CacheAt(blocks, j, lfree);
    }

    /** Block j through its fields. */
    lemma At(j: nat)
      requires Linked(next, prev, used, blocks) && Spans(blocks, End()) && j < |blocks|
      ensures blocks[j].at in used && used[blocks[j].at] == blocks[j].used && (blocks[j].at == End() <==> j == |blocks| - 1)
    {
      hide NextOk, PrevOk;
      EndOf(blocks, End());
    }

    /** From a used block the search goes on to the next one. */
    lemma PastUsed(j: nat)
      requires Linked(next, prev, used, blocks) && Spans(blocks, End()) && j + 1 < |blocks| && blocks[j].used
      ensures blocks[j].at in next && next[blocks[j].at] == blocks[j + 1].at
      ensures Lowest(blocks, blocks[j].at) ==> Lowest(blocks, blocks[j + 1].at)
      ensures blocks[j + 1].at in used && used[blocks[j + 1].at] == blocks[j + 1].used && (blocks[j + 1].at == End() <==> j + 1 == |blocks| - 1)
    {
      hide Tiled, Linked, Spans, Lowest;
      LinkedTiled(next, prev, used, blocks);
      BlockFields(next, prev, used, blocks, j);
      LowestOn(blocks, j);
      At(j + 1);
    }

    // ---- plug_holes and rt_free ----

    /** Combines the free block mem with a free successor and a free predecessor. */
    method PlugHoles(mem: int, ghost i: nat)
      requires Linked(next, prev, used, blocks) && Spans(blocks, End()) && CacheOk(blocks, lfree)
      requires i + 1 < |blocks| && blocks[i] == Block(mem, false)
      modifies this`next, this`prev, this`lfree, this`blocks
      ensures blocks == Plug(old(blocks), i) && Linked(next, prev, used, blocks) && CacheOk(blocks, lfree)
      ensures old(LfreeLowest()) ==> LfreeLowest()
      ensures i > 0 && old(blocks)[i - 1].used ==> lfree == CutCache(old(blocks), i, old(lfree))
      ensures Wrote(old(Fields()), Fields(), Heads(old(blocks))) && Heads(blocks) <= Heads(old(blocks))
    {
      hide Linked, Spans, CacheOk, Lowest, Join, Wrote, Heads, CutCache;
      ghost var s, f := blocks, Fields();
      PlugRight(mem, i);
      ghost var t, f1 := blocks, Fields();
      PlugLeft(mem, i);
      WroteMore(f, f1, Fields(), Heads(s), Heads(t), Heads(s));
    }

    method PlugRight(mem: int, ghost i: nat)
      requires Linked(next, prev, used, blocks) && Spans(blocks, End()) && CacheOk(blocks, lfree)
      requires i + 1 < |blocks| && blocks[i] == Block(mem, false)
      modifies this`next, this`prev, this`lfree, this`blocks
      ensures blocks == JoinFree(old(blocks), i) && Linked(next, prev, used, blocks) && CacheOk(blocks, lfree)
      ensures i + 1 < |blocks| && blocks[i] == Block(mem, false) && (i > 0 ==> blocks[i - 1] == old(blocks)[i - 1])
      ensures old(LfreeLowest()) ==> LfreeLowest()
      ensures lfree == CutCache(old(blocks), i, old(lfree))
      ensures Wrote(old(Fields()), Fields(), Heads(old(blocks))) && Heads(blocks) <= Heads(old(blocks))
    {
      hide Linked, Spans, CacheOk, Lowest, Join, Tiled, Wrote, Heads;
      ghost var s := blocks;
      WroteNone(Fields(), Heads(s));
      BlockFields(next, prev, used, s, i);
      EndOf(s, End());
      var nmem := next[mem];
      if mem != nmem && !used[nmem] && nmem != End() {
        BlockFields(next, prev, used, s, i + 1);
        JoinCache(s, i, lfree);
        JoinLinked(next, prev, used, s, i);
        JoinWrites(next, prev, used, s, i);
        if lfree == nmem { lfree := mem; }
        next := next[mem := next[nmem]];
        prev := prev[next[nmem] := mem];
        blocks := Join(s, i);
      }
    }

    method PlugLeft(mem: int, ghost i: nat)
      requires Linked(next, prev, used, blocks) && CacheOk(blocks, lfree)
      requires i + 1 < |blocks| && blocks[i] == Block(mem, false)
      modifies this`next, this`prev, this`lfree, this`blocks
      ensures blocks == (if i > 0 && !old(blocks)[i - 1].used then Join(old(blocks), i - 1) else old(blocks))
      ensures Linked(next, prev, used, blocks) && CacheOk(blocks, lfree)
      ensures old(LfreeLowest()) ==> LfreeLowest()
      ensures i > 0 && old(blocks)[i - 1].used ==> lfree == old(lfree)
      ensures Wrote(old(Fields()), Fields(), Heads(old(blocks))) && Heads(blocks) <= Heads(old(blocks))
    {
      hide Linked, CacheOk, Lowest, Join, Tiled, Wrote, Heads;
      ghost var t := blocks;
      WroteNone(Fields(), Heads(t));
      BlockFields(next, prev, used, t, i);
      var pmem := prev[mem];
      if pmem != mem && !used[pmem] {
        JoinCache(t, i - 1, lfree);
        JoinLinked(next, prev, used, t, i - 1);
        JoinWrites(next, prev, used, t, i - 1);
        if lfree == mem { lfree := pmem; }
        next := next[pmem := next[mem]];
        prev := prev[next[mem] := pmem];
        blocks := Join(t, i - 1);
      }
    }

    /** rt_free. Addresses outside the heap are ignored; others must be live. */
    method Free(rmem: Option<int>, ghost n: int) returns (ghost i: nat)
      requires Valid() && (rmem.Some? && 0 <= rmem.value < End() ==> Live(blocks, S, rmem.value, n))
      modifies this
      ensures Valid() && (old(LfreeLowest()) ==> LfreeLowest()) && Preserved(old(blocks), blocks, old(bytes), bytes, S)
      ensures rmem.None? || !(0 <= rmem.value < End()) ==> blocks == old(blocks) && lfree == old(lfree) && usedMem == old(usedMem)
      ensures rmem.Some? && 0 <= rmem.value < End() ==>
              && i + 1 < |old(blocks)| && old(blocks)[i] == Block(rmem.value - S, true)
              && blocks == Layout.Free(old(blocks), i) && Removed(old(blocks), blocks, rmem.value, S)
    {
      hide Linked, Coalesced, Aligned, CacheOk, Bytes, Tiled, Live, Lowest, Spans, Mark, Plug, Removed, Preserved, Wrote, Heads;
      i := 0;
      SamePreserved(blocks, bytes, S);
      if rmem.None? || rmem.value < 0 || rmem.value >= End() { return; }
      var mem := rmem.value - S;
      ghost var s := blocks;
      LinkedTiled(next, prev, used, s);
      i := LiveIndex(s, rmem.value, n, S);
      BlockFields(next, prev, used, s, i);
      FreeKeeps(s, i, S);
      FreeRemoves(s, i, S);
      TiledOrder(Layout.Free(s, i), S);
      SameSpan(s, Layout.Free(s, i), End());
      SameSpan(s, Mark(s, i, false), End());
      MarkLinked(next, prev, used, s, i, false);
      MarkCache(s, i, lfree);
      MarkBytes(s, i, false, true, 0);
      PlugUsed(Mark(s, i, false), i);
      MarkAligned(s, i);
      PlugAligned(Mark(s, i, false), i);
      MarkWrites(next, prev, used, s, i);
      ghost var f := Fields();
      used := used[mem := false];
      if mem < lfree { lfree := mem; }
      blocks := Mark(s, i, false);
      usedMem := usedMem - (next[mem] - mem);
      ghost var f1 := Fields();
      PlugHoles(mem, i);
      WroteMore(f, f1, Fields(), Heads(s), Heads(s), Heads(s) + Heads(blocks));
      HeadersWritten(s);
    }

    /** rt_malloc followed at once by rt_free restores the layout, the cache and the accounting,
        on every heap reached by these two operations. */
    method MallocFree(request: nat) returns (r: Option<int>)
      requires Valid() && LfreeLowest() && request < M32
      modifies this
      ensures Valid() && LfreeLowest()
      ensures blocks == old(blocks) && lfree == old(lfree) && usedMem == old(usedMem)
    {
      hide Linked, Coalesced, Aligned, CacheOk, Bytes, Tiled, Live, Lowest, Spans, Alloc, Layout.Free;
      ghost var s, was, i := blocks, lfree, 0;
      LinkedTiled(next, prev, used, s);
      r, i := Malloc(request);
      if r.Some? {
        ghost var n := Layout.Size(blocks, i, S);
        LinkedTiled(next, prev, used, blocks);
        LiveRange(blocks, r.value, n, End());
        ghost var k := Free(r, n);
        SameIndex(Alloc(s, i, Want(request), S, MIN_ALIGNED), s, i, k, Want(request));
        FreeUndoesAlloc(s, i, Want(request), S, MIN_ALIGNED);
        LowestUnique(s, was, lfree);
      }
    }

    // ---- rt_realloc ----

    /** rt_realloc: shrinking keeps the area, other changes of size move it. A null result leaves the old
        area and all bytes; otherwise the first bytes, up to the old and the aligned new size, are in the
        returned area of k bytes, and no other live area or byte of one has changed. The area has room for
        the request exactly when aligning the request does not wrap. */
    method Realloc(rmem: Option<int>, newsize: nat, ghost n: int) returns (r: Option<int>, ghost k: int)
      requires Valid() && newsize < M32
      requires rmem.Some? && 0 <= rmem.value < End() ==> Live(blocks, S, rmem.value, n)
      modifies this
      ensures Valid()
      ensures r.None? ==> blocks == old(blocks) && usedMem == old(usedMem) && bytes == old(bytes)
      ensures r.Some? && rmem.None? ==> Align(newsize) <= k && Added(old(blocks), blocks, r.value, k, S)
      ensures rmem.None? ==> Preserved(old(blocks), blocks, old(bytes), bytes, S)
      ensures r.Some? && rmem.Some? && !(0 <= rmem.value < End()) ==> r == rmem && blocks == old(blocks) && bytes == old(bytes)
      ensures r.Some? && rmem.Some? && 0 <= rmem.value < End() ==>
              Align(newsize) <= k && Resized(old(blocks), blocks, rmem.value, Min(n, Align(newsize)), r.value, k, old(bytes), bytes, S)
      ensures r.Some? && (rmem.Some? ==> 0 <= rmem.value < End()) ==> (newsize <= k <==> newsize <= M32 - 8)
      ensures rmem.Some? && 0 <= rmem.value < End() && (Align(newsize) == n || Align(newsize) + S + MIN_SIZE < n) ==>
              r == rmem && k == Align(newsize)
      ensures rmem.None? ==> (r.Some? <==> old(Findable(Align(newsize))))
      ensures rmem.Some? && !(0 <= rmem.value < End()) ==> (r.Some? <==> Align(newsize) <= memSize)
      ensures rmem.Some? && 0 <= rmem.value < End() && !(Align(newsize) == n || Align(newsize) + S + MIN_SIZE < n) ==>
              r != rmem && (r.Some? <==> old(Findable(Align(newsize))))
    {
      hide Linked, Coalesced, Aligned, CacheOk, Bytes, Tiled, Live, Lowest, Spans, Alloc, Layout.Free, Shrink, Added, Removed, Resized,
           Preserved, Copy, Wrote, Heads;
      r, k := None, 0;
      var size := Align(newsize);
      AlignTwice(newsize);
      SamePreserved(blocks, bytes, S);
      if rmem.Some? && 0 <= rmem.value < End() { LiveFits(rmem.value, n); }
      if size > memSize { return; }
      ghost var i;
      if rmem.None? {
        r, i := Malloc(size);
        if r.Some? {
          k := Layout.Size(blocks, i, S);
          AddedLive(old(blocks), blocks, r.value, k, S);
          Room(r.value, k, newsize);
        }
        return;
      }
      if rmem.value < 0 || rmem.value >= End() { return rmem, 0; }
      ghost var s := blocks;
      LinkedTiled(next, prev, used, s);
      i := LiveIndex(s, rmem.value, n, S);
      BlockFields(next, prev, used, s, i);
      var mem := rmem.value - S;
      var own := next[mem] - mem - S;
      if own == size {
        SameResized(s, rmem.value, n, bytes, S);
        Room(rmem.value, n, newsize);
        return rmem, n;
      }
      if size + S + MIN_SIZE < own {
        Cut(mem, own, size, i);
        LinkedTiled(next, prev, used, blocks);
        HeadersWritten(s);
        ShrinkResizes(s, i, size, old(bytes), bytes, S);
        Fewer(s, blocks, rmem.value, n, size, old(bytes), bytes);
        ResizedLive(s, blocks, rmem.value, Min(n, size), rmem.value, size, old(bytes), bytes, S);
        Room(rmem.value, size, newsize);
        return rmem, size;
      }
      r, k := Move(rmem.value, own, size, n, i);
      if r.Some? {
        ResizedLive(s, blocks, rmem.value, Min(n, size), r.value, k, old(bytes), bytes, S);
        Room(r.value, k, newsize);
      }
    }

    lemma LiveFits(p: int, n: int)
      requires Valid() && Live(blocks, S, p, n)
      ensures 0 <= n <= memSize
    {
      hide Coalesced, Aligned, CacheOk, Bytes, PrevOk, UsedOk;
    }

    /** A live area covers the request it was aligned from exactly when aligning did not wrap. */
    lemma Room(p: int, k: int, newsize: nat)
      requires Valid() && Live(blocks, S, p, k) && newsize < M32 && Align(newsize) <= k
      ensures k <= memSize && (newsize <= k <==> newsize <= M32 - 8)
    {
      hide Coalesced, Aligned, CacheOk, Bytes, PrevOk, UsedOk;
      WantCovers(newsize);
    }

    /** The re-allocation by a new block and rt_memcpy. */
    method Move(p: int, own: int, size: nat, ghost n: int, ghost i: nat) returns (r: Option<int>, ghost k: int)
      requires Valid() && size < M32 && size == Align(size) && 0 <= p < End()
      requires i + 1 < |blocks| && LiveAt(blocks, S, i, p, n) && own == n && 0 <= n
      modifies this
      ensures Valid() && r != Some(p) && (r.Some? <==> old(Findable(size)))
      ensures r.None? ==> blocks == old(blocks) && usedMem == old(usedMem) && bytes == old(bytes)
      ensures r.Some? ==> size <= k && Resized(old(blocks), blocks, p, Min(n, size), r.value, k, old(bytes), bytes, S)
    {
      hide Linked, Coalesced, Aligned, CacheOk, Bytes, Tiled, Lowest, Spans, Alloc, Layout.Free, Added, Removed, Resized, Preserved, Copy;
      ghost var s := blocks;
      LinkedTiled(next, prev, used, s);
      IndexLive(s, i, S);
      k := 0;
      ghost var j;
      r, j := Malloc(size);
      if r.Some? {
        k := Layout.Size(blocks, j, S);
        ghost var t, m1 := blocks, bytes;
        LinkedTiled(next, prev, used, t);
        NotLiveAnywhere(s, j, r.value, S);
        StillLive(s, t, p, n, r.value, k, S);
        bytes := Copy(bytes, r.value, p, Min(own, size));
        ghost var f := Free(Some(p), n);
        MoveResizes(s, t, blocks, p, n, Min(n, size), r.value, k, old(bytes), m1, bytes, S);
      }
    }

    /** The split of rt_realloc. It may leave lfree above the new free block. */
    method Cut(mem: int, own: nat, size: nat, ghost i: nat)
      requires Sound() && i + 1 < |blocks| && blocks[i] == Block(mem, true)
      requires own == Layout.Size(blocks, i, S) && size + S <= own && size % 8 == 0
      modifies this`next, this`prev, this`used, this`lfree, this`usedMem, this`blocks
      ensures Sound() && blocks == Shrink(old(blocks), i, size, S)
      ensures Wrote(old(Fields()), Fields(), Heads(old(blocks)) + Heads(blocks))
      ensures old(LfreeLowest()) ==>
              (LfreeLowest() <==> old(lfree) < mem + S + size
                                  || (!old(blocks)[i + 1].used && old(lfree) == old(blocks)[i + 1].at))
    {
      hide Coalesced, Aligned, CacheOk, Bytes, Tiled, NextOk, PrevOk, UsedOk, Lowest, Linked, Spans, Mark, Split, Plug, Shrink, Preserved, Wrote, Heads;
      ghost var s := blocks;
      LinkedTiled(next, prev, used, s);
      BlockFields(next, prev, used, s, i);
      EndOf(s, End());
      var ptr2 := mem + S + size;
      ghost var b := Block(ptr2, false);
      CutLayout(s, i, size, lfree, End());
      if Lowest(s, lfree) { CutLowestIff(s, i, size, lfree); }
      SplitLinked(next, prev, used, s, i, ptr2);
      CutWrites(next, prev, used, s, i, size);
      ghost var f := Fields();
      usedMem := usedMem - (own - size);
      used := used[ptr2 := false];
      next := next[ptr2 := next[mem]];
      prev := prev[ptr2 := mem];
      next := next[mem := ptr2];
      if next[ptr2] != memSize + S {
        prev := prev[next[ptr2] := ptr2];
      }
      blocks := Split(s, i, b);
      ghost var f1 := Fields();
      PlugHoles(ptr2, i + 1);
      CutHeads(s, i, size);
      WroteMore(f, f1, Fields(), Heads(s) + {ptr2}, Heads(Split(s, i, b)), Heads(s) + Heads(blocks));
    }
  }

  /** Fewer bytes are preserved as well. */
  lemma Fewer(s: Heap, t: Heap, p: int, n: int, size: int, m: Memory, m': Memory)
    requires Resized(s, t, p, n, p, size, m, m', S)
    ensures Resized(s, t, p, Min(n, size), p, size, m, m', S)
  {
    hide Live;
  }

  /** What the cut does to everything but the links. */
  lemma CutLayout(s: Heap, i: nat, size: nat, lfree: int, end: int)
    requires Tiled(s, S) && Coalesced(s) && Aligned(s) && CacheOk(s, lfree) && Spans(s, end)
    requires i + 1 < |s| && s[i].used && size + S <= Size(s, i, S) && size % 8 == 0
    ensures var m, t := Split(s, i, Block(s[i].at + S + size, false)), Shrink(s, i, size, S);
            && t == Plug(m, i + 1) && Coalesced(t) && Aligned(t) && Spans(m, end) && Spans(t, end) && CacheOk(m, lfree)
            && Bytes(t, true, 0) == Bytes(s, true, 0) - (Size(s, i, S) - size)
  {
    hide Coalesced, Aligned, CacheOk, Bytes, Tiled, Spans, Split, Plug, Shrink;
    var b := Block(s[i].at + S + size, false);
    TiledOrder(s, S);
    EndOf(s, end);
    ShrinkKeeps(s, i, size, S);
    TiledOrder(Shrink(s, i, size, S), S);
    SameSpan(s, Shrink(s, i, size, S), end);
    SplitBytes(s, i, b, true, 0);
    SplitCache(s, i, b, lfree);
    AllocAligned(s, i, size);
    SameSpan(s, Split(s, i, b), end);
    PlugUsed(Split(s, i, b), i + 1);
    PlugAligned(Split(s, i, b), i + 1);
    ShrinkIsPlug(s, i, size);
  }

  /** Where plug_holes leaves the cache when only a forward join is possible. */
  function CutCache(s: Heap, i: nat, lfree: int): int
    requires i + 1 < |s|
  {
    if s[i + 1].used then lfree else Redirect(lfree, s[i + 1].at, s[i].at)
  }

  /** Shrinking keeps lfree lowest exactly when lfree lies below the new free block, or is the
      free neighbour the new block swallows; rt_realloc has no other correction. */
  lemma CutLowestIff(s: Heap, i: nat, size: nat, lfree: int)
    requires Tiled(s, S) && i + 1 < |s| && s[i].used && size + S <= Size(s, i, S) && CacheOk(s, lfree) && Lowest(s, lfree)
    ensures var item := s[i].at + S + size; var m := Split(s, i, Block(item, false));
            Lowest(Shrink(s, i, size, S), CutCache(m, i + 1, lfree))
            <==> lfree < item || (!s[i + 1].used && lfree == s[i + 1].at)
  {
    hide Split, Join, FreeAt, Tiled, Shrink;
    var item := s[i].at + S + size;
    var m, t := Split(s, i, Block(item, false)), Shrink(s, i, size, S);
    SplitTiled(s, i, Block(item, false), S);
    TiledOrder(s, S);
    ShrinkShape(s, i, size);
    BetweenIsNotFree(s, i, item);
    if !s[i + 1].used { FreeAtIndex(s, i + 1, S); }
    forall a ensures FreeAt(t, a) <==> a == item || (FreeAt(s, a) && (s[i + 1].used || a != s[i + 1].at)) {
      SplitFreeAt(s, i, Block(item, false), a);
      if !s[i + 1].used { JoinFreeAt(m, i + 1, S, a); }
    }
  }

  /** For instance: shrinking the first of two used blocks to 16 bytes frees offset 32, and lfree stays at 120. */
  lemma CutLeavesLowest()
    ensures var s := [Block(0, true), Block(80, true), Block(120, false), Block(200, true)];
            && Tiled(s, S) && Coalesced(s) && CacheOk(s, 120) && Lowest(s, 120)
            && !Lowest(Shrink(s, 0, 16, S), CutCache(Split(s, 0, Block(32, false)), 1, 120))
  {
    var s := [Block(0, true), Block(80, true), Block(120, false), Block(200, true)];
    assert s[2] == Block(120, false);
    CutLowestIff(s, 0, 16, 120);
  }

  lemma ShrinkShape(s: Heap, i: nat, size: nat)
    requires i + 1 < |s|
    ensures var m := Split(s, i, Block(s[i].at + S + size, false));
            Shrink(s, i, size, S) == if s[i + 1].used then m else Join(m, i + 1)
  {
    hide Split, Join;
  }

  lemma BetweenIsNotFree(s: Heap, i: nat, a: int)
    requires Tiled(s, S) && i + 1 < |s| && s[i].at < a < s[i + 1].at
    ensures !FreeAt(s, a) && s[i].at < s[i + 1].at <= s[|s| - 1].at
  {
  }

  lemma ShrinkIsPlug(s: Heap, i: nat, size: nat)
    requires i + 1 < |s| && s[i].used
    ensures Shrink(s, i, size, S) == Plug(Split(s, i, Block(s[i].at + S + size, false)), i + 1)
  {
    hide Join, Split;
    var t := Split(s, i, Block(s[i].at + S + size, false));
    assert JoinFree(t, i + 1)[i] == s[i];
  }

  lemma SplitCache(s: Heap, i: nat, b: Block, lfree: int)
    requires i + 1 < |s| && CacheOk(s, lfree)
    ensures CacheOk(Split(s, i, b), lfree)
  {
    hide Split, FreeAt;
    SplitFreeAt(s, i, b, lfree);
  }

  lemma MarkCache(s: Heap, i: nat, lfree: int)
    requires Tiled(s, S) && i + 1 < |s| && s[i].used && CacheOk(s, lfree)
    ensures var l := if s[i].at < lfree then s[i].at else lfree;
            CacheOk(Mark(s, i, false), l) && (Lowest(s, lfree) ==> Lowest(Mark(s, i, false), l))
  {
    hide Mark, FreeAt;
    forall a ensures FreeAt(Mark(s, i, false), a) <==> a == s[i].at || FreeAt(s, a) { MarkFreeAt(s, i, false, S, a); }
  }

  lemma MarkAligned(s: Heap, i: nat)
    requires Aligned(s) && i < |s|
    ensures Aligned(Mark(s, i, false))
  {
  }

  lemma LiveRange(s: Heap, p: int, n: int, end: int)
    requires Tiled(s, S) && Spans(s, end) && Live(s, S, p, n) && 0 < n
    ensures 0 <= p < end
  {
  }

  /** Header addresses are distinct, so the same address means the same position. */
  lemma SameIndex(t: Heap, s: Heap, i: nat, k: nat, size: nat)
    requires Tiled(s, S) && i + 1 < |s| && !s[i].used && size <= Size(s, i, S) && Coalesced(s)
    requires t == Alloc(s, i, size, S, MIN_ALIGNED) && k < |t| && t[k].at == s[i].at
    ensures k == i
  {
    hide Alloc;
    AllocKeeps(s, i, size, S, MIN_ALIGNED);
  }

  lemma AlignTwice(size: nat)
    requires size < M32
    ensures Align(size) < M32 && Align(Align(size)) == Align(size)
  {
  }

  ghost predicate Spans(s: Heap, end: int) {
    s != [] && s[0].at == 0 && s[|s| - 1].at == end
  }

  lemma EndOf(s: Heap, end: int)
    requires Spans(s, end)
    ensures s != [] && s[0].at == 0 && s[|s| - 1].at == end
  {
  }

  lemma SameSpan(s: Heap, t: Heap, end: int)
    requires Spans(s, end) && t != [] && t[0].at == s[0].at && t[|t| - 1] == s[|s| - 1]
    ensures Spans(t, end)
  {
  }

  lemma LinkedTiled(next: map<int, int>, prev: map<int, int>, used: map<int, bool>, s: Heap)
    requires Linked(next, prev, used, s)
    ensures Tiled(s, S)
  {
  }

  lemma CacheAt(s: Heap, j: nat, lfree: int)
    requires j < |s| && s[j].at == lfree && (!s[j].used || j == |s| - 1)
    ensures CacheOk(s, lfree)
  {
    if !s[j].used { assert s[j] == Block(lfree, false); }
  }

  /** While block j is used and nothing below it is free, nothing below its successor is free. */
  lemma LowestOn(s: Heap, j: nat)
    requires Tiled(s, S) && j + 1 < |s| && s[j].used
    ensures Lowest(s, s[j].at) ==> Lowest(s, s[j + 1].at)
  {
    forall a | FreeAt(s, a) && s[j].at <= a ensures s[j + 1].at <= a {
      var k :| 0 <= k < |s| && s[k] == Block(a, false);
    }
  }

  /** A block the search of rt_malloc accepts. */
  ghost predicate Candidate(s: Heap, j: int, lfree: int, size: nat, memSize: nat)
    requires 0 <= j < |s| - 1
  {
    lfree <= s[j].at < memSize - size && !s[j].used && size <= Size(s, j, S)
  }

  lemma CacheIndex(s: Heap, lfree: int) returns (i: nat)
    requires Tiled(s, S) && CacheOk(s, lfree)
    ensures i < |s| && s[i].at == lfree
  {
    if lfree == s[|s| - 1].at { i := |s| - 1; } else { i :| i < |s| && s[i] == Block(lfree, false); }
  }

  lemma BelowCache(s: Heap, i: nat, lfree: int, size: nat, memSize: nat)
    requires Tiled(s, S) && i < |s| && s[i].at == lfree
    ensures forall j :: 0 <= j < i && j < |s| - 1 ==> !Candidate(s, j, lfree, size, memSize)
  {
  }

  lemma NotEnd(s: Heap, i: nat, memSize: nat)
    requires Tiled(s, S) && i < |s| && s[i].at < memSize && Spans(s, memSize + S)
    ensures i + 1 < |s|
  {
  }

  lemma PastLimit(s: Heap, i: nat, size: nat, memSize: nat, lfree: int)
    requires Tiled(s, S) && i < |s| && memSize - size <= s[i].at
    requires forall j :: 0 <= j < i && j < |s| - 1 ==> !Candidate(s, j, lfree, size, memSize)
    ensures forall j :: 0 <= j < |s| - 1 ==> !Candidate(s, j, lfree, size, memSize)
  {
  }

  lemma DataAligned(s: Heap, i: nat)
    requires Aligned(s) && i < |s|
    ensures (s[i].at + S) % 8 == 0
  {
  }

}
