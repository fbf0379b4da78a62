/** memheap.c: a boundary-tag allocator. The physical block list is circular through the
    used tailer block; the free list is circular through a header kept in the control
    structure. Both are rewritten in place; the ghost layout says what they mean. */
module MemHeap {
  import opened Options
  import opened Layout
  import opened RtList
  import opened Contents

  const H: nat := 24                 // RT_MEMHEAP_SIZE, for alignments 4 and 8
  const MINIALLOC: nat := 12         // RT_MEMHEAP_MINIALLOC
  const FREE: int := -1              // &heap->free_header, outside the pool
  const NULL: int := 0
  const M32: int := 0x1_0000_0000

  // ---- sizes, 32-bit ----

  /** RT_ALIGN_DOWN: clearing the low bits of x, for a power of two align. */
  function Down(x: nat, align: nat): (r: nat)
    requires 0 < align
    ensures r <= x < r + align
  {
    x - x % align
  }

  /** The alignments RT_ALIGN_SIZE can have; all divide 2^32. */
  predicate Power(align: nat) {
    align == 1 || align == 2 || align == 4 || align == 8
  }

  /** RT_ALIGN on a 32-bit size. */
  function Align(size: nat, align: nat): nat
    requires 0 < align
  {
    Down((size + align - 1) % M32, align)
  }

  /** The data size an allocation request is raised to. */
  function Want(size: nat, align: nat): nat
    requires 0 < align
  {
    var a := Align(size, align);
    if a < MINIALLOC then MINIALLOC else a
  }

  /** The raised size covers the request exactly when aligning does not wrap around 2^32;
      the last align - 1 requests get a block of the minimal size instead. */
  lemma WantCovers(size: nat, align: nat)
    requires Power(align) && size < M32
    ensures size <= Want(size, align) <==> size <= M32 - align
  {
    if size > M32 - align {
      assert (size + align - 1) % M32 == size + align - 1 - M32;
    }
  }

  /** The raised size is the least multiple of align that covers the request, but at least 12. */
  lemma WantIs(size: nat, align: nat)
    requires Power(align) && size < M32
    ensures Align(size, align) % align == 0 && (size <= M32 - align ==> size <= Align(size, align) < size + align)
    ensures Want(size, align) >= MINIALLOC && (Want(size, align) > MINIALLOC ==> Want(size, align) == Align(size, align))
    ensures align % 4 == 0 ==> Want(size, align) % 4 == 0
  {
    DownIs((size + align - 1) % M32, align);
  }

  lemma DownIs(x: nat, align: nat)
    requires Power(align)
    ensures Down(x, align) % align == 0 && (align % 4 == 0 ==> Down(x, align) % 4 == 0)
  {
    var k := x / align;
    Euclid(x, align);
    Multiples(k);
    assert Down(x, align) == k * align;
    hide Down;
  }

  lemma Multiples(k: nat)
    ensures k * 1 % 1 == 0 && k * 2 % 2 == 0 && k * 4 % 4 == 0 && k * 8 % 8 == 0 && k * 8 % 4 == 0
  {
  }

  /** For instance a request for 2^32 - 1 bytes is raised to 12. */
  lemma WantWraps(align: nat)
    requires Power(align) && 1 < align
    ensures Want(0xFFFF_FFFF, align) == MINIALLOC
  {
  }

  /** The test whether a block can grow into its free neighbour, in unsigned arithmetic. */
  predicate GrowFits(next: nat, own: nat, size: nat) {
    (next + own) % M32 > (size + MINIALLOC) % M32
  }

  /** It decides room correctly exactly when size + 12 does not wrap. */
  lemma GrowFitsExact(next: nat, own: nat, size: nat)
    requires MINIALLOC <= own && next + own < M32 && size < M32
    ensures (GrowFits(next, own, size) <==> next + own > size + MINIALLOC) <==> size + MINIALLOC < M32
  {
  }

  /** A heap where the test goes wrong: 12 bytes with 20 free ones behind them cannot become 2^32 - 4. */
  lemma GrowFitsWrong()
    ensures var s := [Block(8, true), Block(44, false), Block(88, true)];
            && Tiled(s, H) && Coalesced(s) && Live(s, H, 32, 12) && FreeBehind(s, 32)
            && Want(0xFFFF_FFFC, 4) == 0xFFFF_FFFC && GrowFits(Size(s, 1, H), Size(s, 0, H), 0xFFFF_FFFC)
  {
    var s := [Block(8, true), Block(44, false), Block(88, true)];
    assert LiveAt(s, H, 0, 32, 12) && BeforeFree(s, 0, 32);
  }

  /** The block of the area at p has a free neighbour behind it. */
  ghost predicate FreeBehind(s: Heap, p: int) {
    exists i :: 0 <= i < |s| - 1 && BeforeFree(s, i, p)
  }

  ghost predicate BeforeFree(s: Heap, i: int, p: int)
    requires 0 <= i < |s| - 1
  {
    s[i] == Block(p - H, true) && !s[i + 1].used
  }

  /** The block of the area at p and the free one behind it have room for size bytes and a small block. */
  ghost predicate CanGrow(s: Heap, p: int, size: nat) {
    exists i :: 0 <= i < |s| - 2 && BeforeFree(s, i, p) && Size(s, i, H) + Size(s, i + 1, H) > size + MINIALLOC
  }

  lemma CanGrowAt(s: Heap, i: nat, p: int, size: nat)
    requires Tiled(s, H) && i + 1 < |s| && s[i] == Block(p - H, true)
    ensures CanGrow(s, p, size) <==> i + 2 < |s| && !s[i + 1].used && Size(s, i, H) + Size(s, i + 1, H) > size + MINIALLOC
  {
    if i + 2 < |s| && !s[i + 1].used && Size(s, i, H) + Size(s, i + 1, H) > size + MINIALLOC { assert BeforeFree(s, i, p); }
    if CanGrow(s, p, size) {
      var j :| 0 <= j < |s| - 2 && BeforeFree(s, j, p) && Size(s, j, H) + Size(s, j + 1, H) > size + MINIALLOC;
      assert s[j].at == s[i].at;
    }
  }

  // ---- the order of the free list ----

  /** The free list without block i. */
  ghost function Unlisted(free: seq<int>, s: Heap, i: nat): seq<int> {
    if i < |s| && !s[i].used then Without(free, s[i].at) else free
  }

  /** Block i is released: its right neighbour leaves the list, and it enters in front unless its left
      neighbour, which is in the list already, swallows it. */
  ghost function Listed(free: seq<int>, s: Heap, i: nat): seq<int>
    requires i < |s|
  {
    var r := Unlisted(free, s, i + 1);
    if i > 0 && !s[i - 1].used then r else [s[i].at] + r
  }

  lemma Entered(s: Heap, i: nat, t: Heap, enters: bool, free: seq<int>, free2: seq<int>)
    requires i < |s| && (enters <==> i == 0 || s[i - 1].used) && t == if enters then Mark(s, i, false) else Join(Mark(s, i, false), i - 1)
    requires var r := Unlisted(free, t, if enters then i + 1 else i); free2 == if enters then [s[i].at] + r else r
    ensures free2 == Listed(free, s, i)
  {
    hide Without;
  }

  lemma CutUnlisted(free: seq<int>, s: Heap, i: nat, b: Block)
    requires i < |s|
    ensures Unlisted(free, Split(s, i, b), i + 2) == Unlisted(free, s, i + 1)
  {
    hide Without;
  }

  // ---- alignment ----

  /** All headers, and with them all data, lie at multiples of 4. */
  ghost predicate OnWords(s: Heap) {
    forall i :: 0 <= i < |s| ==> s[i].at % 4 == 0
  }

  lemma WordsAlloc(s: Heap, i: nat, size: nat)
    requires OnWords(s) && i + 1 < |s| && size % 4 == 0
    ensures OnWords(Layout.Alloc(s, i, size, H, MINIALLOC)) && (s[i].at + H) % 4 == 0
  {
    var a := s[i].at + H + size;
    assert a % 4 == 0;
    WordsSplit(s, i, a);
    WordsMark(s, i);
    WordsMark(Split(s, i, Block(a, false)), i);
    hide OnWords;
  }

  lemma WordsMark(s: Heap, i: nat)
    requires OnWords(s) && i < |s|
    ensures OnWords(Mark(s, i, true)) && OnWords(Mark(s, i, false))
  {
  }

  lemma WordsData(s: Heap, p: int, n: int)
    requires OnWords(s) && Live(s, H, p, n)
    ensures p % 4 == 0
  {
    var i :| 0 <= i < |s| - 1 && LiveAt(s, H, i, p, n);
  }

  lemma WordsJoin(s: Heap, i: nat)
    requires OnWords(s) && i < |s|
    ensures OnWords(JoinFree(s, i)) && (i + 1 < |s| ==> OnWords(Join(s, i)))
  {
  }

  lemma WordsFree(s: Heap, i: nat)
    requires OnWords(s) && i + 1 < |s|
    ensures OnWords(Layout.Free(s, i))
  {
    var t := Mark(s, i, false);
    WordsMark(s, i);
    WordsJoin(t, i);
    hide OnWords;
    var u := JoinFree(t, i);
    if i > 0 { WordsJoin(u, i - 1); }
  }

  lemma WordsSplit(s: Heap, i: nat, a: int)
    requires OnWords(s) && i < |s| && a % 4 == 0
    ensures OnWords(Split(s, i, Block(a, false)))
  {
  }

  lemma WordsGrow(s: Heap, i: nat, size: nat)
    requires OnWords(s) && i + 2 < |s| && size % 4 == 0
    ensures OnWords(Grow(s, i, size, H))
  {
    WordsJoin(s, i);
    WordsSplit(Join(s, i), i, s[i].at + H + size);
  }

  lemma WordsShrink(s: Heap, i: nat, size: nat)
    requires OnWords(s) && i + 1 < |s| && size % 4 == 0
    ensures OnWords(Shrink(s, i, size, H))
  {
    var t := Split(s, i, Block(s[i].at + H + size, false));
    WordsSplit(s, i, s[i].at + H + size);
    hide OnWords;
    WordsJoin(t, i + 1);
  }

  // ---- layout facts in list form ----

  ghost predicate FreeExact(free: seq<int>, s: Heap) {
    forall a :: a in free <==> FreeAt(s, a)
  }

  ghost predicate Tagged(magic: map<int, bool>, s: Heap) {
    forall i :: 0 <= i < |s| ==> s[i].at in magic && magic[s[i].at] == s[i].used
  }

  function Max(s: seq<int>): int
    requires s != []
  {
    var m := s[|s| - 1];
    if |s| == 1 || m > Max(s[..|s| - 1]) then m else Max(s[..|s| - 1])
  }

  lemma AllocTagged(magic: map<int, bool>, s: Heap, i: nat, size: nat)
    requires Tiled(s, H) && Tagged(magic, s) && i + 1 < |s| && size <= Size(s, i, H)
    ensures var t := Alloc(s, i, size, H, MINIALLOC);
            Tagged(if |t| == |s| then magic[s[i].at := true] else magic[s[i].at + H + size := false][s[i].at := true], t)
  {
  }

  lemma AllocFreeExact(free: seq<int>, k: nat, s: Heap, i: nat, size: nat)
    requires Tiled(s, H) && FreeExact(free, s) && Distinct(free) && k < |free|
    requires i + 1 < |s| && s[i] == Block(free[k], false) && size <= Size(s, i, H)
    ensures var t, rest := Alloc(s, i, size, H, MINIALLOC), Dropped(free, k);
            FreeExact(if |t| == |s| then rest else [s[i].at + H + size] + rest, t)
    ensures size + H + MINIALLOC <= Size(s, i, H) ==>
            s[i].at + H + size !in Dropped(free, k) && s[i].at + H + size !in Ats(s)
  {
    hide Split, Mark, Tiled, Dropped, FreeAt, Ats;
    TiledOrder(s, H);
    var t, rest, item := Alloc(s, i, size, H, MINIALLOC), Dropped(free, k), s[i].at + H + size;
    DroppedElements(free, k);
    forall a ensures a in (if |t| == |s| then rest else [item] + rest) <==> FreeAt(t, a) {
      MarkFreeAt(s, i, true, H, a);
      if |t| != |s| {
        var b := Block(item, false);
        SplitFreeAt(s, i, b, a);
        SplitTiled(s, i, b, H);
        MarkFreeAt(Split(s, i, b), i, true, H, a);
      }
    }
    if size + H + MINIALLOC <= Size(s, i, H) { BetweenBlocks(s, i, item); }
  }

  /** No block starts strictly inside block i. */
  lemma BetweenBlocks(s: Heap, i: nat, a: int)
    requires Tiled(s, H) && i + 1 < |s| && s[i].at < a < s[i + 1].at
    ensures a !in Ats(s) && !FreeAt(s, a)
  {
  }

  lemma AllocBytes(s: Heap, i: nat, size: nat)
    requires i + 1 < |s| && !s[i].used
    ensures var t := Alloc(s, i, size, H, MINIALLOC);
            Bytes(t, false, H) == Bytes(s, false, H)
            - if Size(s, i, H) >= size + H + MINIALLOC then size + H else Size(s, i, H)
  {
    hide Bytes;
    if Size(s, i, H) >= size + H + MINIALLOC {
      var b := Block(s[i].at + H + size, false);
      SplitBytes(s, i, b, false, H);
      MarkBytes(Split(s, i, b), i, true, false, H);
    } else {
      MarkBytes(s, i, true, false, H);
    }
  }

  lemma {:induction false} MaxBounds(s: seq<int>, j: nat)
    requires j < |s|
    ensures s[j] <= Max(s) && Max(s) in s
  {
    if |s| > 1 { MaxBounds(s[..|s| - 1], if j < |s| - 1 then j else 0); }
  }

  // ---- the linked structure as a value ----

  /** Block list, tags and free list together represent the layout s with free list order free. */
  ghost predicate Wired(phys: Links, list: Links, magic: map<int, bool>, s: Heap, free: seq<int>) {
    && Tiled(s, H) && Coalesced(s) && NULL < s[0].at
    && Ring(phys, Ats(s)) && Tagged(magic, s)
    && Ring(list, [FREE] + free) && FreeExact(free, s)
  }

  /** Leaving the free list with next_free = prev_free = NULL. */
  function Detach(list: Links, header: int): Links
    requires Has(list, header)
  {
    var u := Unlink(list, header);
    Links(u.next[header := NULL], u.prev[header := NULL])
  }

  /** Entering the free list right behind its header. */
  function Enter(list: Links, header: int): Links
    requires FREE in list.next
  {
    InsertAfter(list, FREE, header)
  }

  lemma UnlinkFree(list: Links, free: seq<int>, k: nat)
    requires Ring(list, [FREE] + free) && k < |free|
    ensures Has(list, free[k]) && Ring(Unlink(list, free[k]), [FREE] + Dropped(free, k))
  {
    hide Ring;
    UnlinkRing(list, [FREE] + free, k + 1);
    DropBehind(FREE, free, k);
  }

  lemma DetachFree(list: Links, free: seq<int>, k: nat)
    requires Ring(list, [FREE] + free) && k < |free|
    ensures Has(list, free[k]) && Ring(Detach(list, free[k]), [FREE] + Dropped(free, k))
  {
    hide Ring, Dropped;
    UnlinkFree(list, free, k);
    RingTail(list, FREE, free);
    DroppedElements(free, k);
    FieldFrame(Unlink(list, free[k]), [FREE] + Dropped(free, k), free[k], NULL, NULL);
  }

  lemma EnterFree(list: Links, free: seq<int>, header: int)
    requires Ring(list, [FREE] + free) && header !in free && header != FREE
    ensures FREE in list.next && Ring(Enter(list, header), [FREE] + ([header] + free))
  {
    hide Ring;
    InsertAfterRing(list, [FREE] + free, 0, header);
    assert Inserted([FREE] + free, 0, header) == [FREE] + ([header] + free);
  }

  /** The block at position i, read through the links. */
  lemma BlockFields(phys: Links, magic: map<int, bool>, s: Heap, i: nat)
    requires Tiled(s, H) && Ring(phys, Ats(s)) && Tagged(magic, s) && i < |s|
    ensures Has(phys, s[i].at) && s[i].at in magic && magic[s[i].at] == s[i].used
    ensures i + 1 < |s| ==> phys.next[s[i].at] == s[i + 1].at
    ensures phys.prev[s[i].at] == s[if i == 0 then |s| - 1 else i - 1].at
  {
    Steps(phys, Ats(s), i);
  }

  /** An allocation that splits block i keeps everything wired. */
  lemma SplitWired(phys: Links, list: Links, magic: map<int, bool>, s: Heap, free: seq<int>, i: nat, k: nat, size: nat)
    requires Wired(phys, list, magic, s, free) && k < |free| && i + 1 < |s| && s[i] == Block(free[k], false)
    requires size + H + MINIALLOC <= Size(s, i, H)
    ensures var h := free[k]; var item := h + size + H;
            && h in phys.next && Has(list, h) && FREE in Detach(list, h).next
            && Wired(InsertAfter(phys, h, item), Enter(Detach(list, h), item), magic[item := false][h := true],
                     Alloc(s, i, size, H, MINIALLOC), [item] + Dropped(free, k))
  {
    hide Tiled, Ring, Coalesced, Tagged, FreeExact, Split, Mark, Dropped, Detach, Enter, Alloc;
    var h, item := free[k], free[k] + size + H;
    RingTail(list, FREE, free);
    AllocKeeps(s, i, size, H, MINIALLOC);
    AllocTagged(magic, s, i, size);
    AllocFreeExact(free, k, s, i, size);
    TiledStart(s, i);
    InsertBlock(phys, s, i, size);
    DetachFree(list, free, k);
    EnterFree(Detach(list, h), Dropped(free, k), item);
  }

  lemma InsertBlock(phys: Links, s: Heap, i: nat, size: nat)
    requires Tiled(s, H) && Ring(phys, Ats(s)) && i + 1 < |s| && size + H + MINIALLOC <= Size(s, i, H)
    ensures var item := s[i].at + H + size; var t := Alloc(s, i, size, H, MINIALLOC);
            |t| == |s| + 1 && s[i].at in phys.next && Ring(InsertAfter(phys, s[i].at, item), Ats(t))
  {
    hide Tiled, Ring, Alloc, Inserted;
    var item := s[i].at + H + size;
    BetweenBlocks(s, i, item);
    AllocAts(s, i, size);
    InsertAfterRing(phys, Ats(s), i, item);
  }

  lemma AllocAts(s: Heap, i: nat, size: nat)
    requires i + 1 < |s| && size + H + MINIALLOC <= Size(s, i, H)
    ensures var t := Alloc(s, i, size, H, MINIALLOC);
            |t| == |s| + 1 && Ats(t) == Inserted(Ats(s), i, s[i].at + H + size)
  {
    hide Split, Mark, Ats;
    var b := Block(s[i].at + H + size, false);
    AtsChange(s, i, true, b);
    AtsChange(Split(s, i, b), i, true, b);
  }

  /** An allocation that takes the whole of block i keeps everything wired. */
  lemma WholeWired(phys: Links, list: Links, magic: map<int, bool>, s: Heap, free: seq<int>, i: nat, k: nat, size: nat)
    requires Wired(phys, list, magic, s, free) && k < |free| && i + 1 < |s| && s[i] == Block(free[k], false)
    requires size <= Size(s, i, H) < size + H + MINIALLOC
    ensures var h := free[k];
            Has(list, h) && Wired(phys, Detach(list, h), magic[h := true], Alloc(s, i, size, H, MINIALLOC), Dropped(free, k))
  {
    hide Tiled, Ring, Coalesced, Tagged, FreeExact, Split, Mark, Dropped, Detach;
    RingTail(list, FREE, free);
    AllocKeeps(s, i, size, H, MINIALLOC);
    AllocTagged(magic, s, i, size);
    AllocFreeExact(free, k, s, i, size);
    AtsChange(s, i, true, s[i]);
    DetachFree(list, free, k);
  }

  lemma TiledStart(s: Heap, i: nat)
    requires Tiled(s, H) && i < |s|
    ensures s[0].at <= s[i].at
  {
  }

  // ---- release and resizing on the linked structure ----

  /** Block list and tags alone, while the free list is being adapted. */
  ghost predicate Chained(phys: Links, magic: map<int, bool>, s: Heap) {
    Tiled(s, H) && Ring(phys, Ats(s)) && Tagged(magic, s)
  }

  /** The free list holds the free blocks except the one at x. */
  ghost predicate FreeBut(free: seq<int>, s: Heap, x: int) {
    forall a :: a in free <==> FreeAt(s, a) && a != x
  }

  lemma MarkChained(phys: Links, magic: map<int, bool>, s: Heap, free: seq<int>, i: nat)
    requires Chained(phys, magic, s) && FreeExact(free, s) && i + 1 < |s| && s[i].used
    ensures var t := Mark(s, i, false);
            Chained(phys, magic[s[i].at := false], t) && FreeBut(free, t, s[i].at) && s[i].at !in free
    ensures Bytes(Mark(s, i, false), false, H) == Bytes(s, false, H) + Size(s, i, H)
  {
    hide Ring, Mark, Bytes, FreeAt, Ats;
    MarkTiled(s, i, false, H);
    AtsChange(s, i, false, s[i]);
    MarkBytes(s, i, false, false, H);
    FreeAtIndex(s, i, H);
    forall a ensures a in free <==> FreeAt(Mark(s, i, false), a) && a != s[i].at {
      MarkFreeAt(s, i, false, H, a);
    }
  }

  /** Block i swallows its successor. */
  lemma JoinChained(phys: Links, magic: map<int, bool>, s: Heap, i: nat)
    requires Chained(phys, magic, s) && i + 2 < |s|
    ensures Has(phys, s[i + 1].at) && Chained(Unlink(phys, s[i + 1].at), magic, Join(s, i))
  {
    hide Ring, Join, Ats;
    JoinTiled(s, i, H);
    UnlinkRing(phys, Ats(s), i + 1);
    AtsChange(s, i, false, s[i]);
    assert Dropped(Ats(s), i + 1) == Ats(Join(s, i));
  }

  /** A new free block between block i and its successor. */
  lemma SplitChained(phys: Links, magic: map<int, bool>, s: Heap, i: nat, item: int)
    requires Chained(phys, magic, s) && i + 1 < |s| && s[i].at + H <= item && item + H <= s[i + 1].at
    ensures var t := Split(s, i, Block(item, false));
            s[i].at in phys.next && Chained(InsertAfter(phys, s[i].at, item), magic[item := false], t)
  {
    hide Ring, Split, Ats;
    SplitTiled(s, i, Block(item, false), H);
    BetweenBlocks(s, i, item);
    AtsChange(s, i, false, Block(item, false));
    InsertAfterRing(phys, Ats(s), i, item);
    assert Inserted(Ats(s), i, item) == Ats(Split(s, i, Block(item, false)));
  }

  /** Whichever free block j swallows another also leaves the free list. */
  lemma JoinFreeBut(s: Heap, free: seq<int>, i: nat, x: int)
    requires Tiled(s, H) && i + 1 < |s| && FreeBut(free, s, x) && Distinct(free)
    ensures s[i + 1].at == x && NULL < s[0].at ==> FreeBut(free, Join(s, i), NULL)
    ensures forall k :: 0 <= k < |free| && free[k] == s[i + 1].at ==> FreeBut(Dropped(free, k), Join(s, i), x)
  {
    hide Join, FreeAt, Tiled, Dropped;
    forall a ensures FreeAt(Join(s, i), a) <==> FreeAt(s, a) && a != s[i + 1].at {
      JoinFreeAt(s, i, H, a);
    }
    if NULL < s[0].at { NullNotFree(s); }
    forall k | 0 <= k < |free| && free[k] == s[i + 1].at ensures FreeBut(Dropped(free, k), Join(s, i), x) {
      DroppedElements(free, k);
    }
  }

  lemma NullNotFree(s: Heap)
    requires Tiled(s, H) && NULL < s[0].at
    ensures !FreeAt(s, NULL)
  {
  }

  lemma SplitFreeBut(s: Heap, free: seq<int>, i: nat, item: int)
    requires FreeExact(free, s) && i < |s| && !FreeAt(s, item)
    ensures FreeBut(free, Split(s, i, Block(item, false)), item)
  {
    hide Split, FreeAt;
    forall a ensures a in free <==> FreeAt(Split(s, i, Block(item, false)), a) && a != item {
      SplitFreeAt(s, i, Block(item, false), a);
    }
  }

  /** A swallowed free neighbour as the pointer code sees it. */
  lemma NextFree(s: Heap, free: seq<int>, i: nat, x: int) returns (k: nat)
    requires Tiled(s, H) && i + 1 < |s| && !s[i + 1].used && FreeBut(free, s, x) && s[i + 1].at != x
    ensures k < |free| && free[k] == s[i + 1].at
    ensures i + 2 < |s|
  {
    FreeAtIndex(s, i + 1, H);
    k :| 0 <= k < |free| && free[k] == s[i + 1].at;
  }

  lemma TrackLower(peaks: seq<int>, maxUsed: int, now: int, x: int)
    requires Tracked(peaks, maxUsed, now) && x <= now
    ensures Tracked(peaks + [x], maxUsed, x)
  {
    assert (peaks + [x])[..|peaks|] == peaks;
  }

  // ---- where the pointer surgery writes ----

  lemma FreeHead(free: seq<int>, s: Heap, a: int)
    requires (forall x :: x in free ==> FreeAt(s, x)) && a in [FREE] + free
    ensures a in Heads(s) + {FREE}
  {
    if a != FREE {
      assert a in free && FreeAt(s, a);
      HeadIs(s, a);
    }
  }

  /** Unlinking block i writes in its two neighbours. */
  lemma UnlinkWrites(f: Headers, s: Heap, i: nat)
    requires Ring(f.phys, Ats(s)) && i < |s|
    ensures Has(f.phys, s[i].at) && Wrote(f, f.(phys := Unlink(f.phys, s[i].at)), Heads(s))
  {
    hide Ring, Unlink, Wrote, Touches;
    assert Ats(s)[i] == s[i].at;
    RingClosed(f.phys, Ats(s), s[i].at);
    UnlinkTouches(f.phys, s[i].at);
    WroteFields(f, Unlink(f.phys, s[i].at), f.list, {f.phys.prev[s[i].at], f.phys.next[s[i].at]}, Heads(s));
  }

  /** Inserting behind block i writes there, in the next block and in the new one. */
  lemma InsertWrites(f: Headers, s: Heap, i: nat, item: int)
    requires Ring(f.phys, Ats(s)) && i < |s|
    ensures s[i].at in f.phys.next && Wrote(f, f.(phys := InsertAfter(f.phys, s[i].at, item)), Heads(s) + {item})
  {
    hide Ring, InsertAfter, Wrote, Touches;
    assert Ats(s)[i] == s[i].at;
    RingClosed(f.phys, Ats(s), s[i].at);
    InsertTouches(f.phys, s[i].at, item);
    WroteFields(f, InsertAfter(f.phys, s[i].at, item), f.list, {s[i].at, item, f.phys.next[s[i].at]}, Heads(s) + {item});
  }

  /** Leaving the free list writes in its neighbours there, and with cleared links in the block. */
  lemma LeaveWrites(f: Headers, free: seq<int>, s: Heap, k: nat)
    requires Ring(f.list, [FREE] + free) && (forall a :: a in free ==> FreeAt(s, a)) && k < |free|
    ensures Has(f.list, free[k]) && Wrote(f, f.(list := Unlink(f.list, free[k])), Heads(s) + {FREE})
    ensures Wrote(f, f.(list := Detach(f.list, free[k])), Heads(s) + {FREE})
  {
    hide Ring, Unlink, FreeAt;
    var h, w := free[k], Heads(s) + {FREE};
    assert h in [FREE] + free;
    RingClosed(f.list, [FREE] + free, h);
    FreeHead(free, s, h);
    FreeHead(free, s, f.list.prev[h]);
    FreeHead(free, s, f.list.next[h]);
    UnlinkTouches(f.list, h);
    WroteFields(f, f.phys, Unlink(f.list, h), {f.list.prev[h], f.list.next[h]}, w);
    WroteFields(f, f.phys, Detach(f.list, h), {f.list.prev[h], f.list.next[h], h}, w);
  }

  /** Entering the free list writes in its header, in the first block there and in the new one. */
  lemma EnterWrites(f: Headers, free: seq<int>, s: Heap, header: int)
    requires Ring(f.list, [FREE] + free) && forall a :: a in free ==> FreeAt(s, a)
    ensures FREE in f.list.next && Wrote(f, f.(list := Enter(f.list, header)), Heads(s) + {FREE, header})
  {
    hide Ring, InsertAfter, FreeAt, Wrote, Touches;
    assert FREE in [FREE] + free;
    RingClosed(f.list, [FREE] + free, FREE);
    FreeHead(free, s, f.list.next[FREE]);
    InsertTouches(f.list, FREE, header);
    WroteFields(f, f.phys, Enter(f.list, header), {FREE, header, f.list.next[FREE]}, Heads(s) + {FREE, header});
  }

  /** An allocation writes in headers of the old and the new layout only. */
  lemma CarveWrites(f: Headers, s: Heap, free: seq<int>, i: nat, k: nat, size: nat)
    requires Wired(f.phys, f.list, f.tag, s, free) && k < |free| && i + 1 < |s| && s[i] == Block(free[k], false)
    requires size <= Size(s, i, H)
    ensures var h := free[k]; var item := h + size + H; var w := Heads(s) + Heads(Alloc(s, i, size, H, MINIALLOC)) + {FREE};
            && h in f.phys.next && Has(f.list, h) && FREE in Detach(f.list, h).next
            && (Size(s, i, H) >= size + H + MINIALLOC ==>
                  Wrote(f, Headers(InsertAfter(f.phys, h, item), Enter(Detach(f.list, h), item), f.tag[item := false][h := true]), w))
            && Wrote(f, Headers(f.phys, Detach(f.list, h), f.tag[h := true]), w)
  {
    hide Ring, InsertAfter, Wrote, Touches, Detach, Enter, Coalesced, Tiled, Tagged, FreeAt, Mark, Split, Heads, Dropped;
    var h, item, t := free[k], free[k] + size + H, Alloc(s, i, size, H, MINIALLOC);
    var w := Heads(s) + Heads(t) + {FREE};
    HeadsAt(s);
    HeadsChange(s, i, true, Block(item, false));
    HeadsChange(Split(s, i, Block(item, false)), i, true, s[i]);
    RingTail(f.list, FREE, free);
    LeaveWrites(f, free, s, k);
    DetachFree(f.list, free, k);
    DroppedElements(free, k);
    var f1 := f.(list := Detach(f.list, h));
    WroteTag(f1, h, true, w);
    WroteMore(f, f1, f1.(tag := f1.tag[h := true]), Heads(s) + {FREE}, w, w);
    EnterWrites(f1, Dropped(free, k), s, item);
    InsertWrites(f, s, i, item);
    if Size(s, i, H) >= size + H + MINIALLOC {
      var f2 := f1.(list := Enter(f1.list, item));
      WroteMore(f, f1, f2, Heads(s) + {FREE}, Heads(s) + {FREE, item}, w);
      InsertWrites(f2, s, i, item);
      var f3 := f2.(phys := InsertAfter(f.phys, h, item));
      WroteMore(f, f2, f3, w, Heads(s) + {item}, w);
      WroteTag(f3, item, false, w);
      var f4 := f3.(tag := f3.tag[item := false]);
      WroteMore(f, f3, f4, w, w, w);
      WroteTag(f4, h, true, w);
      WroteMore(f, f4, f4.(tag := f4.tag[h := true]), w, w, w);
    }
  }

  lemma HeadIs(s: Heap, a: int)
    requires FreeAt(s, a)
    ensures a in Heads(s)
  {
    HeadsAt(s);
    var i :| 0 <= i < |s| && s[i] == Block(a, false);
  }

  /** Marking a block writes in its header. */
  lemma MarkHeads(f: Headers, s: Heap, i: nat)
    requires i < |s|
    ensures Wrote(f, f.(tag := f.tag[s[i].at := false]), Heads(s) + {FREE}) && Heads(Mark(s, i, false)) == Heads(s)
  {
    hide Wrote, Heads, Mark;
    HeadsChange(s, i, false, s[i]);
    HeadsAt(s);
    WroteTag(f, s[i].at, false, Heads(s) + {FREE});
  }

  lemma WroteFour(f: Headers, f1: Headers, f2: Headers, f3: Headers, g: Headers, w: set<int>, w2: set<int>, w3: set<int>, w4: set<int>)
    requires Wrote(f, f1, w) && Wrote(f1, f2, w2) && Wrote(f2, f3, w3) && Wrote(f3, g, w4) && w2 <= w && w3 <= w && w4 <= w
    ensures Wrote(f, g, w)
  {
    hide Wrote;
    WroteMore(f, f1, f2, w, w2, w);
    WroteMore(f, f2, f3, w, w3, w);
    WroteMore(f, f3, g, w, w4, w);
  }

  lemma UnlinkChained(f: Headers, s: Heap, i: nat)
    requires Chained(f.phys, f.tag, s) && i < |s|
    ensures Has(f.phys, s[i].at) && Wrote(f, f.(phys := Unlink(f.phys, s[i].at)), Heads(s))
  {
    UnlinkWrites(f, s, i);
  }

  /** A block that swallows its free successor writes in the successor's neighbours in both lists. */
  lemma RightWrites(f: Headers, s: Heap, free: seq<int>, j: nat, x: int, k: nat)
    requires Chained(f.phys, f.tag, s) && Ring(f.list, [FREE] + free) && FreeBut(free, s, x)
    requires j + 1 < |s| && k < |free| && free[k] == s[j + 1].at
    ensures Has(f.phys, free[k]) && Has(f.list, free[k]) && Heads(Join(s, j)) <= Heads(s)
    ensures Wrote(f, f.(phys := Unlink(f.phys, free[k]), list := Unlink(f.list, free[k])), Heads(s) + {FREE})
  {
    hide Ring, Unlink, Wrote, Touches, Heads, FreeAt, Join;
    UnlinkChained(f, s, j + 1);
    HeadsChange(s, j, false, s[j]);
    var f1 := f.(phys := Unlink(f.phys, free[k]));
    LeaveWrites(f1, free, s, k);
    WroteMore(f, f1, f1.(list := Unlink(f1.list, free[k])), Heads(s), Heads(s) + {FREE}, Heads(s) + {FREE});
  }

  lemma GrowWrites(f: Headers, s: Heap, free: seq<int>, i: nat, k: nat, size: nat)
    requires Chained(f.phys, f.tag, s) && FreeExact(free, s) && Ring(f.list, [FREE] + free) && NULL < s[0].at
    requires i + 2 < |s| && s[i].used && k < |free| && s[i + 1] == Block(free[k], false)
    requires Size(s, i, H) < size && s[i].at + H + size + H <= s[i + 2].at
    ensures var next, item := free[k], s[i].at + H + size;
            && Has(f.phys, next) && Has(f.list, next) && s[i].at in Unlink(f.phys, next).next
            && Wrote(f, Headers(InsertAfter(Unlink(f.phys, next), s[i].at, item), Unlink(f.list, next), f.tag[item := false]),
                     Heads(s) + Heads(Grow(s, i, size, H)) + {FREE})
  {
    hide Ring, Unlink, InsertAfter, Wrote, Touches, Heads, FreeAt, Join, Split, Tiled, Tagged, FreeExact;
    var next, item, t, g := free[k], s[i].at + H + size, Join(s, i), Grow(s, i, size, H);
    var w := Heads(s) + Heads(g) + {FREE};
    ExactBut(free, s);
    RightWrites(f, s, free, i, NULL, k);
    JoinChained(f.phys, f.tag, s, i);
    HeadsChange(t, i, true, Block(item, false));
    var f1 := f.(phys := Unlink(f.phys, next), list := Unlink(f.list, next));
    InsertWrites(f1, t, i, item);
    var f2 := f1.(phys := InsertAfter(f1.phys, s[i].at, item));
    WroteMore(f, f1, f2, Heads(s) + {FREE}, Heads(t) + {item}, w);
    WroteTag(f2, item, false, w);
    WroteMore(f, f2, f2.(tag := f2.tag[item := false]), w, w, w);
  }

  lemma ExactBut(free: seq<int>, s: Heap)
    requires FreeExact(free, s) && Tiled(s, H) && NULL < s[0].at
    ensures FreeBut(free, s, NULL)
  {
    hide FreeAt;
    NullNotFree(s);
  }

  lemma CutWrites(f: Headers, s: Heap, i: nat, item: int)
    requires Chained(f.phys, f.tag, s) && i < |s|
    ensures s[i].at in f.phys.next
    ensures Wrote(f, f.(phys := InsertAfter(f.phys, s[i].at, item), tag := f.tag[item := false]), Heads(s) + {item, FREE})
  {
    hide InsertAfter, Wrote, Heads, Tiled, Tagged;
    InsertWrites(f, s, i, item);
    var f1 := f.(phys := InsertAfter(f.phys, s[i].at, item));
    WroteTag(f1, item, false, Heads(s) + {item});
    WroteMore(f, f1, f1.(tag := f1.tag[item := false]), Heads(s) + {item}, Heads(s) + {item}, Heads(s) + {item, FREE});
  }

  // ---- growing and shrinking on the linked structure ----

  lemma GrowChained(phys: Links, list: Links, magic: map<int, bool>, s: Heap, free: seq<int>, i: nat, k: nat, size: nat)
    requires Chained(phys, magic, s) && FreeExact(free, s) && Ring(list, [FREE] + free) && NULL < s[0].at
    requires i + 2 < |s| && s[i].used && k < |free| && s[i + 1] == Block(free[k], false)
    requires Size(s, i, H) < size && s[i].at + H + size + H <= s[i + 2].at
    ensures var next, item, rest := free[k], s[i].at + H + size, Dropped(free, k);
            && Has(phys, next) && Has(list, next) && s[i].at in Unlink(phys, next).next
            && Chained(InsertAfter(Unlink(phys, next), s[i].at, item), magic[item := false], Grow(s, i, size, H))
            && Ring(Unlink(list, next), [FREE] + rest) && FreeBut(rest, Grow(s, i, size, H), item)
            && Bytes(Grow(s, i, size, H), false, H) == Bytes(s, false, H) - (size - Size(s, i, H))
            && FreeAt(Grow(s, i, size, H), item)
  {
    hide Ring, Bytes, Unlink, Dropped, Join, Split, FreeAt, Tagged, Ats, Tiled;
    var item, rest, t := s[i].at + H + size, Dropped(free, k), Join(s, i);
    RingTail(list, FREE, free);
    UnlinkFree(list, free, k);
    JoinChained(phys, magic, s, i);
    JoinBytes(s, i, false, H);
    NullNotFree(s);
    JoinFreeBut(s, free, i, NULL);
    JoinTiled(s, i, H);
    NullNotFree(t);
    SplitChained(Unlink(phys, free[k]), magic, t, i, item);
    SplitBytes(t, i, Block(item, false), false, H);
    BetweenBlocks(t, i, item);
    SplitFreeBut(t, rest, i, item);
    SplitFreeAt(t, i, Block(item, false), item);
  }

  lemma CutChained(phys: Links, magic: map<int, bool>, s: Heap, free: seq<int>, i: nat, size: nat)
    requires Chained(phys, magic, s) && FreeExact(free, s) && NULL < s[0].at
    requires i + 1 < |s| && s[i].used && size + H <= Size(s, i, H)
    ensures var item := s[i].at + H + size; var t := Split(s, i, Block(item, false));
            && s[i].at in phys.next && Chained(InsertAfter(phys, s[i].at, item), magic[item := false], t)
            && FreeBut(free, t, item) && FreeAt(t, item) && item !in free
            && Bytes(t, false, H) == Bytes(s, false, H) + (s[i + 1].at - item - H)
  {
    hide Ring, Bytes, Split, FreeAt, Tagged, Ats, Tiled;
    var item := s[i].at + H + size;
    SplitChained(phys, magic, s, i, item);
    SplitBytes(s, i, Block(item, false), false, H);
    BetweenBlocks(s, i, item);
    SplitFreeBut(s, free, i, item);
    SplitFreeAt(s, i, Block(item, false), item);
  }

  class Memheap {
    const start: int
    const poolSize: nat
    const align: nat
    var available: int
    var maxUsed: int
    var phys: Links             // next and prev of every block
    var list: Links             // next_free and prev_free
    var magic: map<int, bool>   // the used bit of magic
    var mem: Memory         // the bytes of the pool
    var written: Headers    // the header fields as they have gone into mem
    ghost var blocks: Heap
    ghost var free: seq<int>
    ghost var peaks: seq<int>   // pool_size - available_size after every step so far

    function Fields(): Headers
      reads this`phys, this`list, this`magic
    {
      Headers(phys, list, magic)
    }

    /** The links, the free list and the accounts are right. */
    ghost predicate Sound()
      reads this
    {
      && 2 * H <= poolSize < M32 && Power(align)
      && Wired(phys, list, magic, blocks, free)
      && Spans(blocks, start, poolSize)
      && available == Bytes(blocks, false, H)
      && Tracked(peaks, maxUsed, poolSize - available)
    }

    /** The invariant of every run. */
    ghost predicate Valid()
      reads this
    {
      Sound() && written == Fields()
    }

    /** rt_memheap_init: one free block and the tailer. */
    constructor (start: int, size: nat, align: nat)
      requires NULL < start && size < M32 && Power(align) && 2 * H <= Down(size, align)
      ensures Valid() && this.start == start && poolSize == Down(size, align) && this.align == align
      ensures blocks == [Block(start, false), Block(start + poolSize - H, true)]
    {
      this.start := start;
      this.align := align;
      var pool := Down(size, align);
      var tailer := start + pool - H;
      poolSize := pool;
      available := pool - 2 * H;
      maxUsed := 2 * H;
      phys := Links(map[start := tailer, tailer := start], map[start := tailer, tailer := start]);
      var header := Init(Links(map[], map[]), FREE);
      list := Enter(header, start);
      magic := map[start := false, tailer := true];
      mem := map[];
      written := Headers(phys, list, magic);
      blocks := [Block(start, false), Block(tailer, true)];
      free := [start];
      peaks := [2 * H];
      new;
      assert Ats(blocks) == [start, start + poolSize - H];
      InitRing(Links(map[], map[]), FREE);
      EnterFree(Init(Links(map[], map[]), FREE), [], start);
      assert [start] + [] == [start] && [FREE] + [] == [FREE];
      assert blocks[0] == Block(start, false);
      assert blocks[1..] == [blocks[1]];
    }

    /** Accounting: available_size is the free data; free data, used data and one header per
        block make up the pool; max_used_size bounds every pool_size - available_size so far. */
    lemma Accounting(j: nat)
      requires Valid() && j < |peaks|
      ensures poolSize == available + Bytes(blocks, true, H) + H * |blocks| && available == Bytes(blocks, false, H)
      ensures peaks[j] <= maxUsed && maxUsed in peaks && peaks[|peaks| - 1] == poolSize - available
    {
      BytesTotal(blocks, H);
      MaxBounds(peaks, j);
    }

    /** Any two live allocations are apart and inside the pool. */
    lemma LiveApart(p: int, n: int, q: int, k: int)
      requires Valid() && Live(blocks, H, p, n) && Live(blocks, H, q, k)
      ensures start + H <= p && 0 <= n && p + n <= start + poolSize - H
      ensures if p == q then n == k else p + n + H <= q || q + k + H <= p
    {
      hide Live, Tiled, Coalesced;
      WiredTiled(phys, list, magic, blocks, free);
      LiveDisjoint(blocks, H, p, n, q, k);
    }

    // ---- rt_memheap_alloc ----

    /** Where a free address stands in the layout. */
    ghost function Index(a: int): (i: nat)
      requires Tiled(blocks, H) && FreeAt(blocks, a)
      reads this
      ensures i + 1 < |blocks| && blocks[i] == Block(a, false)
    {
      var i :| 0 <= i < |blocks| && blocks[i] == Block(a, false);
      i
    }

    /** Every earlier entry of the free list is too small. */
    ghost predicate TooSmall(k: nat, size: nat)
      requires Tiled(blocks, H) && FreeExact(free, blocks) && k <= |free|
      reads this
    {
      forall j :: 0 <= j < k ==> FreeAt(blocks, free[j]) && Layout.Size(blocks, Index(free[j]), H) < size
    }

    /** The entry at position k of the free list, read through the links. */
    lemma FreeFields(k: nat)
      requires Valid() && k < |free|
      ensures Has(list, free[k]) && FreeAt(blocks, free[k])
      ensures list.next[free[k]] == if k + 1 < |free| then free[k + 1] else FREE
      ensures var i := Index(free[k]); Has(phys, free[k]) && phys.next[free[k]] - free[k] - H == Layout.Size(blocks, i, H)
    {
      hide Ring, Tiled;
      var s := [FREE] + free;
      assert free[k] in free && s[k + 1] == free[k] && s[0] == FREE;
      Steps(list, s, k + 1);
      BlockFields(phys, magic, blocks, Index(free[k]));
    }

    lemma ListHead()
      requires Valid()
      ensures Has(list, FREE) && list.next[FREE] == (if free == [] then FREE else free[0]) && FREE !in free
    {
      hide Ring;
      RingTail(list, FREE, free);
      Steps(list, [FREE] + free, 0);
    }

    lemma OneMore(k: nat, size: nat)
      requires Tiled(blocks, H) && FreeExact(free, blocks)
      ensures TooSmall(0, size)
      ensures k < |free| && TooSmall(k, size) && FreeAt(blocks, free[k]) && Layout.Size(blocks, Index(free[k]), H) < size
              ==> TooSmall(k + 1, size)
    {
    }

    /** The search loop of rt_memheap_alloc. */
    method Search(size: nat) returns (header: int, freeSize: int, ghost k: nat)
      requires Valid() && 0 < size
      ensures k <= |free| && TooSmall(k, size)
      ensures freeSize < size ==> k == |free|
      ensures size <= freeSize ==> k < |free| && header == free[k] && FreeAt(blocks, header)
                                   && freeSize == Layout.Size(blocks, Index(header), H)
    {
      hide Tiled, Ring, Coalesced, Bytes, Tagged, TooSmall, Layout.Size, FreeExact, FreeAt;
      k, freeSize := 0, 0;
      ListHead();
      OneMore(0, size);
      header := list.next[FREE];
      while header != FREE && freeSize < size
        invariant k <= |free| && TooSmall(k, size)
        invariant header == if k < |free| then free[k] else FREE
        invariant size <= freeSize ==> k < |free| && FreeAt(blocks, header) && freeSize == Layout.Size(blocks, Index(header), H)
        decreases |free| - k, size - freeSize
      {
        assert header in free;
        FreeFields(k);
        freeSize := phys.next[header] - header - H;
        if freeSize < size {
          OneMore(k, size);
          header := list.next[header];
          k := k + 1;
        }
      }
    }

    lemma AllTooSmall(size: nat)
      requires Valid() && TooSmall(|free|, size)
      ensures forall j :: 0 <= j < |blocks| - 1 && !blocks[j].used ==> Layout.Size(blocks, j, H) < size
    {
      forall j | 0 <= j < |blocks| - 1 && !blocks[j].used ensures Layout.Size(blocks, j, H) < size {
        assert FreeAt(blocks, blocks[j].at);
        var k :| 0 <= k < |free| && free[k] == blocks[j].at;
        assert Index(free[k]) == j;
      }
    }

    /** The search finds a block: one that is large enough is free, and more bytes than that are free in all. */
    ghost predicate Findable(size: nat)
      reads this
    {
      size < available && exists j :: 0 <= j < |blocks| - 1 && !blocks[j].used && size <= Layout.Size(blocks, j, H)
    }

    /** First fit over the free list. It fails, and then changes nothing, exactly when the search cannot find a
        block. */
    method Alloc(request: nat) returns (r: Option<int>, ghost i: nat, ghost k: nat)
      requires Valid() && request < M32
      modifies this
      ensures r.Some? <==> old(Findable(Want(request, align)))
      ensures align % 4 == 0 && OnWords(old(blocks)) ==> OnWords(blocks) && (r.Some? ==> r.value % 4 == 0)
      ensures Valid() && Preserved(old(blocks), blocks, old(mem), mem, H)
      ensures r.None? ==> blocks == old(blocks) && free == old(free) && available == old(available)
                          && mem == old(mem) && peaks == old(peaks)
      ensures r.Some? ==>
              && k < |old(free)| && i + 1 < |old(blocks)| && old(blocks)[i] == Block(old(free)[k], false)
              && old(TooSmall(k, Want(request, align))) && Want(request, align) <= Layout.Size(old(blocks), i, H)
              && blocks == Layout.Alloc(old(blocks), i, Want(request, align), H, MINIALLOC)
              && i + 1 < |blocks| && r.value == old(blocks)[i].at + H
              && free == (if Layout.Size(old(blocks), i, H) >= Want(request, align) + H + MINIALLOC then [r.value + Want(request, align)] else [])
                         + Dropped(old(free), k)
              && Want(request, align) <= Layout.Size(blocks, i, H)
              && Added(old(blocks), blocks, r.value, Layout.Size(blocks, i, H), H)
    {
      hide Tiled, Ring, Coalesced, Bytes, Tagged, FreeExact, Live, Layout.Alloc, Align, OnWords, Dropped,
           TooSmall, FreeAt, Preserved, Added, Wired, Spans, Tracked;
      var size := Want(request, align);
      WantIs(request, align);
      WiredTiled(phys, list, magic, blocks, free);
      r, i, k := None, 0, 0;
      SamePreserved(blocks, mem, H);
      if size < available {
        var header, freeSize;
        header, freeSize, k := Search(size);
        if size <= freeSize {
          i := Index(header);
          assert Findable(size);
          AllocKeeps(blocks, i, size, H, MINIALLOC);
          AllocAdds(blocks, i, size, MINIALLOC, H);
          if align % 4 == 0 && OnWords(blocks) { WordsAlloc(blocks, i, size); }
          Carve(header, freeSize, size, i, k);
          r := Some(header + H);
        } else {
          AllTooSmall(size);
        }
      }
    }

    /** The pointer surgery of an allocation, splitting when the remainder is large enough. */
    method Carve(header: int, freeSize: nat, size: nat, ghost i: nat, ghost k: nat)
      requires Valid() && k < |free| && header == free[k] && i + 1 < |blocks| && blocks[i] == Block(header, false)
      requires size <= freeSize == Layout.Size(blocks, i, H)
      modifies this
      ensures Valid() && blocks == Layout.Alloc(old(blocks), i, size, H, MINIALLOC)
      ensures free == (if freeSize >= size + H + MINIALLOC then [header + H + size] else []) + Dropped(old(free), k)
      ensures Preserved(old(blocks), blocks, old(mem), mem, H)
    {
      hide Wired, Tiled, Coalesced, Live, Bytes, Preserved, Wrote, Heads, Layout.Alloc, Detach, Enter, Unlink, InsertAfter,
           Dropped, Spans, Tracked;
      ghost var s, t := blocks, Layout.Alloc(blocks, i, size, H, MINIALLOC);
      WiredTiled(phys, list, magic, s, free);
      AllocKeeps(s, i, size, H, MINIALLOC);
      AllocBytes(s, i, size);
      SameSpan(s, t, start, poolSize);
      CarveWrites(written, s, free, i, k, size);
      if freeSize >= size + H + MINIALLOC {
        SplitWired(phys, list, magic, s, free, i, k, size);
        var item := header + size + H;
        phys := InsertAfter(phys, header, item);
        list := Detach(list, header);
        list := Enter(list, item);
        magic := magic[item := false];
        free := [item] + Dropped(free, k);
        Account(-(size + H));
      } else {
        WholeWired(phys, list, magic, s, free, i, k, size);
        Account(0 - freeSize);
        list := Detach(list, header);
        free := Dropped(free, k);
      }
      magic := magic[header := true];
      blocks := t;
      HeadersWritten(s);
    }

    // ---- rt_memheap_free ----

    /** The released area disappears from the live ones; everything else stays. */
    method Free(ptr: Option<int>, ghost n: int) returns (ghost i: nat)
      requires Valid() && (ptr.Some? ==> Live(blocks, H, ptr.value, n))
      modifies this
      ensures Valid() && Preserved(old(blocks), blocks, old(mem), mem, H)
      ensures ptr.None? ==> blocks == old(blocks) && free == old(free) && available == old(available) && mem == old(mem)
      ensures ptr.Some? ==> i + 1 < |old(blocks)| && old(blocks)[i] == Block(ptr.value - H, true)
                            && blocks == Layout.Free(old(blocks), i) && Removed(old(blocks), blocks, ptr.value, H)
                            && free == Listed(old(free), old(blocks), i)
    {
      hide Tiled, Coalesced, Live, Layout.Free, Preserved, Wired, Bytes, Tracked, Spans;
      i := 0;
      if ptr.None? {
        SamePreserved(blocks, mem, H);
      } else {
        i := LiveIndex(blocks, ptr.value, n, H);
        WiredTiled(phys, list, magic, blocks, free);
        FreeRemoves(blocks, i, H);
        Release(ptr.value - H, i);
      }
    }

    /** In the middle of a release: everything fits but the block at x, which is free
        and not yet in the free list. */
    ghost predicate Releasing(x: int)
      reads this
    {
      && Chained(phys, magic, blocks) && NULL < blocks[0].at && Ring(list, [FREE] + free)
      && FreeBut(free, blocks, x) && available == Bytes(blocks, false, H)
    }

    /** The pointer surgery of rt_memheap_free, and the bytes it costs. */
    method Release(block: int, ghost i: nat)
      requires Valid() && i + 1 < |blocks| && blocks[i] == Block(block, true)
      modifies this
      ensures Valid() && blocks == Layout.Free(old(blocks), i) && Preserved(old(blocks), blocks, old(mem), mem, H)
      ensures free == Listed(old(free), old(blocks), i)
    {
      hide Coalesced, Layout.Free, Preserved, Wrote, Heads, Bytes, Tracked, Spans, Tiled, Wired;
      ghost var s := blocks;
      WiredTiled(phys, list, magic, s, free);
      Reclaim(block, i);
      WiredTiled(phys, list, magic, blocks, free);
      HeadersWritten(s);
    }

    /** Join left, join right, or enter the free list. */
    method Reclaim(block: int, ghost i: nat)
      requires Valid() && i + 1 < |blocks| && blocks[i] == Block(block, true)
      modifies this`phys, this`list, this`magic, this`available, this`blocks, this`free, this`peaks
      ensures Sound() && blocks == Layout.Free(old(blocks), i) && free == Listed(old(free), old(blocks), i)
      ensures Wrote(old(Fields()), Fields(), Heads(old(blocks)) + Heads(blocks) + {FREE})
    {
      hide Coalesced, Layout.Free, Wrote, Heads, Bytes, Tracked, Spans, Ring, Tiled, Mark, Join, JoinFree,
           Chained, FreeBut, FreeExact, Wired, Listed, Unlisted;
      ghost var s, now := blocks, poolSize - available;
      WiredTiled(phys, list, magic, s, free);
      WiredChained(phys, list, magic, s, free);
      FreeBackFirst(s, i);
      FreeKeeps(s, i, H);
      TiledOrder(Layout.Free(s, i), H);
      SameSpan(s, Layout.Free(s, i), start, poolSize);
      ChainedFields(phys, magic, s, i);
      MarkChained(phys, magic, s, free, i);
      MarkHeads(Fields(), s, i);
      ghost var f, w := Fields(), Heads(s) + {FREE};
      magic := magic[block := false];
      available := available + (phys.next[block] - block - H);
      blocks := Mark(s, i, false);
      ghost var f1 := Fields();
      var header, insertHeader := JoinLeft(block, i);
      ghost var f2, b2 := Fields(), blocks;
      ghost var j, x := if insertHeader then i else i - 1, if insertHeader then header else NULL;
      JoinRight(header, j, x);
      ghost var f3 := Fields();
      assert blocks == Layout.Free(s, i);
      TrackLower(peaks, maxUsed, now, poolSize - available);
      EnterBlock(header, insertHeader, x);
      Entered(s, i, b2, insertHeader, old(free), free);
      peaks := peaks + [poolSize - available];
      WroteFour(f, f1, f2, f3, Fields(), w, Heads(s), Heads(b2) + {FREE}, Heads(blocks) + {FREE});
      WroteWider(f, Fields(), w, Heads(s) + Heads(blocks) + {FREE});
    }

    method JoinLeft(block: int, ghost i: nat) returns (header: int, insertHeader: bool)
      requires i + 1 < |blocks| && blocks[i] == Block(block, false) && Releasing(block)
      modifies this`available, this`phys, this`blocks
      ensures insertHeader <==> i == 0 || old(blocks)[i - 1].used
      ensures blocks == (if insertHeader then old(blocks) else Join(old(blocks), i - 1))
      ensures header == (if insertHeader then block else old(blocks)[i - 1].at)
      ensures old(available) <= available && Releasing(if insertHeader then header else NULL)
      ensures Wrote(old(Fields()), Fields(), Heads(old(blocks))) && Heads(blocks) <= Heads(old(blocks))
    {
      hide Bytes, Ring, Tiled, Join, Chained, FreeBut, Unlink, Wrote, Heads;
      header, insertHeader := block, true;
      WroteNone(Fields(), Heads(blocks));
      RingTail(list, FREE, free);
      ChainedFields(phys, magic, blocks, i);
      if !magic[phys.prev[header]] {
        available := available + H;
        UnlinkChained(Fields(), blocks, i);
        HeadsChange(blocks, i - 1, false, blocks[i]);
        JoinChained(phys, magic, blocks, i - 1);
        JoinOne(blocks, free, i - 1, header);
        header := phys.prev[block];
        phys := Unlink(phys, block);
        insertHeader := false;
        blocks := Join(blocks, i - 1);
      }
    }

    method JoinRight(header: int, ghost j: nat, ghost x: int)
      requires j + 1 < |blocks| && blocks[j] == Block(header, false) && Releasing(x) && (x == header || x == NULL)
      modifies this`available, this`phys, this`list, this`free, this`blocks
      ensures blocks == JoinFree(old(blocks), j) && FreeAt(blocks, header) && free == Unlisted(old(free), old(blocks), j + 1)
      ensures old(available) <= available && Releasing(x)
      ensures Wrote(old(Fields()), Fields(), Heads(old(blocks)) + {FREE}) && Heads(blocks) <= Heads(old(blocks))
    {
      hide Bytes, Ring, Tiled, Join, Chained, FreeBut, Unlink, Dropped, Wrote, Heads;
      WroteNone(Fields(), Heads(blocks) + {FREE});
      ChainedFields(phys, magic, blocks, j);
      if !magic[phys.next[header]] {
        available := available + H;
        var right := phys.next[header];
        ghost var k := NextFree(blocks, free, j, x);
        RightWrites(Fields(), blocks, free, j, x, k);
        JoinChained(phys, magic, blocks, j);
        JoinTwo(blocks, list, free, j, x, k);
        OutOf(list, free, k);
        phys := Unlink(phys, right);
        list := Unlink(list, right);
        free := Dropped(free, k);
        blocks := Join(blocks, j);
      }
    }

    /** Entering the free list, unless the block already belongs to it through its left neighbour. */
    method EnterBlock(header: int, insertHeader: bool, ghost x: int)
      requires Chained(phys, magic, blocks) && Coalesced(blocks) && NULL < blocks[0].at && Ring(list, [FREE] + free)
      requires x == (if insertHeader then header else NULL) && FreeBut(free, blocks, x)
      requires insertHeader ==> FreeAt(blocks, header)
      modifies this`list, this`free
      ensures Wired(phys, list, magic, blocks, free) && Wrote(old(Fields()), Fields(), Heads(blocks) + {FREE})
      ensures free == if insertHeader then [header] + old(free) else old(free)
    {
      hide Ring, Tiled, Coalesced, FreeAt, Tagged, Enter, Wrote, Heads;
      NullNotFree(blocks);
      WroteNone(Fields(), Heads(blocks) + {FREE});
      if insertHeader {
        FreePositive(blocks, header);
        EnterWrites(Fields(), free, blocks, header);
        HeadIs(blocks, header);
        assert Heads(blocks) + {FREE, header} == Heads(blocks) + {FREE};
        EnterFree(list, free, header);
        list := Enter(list, header);
        free := [header] + free;
      }
    }

    // ---- rt_memheap_realloc ----

    /** Growing in place: the free neighbour gives up size - oldsize bytes and moves. */
    method GrowInto(header: int, oldsize: nat, size: nat, ghost i: nat)
      requires Valid() && i + 2 < |blocks| && blocks[i] == Block(header, true) && !blocks[i + 1].used
      requires oldsize == Layout.Size(blocks, i, H) < size
      requires Layout.Size(blocks, i + 1, H) + oldsize > size + MINIALLOC
      modifies this
      ensures Valid() && blocks == Grow(old(blocks), i, size, H) && Preserved(old(blocks), blocks, old(mem), mem, H)
      ensures free == [header + H + size] + Unlisted(old(free), old(blocks), i + 1)
    {
      hide Coalesced, Grow, Preserved, Wrote, Heads, Bytes, Tracked, Spans, Ring, Tiled, Mark, Join, Split,
           Chained, FreeBut, FreeExact, Wired, FreeAt, Unlink, InsertAfter, Dropped, Ats, Tagged;
      ghost var s := blocks;
      WiredTiled(phys, list, magic, s, free);
      WiredChained(phys, list, magic, s, free);
      ChainedFields(phys, magic, s, i);
      ChainedFields(phys, magic, s, i + 1);
      NullNotFree(s);
      ghost var k := NextExact(s, free, i);
      GrowKeeps(s, i, size, H);
      TiledOrder(Grow(s, i, size, H), H);
      SameSpan(s, Grow(s, i, size, H), start, poolSize);
      GrowChained(phys, list, magic, s, free, i, k, size);
      ghost var f := Fields();
      GrowWrites(f, s, free, i, k, size);
      OutOf(list, free, k);
      Account(-(size - oldsize));
      var next := phys.next[header];
      list := Unlink(list, next);
      phys := Unlink(phys, next);
      free := Dropped(free, k);
      next := header + H + size;
      magic := magic[next := false];
      phys := InsertAfter(phys, header, next);
      blocks := Grow(s, i, size, H);
      ghost var f1, w := Fields(), Heads(s) + Heads(blocks) + {FREE};
      EnterBlock(next, true, next);
      WroteMore(f, f1, Fields(), w, Heads(blocks) + {FREE}, w);
      HeadersWritten(s);
    }

    /** Shrinking in place: the tail becomes a free block, joined with a free successor. */
    method ShrinkBlock(header: int, size: nat, ghost i: nat)
      requires Valid() && i + 1 < |blocks| && blocks[i] == Block(header, true) && size + H <= Layout.Size(blocks, i, H)
      modifies this
      ensures Valid() && blocks == Shrink(old(blocks), i, size, H) && Preserved(old(blocks), blocks, old(mem), mem, H)
      ensures free == [header + H + size] + Unlisted(old(free), old(blocks), i + 1)
    {
      hide Coalesced, Preserved, Wrote, Heads, Bytes, Tracked, Spans, Ring, Tiled, Mark, Join, Split,
           Chained, FreeBut, FreeExact, Wired, FreeAt, Unlink, InsertAfter, Dropped, Ats, Tagged, Unlisted;
      ghost var s, now := blocks, poolSize - available;
      WiredTiled(phys, list, magic, s, free);
      WiredChained(phys, list, magic, s, free);
      ShrinkKeeps(s, i, size, H);
      TiledOrder(Shrink(s, i, size, H), H);
      SameSpan(s, Shrink(s, i, size, H), start, poolSize);
      CutChained(phys, magic, s, free, i, size);
      ghost var f := Fields();
      var item := header + size + H;
      CutWrites(f, s, i, item);
      ghost var w := Heads(s) + {item, FREE};
      magic := magic[item := false];
      phys := InsertAfter(phys, header, item);
      blocks := Split(s, i, Block(item, false));
      HeadsChange(s, i, true, Block(item, false));
      ghost var f1, b1 := Fields(), blocks;
      CutUnlisted(free, s, i, Block(item, false));
      JoinCut(item, i + 1);
      ghost var f2 := Fields();
      assert blocks == Shrink(s, i, size, H);
      HeadIs(blocks, item);
      TrackLower(peaks, maxUsed, now, poolSize - available);
      EnterBlock(item, true, item);
      peaks := peaks + [poolSize - available];
      WroteMore(f, f1, f2, w, Heads(b1) + {FREE}, w);
      WroteMore(f, f2, Fields(), w, Heads(blocks) + {FREE}, w);
      WroteWider(f, Fields(), w, Heads(s) + Heads(blocks) + {FREE});
      HeadersWritten(s);
    }

    /** The merge with the right neighbour in rt_memheap_realloc and its accounting. */
    method JoinCut(item: int, ghost j: nat)
      requires 0 < j && j + 1 < |blocks| && blocks[j] == Block(item, false) && Chained(phys, magic, blocks)
      requires NULL < blocks[0].at && Ring(list, [FREE] + free) && FreeBut(free, blocks, item)
      requires Bytes(blocks, false, H) == available + Layout.Size(blocks, j, H)
      modifies this`available, this`phys, this`list, this`free, this`blocks
      ensures blocks == JoinFree(old(blocks), j) && FreeAt(blocks, item) && free == Unlisted(old(free), old(blocks), j + 1)
      ensures old(available) <= available && Releasing(item)
      ensures Wrote(old(Fields()), Fields(), Heads(old(blocks)) + {FREE}) && Heads(blocks) <= Heads(old(blocks))
    {
      hide Bytes, Ring, Tiled, Join, Chained, FreeBut, Unlink, Dropped, Wrote, Heads;
      ghost var s := blocks;
      WroteNone(Fields(), Heads(s) + {FREE});
      ChainedFields(phys, magic, s, j);
      FreeAtIndex(s, j, H);
      if !magic[phys.next[item]] {
        var right := phys.next[item];
        ghost var k := NextFree(s, free, j, item);
        ChainedFields(phys, magic, s, j + 1);
        available := available - (phys.next[right] - right - H);
        RightWrites(Fields(), s, free, j, item, k);
        JoinChained(phys, magic, s, j);
        JoinTwo(s, list, free, j, item, k);
        OutOf(list, free, k);
        JoinFreeAt(s, j, H, item);
        phys := Unlink(phys, right);
        list := Unlink(list, right);
        free := Dropped(free, k);
        blocks := Join(s, j);
      }
      ChainedFields(phys, magic, blocks, j);
      available := available + (phys.next[item] - item - H);
    }

    /** rt_memheap_realloc. A null result leaves the old area allocated and intact; otherwise
        the returned area of k bytes holds the first min(n, k) old bytes, and nothing else live has changed.
        It has room for the request exactly when aligning the request does not wrap. */
    method Realloc(ptr: Option<int>, newsize: nat, ghost n: int) returns (r: Option<int>, ghost k: int)
      requires Valid() && newsize < M32 && (ptr.Some? ==> Live(blocks, H, ptr.value, n))
      requires ptr.Some? && FreeBehind(blocks, ptr.value) && newsize != 0 ==> Want(newsize, align) + MINIALLOC < M32
      modifies this
      ensures Valid()
      ensures align % 4 == 0 && OnWords(old(blocks)) ==> OnWords(blocks) && (r.Some? ==> r.value % 4 == 0)
      ensures newsize == 0 ==> r.None? && (ptr.Some? ==> Removed(old(blocks), blocks, ptr.value, H))
      ensures newsize == 0 && ptr.None? ==> blocks == old(blocks) && mem == old(mem)
      ensures newsize == 0 || ptr.None? ==> Preserved(old(blocks), blocks, old(mem), mem, H)
      ensures 0 < newsize && r.None? ==> blocks == old(blocks) && mem == old(mem) && available == old(available)
      ensures r.Some? ==> Want(newsize, align) <= k && (newsize <= k <==> newsize <= M32 - align)
      ensures r.Some? && ptr.None? ==> Added(old(blocks), blocks, r.value, k, H)
      ensures r.Some? && ptr.Some? ==> Resized(old(blocks), blocks, ptr.value, n, r.value, k, old(mem), mem, H)
      ensures r.Some? && ptr.Some? && Want(newsize, align) <= n ==>
                r == ptr && k == if Want(newsize, align) + H + MINIALLOC >= n then n else Want(newsize, align)
      ensures ptr.None? && newsize != 0 ==> (r.Some? <==> old(Findable(Want(Want(newsize, align), align))))
      ensures ptr.Some? && n < Want(newsize, align) && newsize != 0 ==>
                if CanGrow(old(blocks), ptr.value, Want(newsize, align)) then r == ptr && k == Want(newsize, align)
                else r != ptr && (r.Some? <==> old(Findable(Want(Want(newsize, align), align))))
    {
      hide Coalesced, Live, Preserved, Resized, Added, Removed, Wired, Bytes, Tracked, Spans, Tiled, Align, Layout.Alloc,
           Layout.Free, Grow, Shrink, OnWords;
      r, k := None, 0;
      SamePreserved(blocks, mem, H);
      if newsize == 0 {
        ghost var i := Free(ptr, n);
        if ptr.Some? && OnWords(old(blocks)) { WordsFree(old(blocks), i); }
        return;
      }
      var size := Want(newsize, align);
      if ptr.None? {
        ghost var i, f;
        WantTwice(newsize, align);
        r, i, f := Alloc(size);
        if r.Some? {
          k := Layout.Size(blocks, i, H);
          AddedLive(old(blocks), blocks, r.value, k, H);
          Room(r.value, k, newsize);
        }
        return;
      }
      r, k := Resize(ptr.value, newsize, size, n);
      if r.Some? {
        ResizedLive(old(blocks), blocks, ptr.value, n, r.value, k, old(mem), mem, H);
        Room(r.value, k, newsize);
      }
    }

    /** A live area covers the request it was raised from exactly when aligning did not wrap. */
    lemma Room(p: int, k: int, newsize: nat)
      requires Valid() && Live(blocks, H, p, k) && newsize < M32 && Want(newsize, align) <= k
      ensures newsize <= k <==> newsize <= M32 - align
    {
      hide Live, Tiled, Coalesced, Bytes;
      LiveApart(p, k, p, k);
      WantCovers(newsize, align);
    }

    /** The re-allocation of an existing area to a raised size. */
    method Resize(p: int, ghost newsize: nat, size: nat, ghost n: int) returns (r: Option<int>, ghost k: int)
      requires Valid() && Live(blocks, H, p, n) && newsize < M32 && size == Want(newsize, align)
      requires FreeBehind(blocks, p) ==> size + MINIALLOC < M32
      modifies this
      ensures Valid()
      ensures size <= n ==> r == Some(p) && k == if size + H + MINIALLOC >= n then n else size
      ensures align % 4 == 0 && OnWords(old(blocks)) ==> OnWords(blocks) && (r.Some? ==> r.value % 4 == 0)
      ensures n < size ==> if CanGrow(old(blocks), p, size) then r == Some(p) && k == size
                           else r != Some(p) && (r.Some? <==> old(Findable(Want(size, align))))
      ensures r.None? ==> blocks == old(blocks) && mem == old(mem) && available == old(available)
      ensures r.Some? ==> size <= k && Resized(old(blocks), blocks, p, n, r.value, k, old(mem), mem, H)
    {
      hide Coalesced, Live, Preserved, Resized, Added, Removed, Wired, Bytes, Tracked, Spans, Tiled, Align, Layout.Alloc,
           Layout.Free, Grow, Shrink, Want, Tagged, Ring, OnWords;
      WantIs(newsize, align);
      if OnWords(blocks) { WordsData(blocks, p, n); }
      r, k := None, 0;
      var header := p - H;
      ghost var s := blocks;
      ghost var i := LiveIndex(s, p, n, H);
      WiredTiled(phys, list, magic, s, free);
      WiredChained(phys, list, magic, s, free);
      ChainedFields(phys, magic, s, i);
      var oldsize := phys.next[header] - header - H;
      if size > oldsize {
        r, k := Enlarge(p, newsize, size, n);
      } else if size + H + MINIALLOC >= oldsize {
        SameResized(blocks, p, n, mem, H);
        return Some(p), n;
      } else {
        ShrinkBlock(header, size, i);
        if align % 4 == 0 && OnWords(s) { WordsShrink(s, i, size); }
        ShrinkResizes(s, i, size, old(mem), mem, H);
        return Some(p), size;
      }
    }

    /** Into the free neighbour if it is large enough, otherwise into a new block. */
    method Enlarge(p: int, ghost newsize: nat, size: nat, ghost n: int) returns (r: Option<int>, ghost k: int)
      requires Valid() && Live(blocks, H, p, n) && newsize < M32 && size == Want(newsize, align) && n < size
      requires FreeBehind(blocks, p) ==> size + MINIALLOC < M32
      modifies this
      ensures Valid()
      ensures align % 4 == 0 && OnWords(old(blocks)) ==> OnWords(blocks) && (r.Some? ==> r.value % 4 == 0)
      ensures if CanGrow(old(blocks), p, size) then r == Some(p) && k == size
              else r != Some(p) && (r.Some? <==> old(Findable(Want(size, align))))
      ensures r.None? ==> blocks == old(blocks) && mem == old(mem) && available == old(available)
      ensures r.Some? ==> size <= k && Resized(old(blocks), blocks, p, n, r.value, k, old(mem), mem, H)
    {
      hide Coalesced, Live, Preserved, Resized, Added, Removed, Wired, Bytes, Tracked, Spans, Tiled, Align, Layout.Alloc,
           Layout.Free, Grow, Want, Tagged, Ring, OnWords, GrowFits, CanGrow, FreeExact, Chained, Findable;
      WantIs(newsize, align);
      if OnWords(blocks) { WordsData(blocks, p, n); }
      var header := p - H;
      ghost var s := blocks;
      ghost var i := LiveIndex(s, p, n, H);
      WiredTiled(phys, list, magic, s, free);
      WiredChained(phys, list, magic, s, free);
      ChainedFields(phys, magic, s, i);
      CanGrowAt(s, i, p, size);
      var next := phys.next[header];
      var oldsize := next - header - H;
      if !magic[next] {
        NextIsBlock(s, i);
        ChainedFields(phys, magic, s, i + 1);
        var nextsize := phys.next[next] - next - H;
        SizesFit(i, size);
        assert BeforeFree(s, i, p);
        if GrowFits(nextsize, oldsize, size) {
          GrowInto(header, oldsize, size, i);
          if align % 4 == 0 && OnWords(s) { WordsGrow(s, i, size); }
          GrowResizes(s, i, size, old(mem), mem, H);
          return Some(p), size;
        }
      }
      WantTwice(newsize, align);
      r, k := Move(p, oldsize, size, n, newsize);
    }

    lemma SizesFit(i: nat, size: nat)
      requires Valid() && i + 2 < |blocks|
      ensures 0 <= Layout.Size(blocks, i, H) && 0 <= Layout.Size(blocks, i + 1, H)
      ensures Layout.Size(blocks, i, H) + Layout.Size(blocks, i + 1, H) < M32
      ensures size + MINIALLOC < M32 ==>
                (GrowFits(Layout.Size(blocks, i + 1, H), Layout.Size(blocks, i, H), size) <==>
                 Layout.Size(blocks, i, H) + Layout.Size(blocks, i + 1, H) > size + MINIALLOC)
    {
    }

    /** Re-allocation by a new block and rt_memcpy. */
    method Move(p: int, oldsize: nat, size: nat, ghost n: int, ghost newsize: nat) returns (r: Option<int>, ghost k: int)
      requires Valid() && Live(blocks, H, p, n) && oldsize == n < size < M32 && size == Want(newsize, align)
      requires newsize < M32
      modifies this
      ensures align % 4 == 0 && OnWords(old(blocks)) ==> OnWords(blocks) && (r.Some? ==> r.value % 4 == 0)
      ensures Valid() && r != Some(p) && (r.Some? <==> old(Findable(Want(size, align))))
      ensures r.None? ==> blocks == old(blocks) && mem == old(mem) && available == old(available)
      ensures r.Some? ==> size <= k && Resized(old(blocks), blocks, p, n, r.value, k, old(mem), mem, H)
    {
      hide Coalesced, Live, Preserved, Resized, Added, Removed, Wired, Bytes, Tracked, Spans, Tiled, Align, Layout.Alloc,
           Layout.Free, Grow, Shrink, Copy, OnWords;
      ghost var s := blocks;
      WiredTiled(phys, list, magic, s, free);
      ghost var i, f;
      WantTwice(newsize, align);
      r, i, f := Alloc(size);
      k := 0;
      if r.Some? {
        k := Layout.Size(blocks, i, H);
        ghost var t, m1 := blocks, mem;
        WiredTiled(phys, list, magic, t, free);
        StillLive(s, t, p, n, r.value, k, H);
        NotLiveAnywhere(s, i, r.value, H);
        mem := Copy(mem, r.value, p, Min(oldsize, size));
        ghost var c := mem;
        i := Free(Some(p), n);
        if OnWords(t) { WordsFree(t, i); }
        MoveResizes(s, t, blocks, p, n, n, r.value, k, old(mem), m1, mem, H);
      }
    }

    /** Brings mem up to date with the fields: the bytes of every header that has changed are lost. That
        costs no live data, because only headers of the old and the new layout were written. */
    method HeadersWritten(ghost s: Heap)
      requires Tiled(s, H) && Tiled(blocks, H) && Wrote(written, Fields(), Heads(s) + Heads(blocks) + {FREE})
      modifies this`mem, this`written
      ensures written == Fields() && mem == Clobber(old(mem), old(written), Fields(), H, FREE)
      ensures Preserved(s, blocks, old(mem), mem, H)
    {
      ClobberKeeps(s, blocks, mem, written, Fields(), H, FREE);
      mem := Clobber(mem, written, Fields(), H, FREE);
      written := Fields();
    }

    /** Every change of available_size, with the update of max_used_size. */
    method Account(change: int)
      requires Tracked(peaks, maxUsed, poolSize - available)
      modifies this`available, this`maxUsed, this`peaks
      ensures available == old(available) + change && peaks == old(peaks) + [poolSize - available]
      ensures Tracked(peaks, maxUsed, poolSize - available)
    {
      available := available + change;
      assert (peaks + [poolSize - available])[..|peaks|] == peaks;
      peaks := peaks + [poolSize - available];
      if poolSize - available > maxUsed {
        maxUsed := poolSize - available;
      }
    }
  }

  /** max_used_size is the maximum over the history, which ends in the present value. */
  ghost predicate Tracked(peaks: seq<int>, maxUsed: int, now: int) {
    peaks != [] && maxUsed == Max(peaks) && peaks[|peaks| - 1] == now
  }

  ghost predicate Spans(s: Heap, start: int, poolSize: int) {
    s != [] && s[0].at == start && s[|s| - 1].at == start + poolSize - H
  }

  lemma SameSpan(s: Heap, t: Heap, start: int, poolSize: int)
    requires Spans(s, start, poolSize) && t != [] && t[0].at == s[0].at && t[|t| - 1] == s[|s| - 1]
    ensures Spans(t, start, poolSize)
  {
  }

  /** A free block joined with the block being released, which is not in the free list. */
  lemma JoinOne(s: Heap, free: seq<int>, i: nat, x: int)
    requires Tiled(s, H) && NULL < s[0].at && i + 2 < |s| && s[i + 1] == Block(x, false) && !s[i].used
    requires FreeBut(free, s, x) && Distinct(free)
    ensures FreeBut(free, Join(s, i), NULL) && Bytes(Join(s, i), false, H) == Bytes(s, false, H) + H
  {
    hide Tiled, Bytes, FreeBut, Join;
    JoinFreeBut(s, free, i, x);
    JoinBytes(s, i, false, H);
  }

  lemma OutOf(list: Links, free: seq<int>, k: nat)
    requires Ring(list, [FREE] + free) && k < |free|
    ensures Without(free, free[k]) == Dropped(free, k)
  {
    hide Ring;
    RingTail(list, FREE, free);
    WithoutIndex(free, k);
  }

  /** A free block joined with its free successor, which leaves the free list. */
  lemma JoinTwo(s: Heap, list: Links, free: seq<int>, i: nat, x: int, k: nat)
    requires Tiled(s, H) && i + 2 < |s| && !s[i + 1].used && !s[i].used
    requires Ring(list, [FREE] + free) && FreeBut(free, s, x) && k < |free| && free[k] == s[i + 1].at
    ensures FreeBut(Dropped(free, k), Join(s, i), x) && Bytes(Join(s, i), false, H) == Bytes(s, false, H) + H
    ensures Has(list, free[k]) && Ring(Unlink(list, free[k]), [FREE] + Dropped(free, k))
  {
    hide Tiled, Bytes, FreeBut, Join, Ring, Dropped, Unlink;
    RingTail(list, FREE, free);
    JoinFreeBut(s, free, i, x);
    JoinBytes(s, i, false, H);
    UnlinkFree(list, free, k);
  }

  lemma FreePositive(s: Heap, a: int)
    requires Tiled(s, H) && NULL < s[0].at && FreeAt(s, a)
    ensures NULL < a
  {
  }

  /** A size already raised is raised again by rt_memheap_alloc: never lower, and with an
      alignment that does not divide the minimal size possibly higher. */
  lemma WantTwice(size: nat, align: nat)
    requires Power(align) && size < M32
    ensures Want(size, align) < M32 && Want(size, align) <= Want(Want(size, align), align)
  {
    WantCovers(Want(size, align), align);
  }

  lemma NextIsBlock(s: Heap, i: nat)
    requires Tiled(s, H) && i + 1 < |s| && !s[i + 1].used
    ensures i + 2 < |s|
  {
  }

  lemma NextExact(s: Heap, free: seq<int>, i: nat) returns (k: nat)
    requires Tiled(s, H) && FreeExact(free, s) && i + 1 < |s| && !s[i + 1].used
    ensures k < |free| && s[i + 1] == Block(free[k], false)
  {
    FreeAtIndex(s, i + 1, H);
    k :| 0 <= k < |free| && free[k] == s[i + 1].at;
  }

  lemma WiredChained(phys: Links, list: Links, magic: map<int, bool>, s: Heap, free: seq<int>)
    requires Wired(phys, list, magic, s, free)
    ensures Chained(phys, magic, s) && FreeExact(free, s) && Ring(list, [FREE] + free) && Distinct(free)
    ensures FREE !in free && Has(list, FREE) && NULL < s[0].at
  {
    RingTail(list, FREE, free);
  }

  lemma ChainedFields(phys: Links, magic: map<int, bool>, s: Heap, i: nat)
    requires Chained(phys, magic, s) && i + 1 < |s|
    ensures Tiled(s, H) && s[0].at <= s[i].at && s[i].at + H <= s[i + 1].at
    ensures Has(phys, s[i].at) && s[i].at in magic && magic[s[i].at] == s[i].used
    ensures phys.next[s[i].at] == s[i + 1].at && Has(phys, s[i + 1].at) && s[i + 1].at in magic && magic[s[i + 1].at] == s[i + 1].used
    ensures phys.prev[s[i].at] == s[if i == 0 then |s| - 1 else i - 1].at
    ensures var q := if i == 0 then |s| - 1 else i - 1; s[q].at in magic && magic[s[q].at] == s[q].used && s[|s| - 1].used
  {
    BlockFields(phys, magic, s, i);
    BlockFields(phys, magic, s, i + 1);
    BlockFields(phys, magic, s, if i == 0 then |s| - 1 else i - 1);
  }

  lemma WiredTiled(phys: Links, list: Links, magic: map<int, bool>, s: Heap, free: seq<int>)
    requires Wired(phys, list, magic, s, free)
    ensures Tiled(s, H) && Coalesced(s)
  {
  }

}
