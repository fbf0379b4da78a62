/** slab.c: the chunk allocator on top of the page allocator. Each public call is one step under the
    heap lock. */
module Slab {
  import opened RtList
  import opened Chains
  import opened PageList
  import opened SlabZones
  import opened SlabLists

  datatype Kind = FreePage | SmallPage | LargePage

  /** struct memusage: pages of a large allocation, or the page's distance from its zone. */
  datatype Usage = Usage(kind: Kind, size: int)

  /** A zone in zone_free has no chunk in use; any other is well formed and in the list of its index, unless
      it has no free chunk. */
  ghost predicate ZoneHere(z: int, zones: map<int, Zone>, books: map<int, Book>, at: map<int, int>, zoneSize: nat) {
    && z in zones && z in books && z in at
    && if at[z] == SPARE then books[z].live == {}
       else Active(zones[z], z, books[z], at[z], zoneSize)
  }

  ghost predicate Active(c: Zone, z: int, b: Book, k: int, zoneSize: nat) {
    && ZoneOk(c, z * PAGE, zoneSize, b) && 0 <= c.zoneIndex < NZONES && c.chunkSize == SizeOf(c.zoneIndex)
    && (k == FULL ==> c.nfree == 0) && (k != FULL ==> c.nfree > 0 && k == c.zoneIndex)
  }

  ghost predicate ZonesOk(zones: map<int, Zone>, books: map<int, Book>, at: map<int, int>, zoneSize: nat) {
    && (forall z :: z in at ==> ZoneHere(z, zones, books, at, zoneSize))
    && (forall z :: z in books ==> z in at)
  }

  lemma ZoneChange(zones: map<int, Zone>, books: map<int, Book>, at: map<int, int>, zoneSize: nat, z: int, c: Zone, b: Book, k: int)
    requires ZonesOk(zones, books, at, zoneSize)
    requires ZoneHere(z, zones[z := c], books[z := b], at[z := k], zoneSize)
    ensures ZonesOk(zones[z := c], books[z := b], at[z := k], zoneSize)
  {
    hide Active;
    forall y | y in at && y != z ensures ZoneHere(y, zones[z := c], books[z := b], at[z := k], zoneSize) {
      assert ZoneHere(y, zones, books, at, zoneSize);
    }
  }

  lemma ZoneGone(zones: map<int, Zone>, books: map<int, Book>, at: map<int, int>, zoneSize: nat, z: int)
    requires ZonesOk(zones, books, at, zoneSize)
    ensures ZonesOk(zones, books - {z}, at - {z}, zoneSize)
  {
    hide Active;
    forall y | y in at && y != z ensures ZoneHere(y, zones, books - {z}, at - {z}, zoneSize) {
      assert ZoneHere(y, zones, books, at, zoneSize);
    }
  }

  // ---- the page map ----

  ghost predicate SmallPages(usage: map<int, Usage>, z: int, n: nat) {
    forall p :: z <= p < z + n ==> p in usage && usage[p] == Usage(SmallPage, p - z)
  }

  ghost predicate MapOk(usage: map<int, Usage>, at: map<int, int>, ext: map<int, nat>, large: set<int>, zonePages: nat) {
    && (forall z :: z in at ==> z in ext && ext[z] == zonePages && SmallPages(usage, z, zonePages))
    && (forall b :: b in large ==> b in ext && b !in at && b in usage && usage[b] == Usage(LargePage, ext[b]))
  }

  /** Only pages from b on, n of them, have new entries. */
  ghost predicate Written(usage: map<int, Usage>, usage2: map<int, Usage>, b: int, n: nat) {
    forall p :: p in usage && !(b <= p < b + n) ==> p in usage2 && usage2[p] == usage[p]
  }

  /** Entries of pages outside an allocation do not matter to it. */
  lemma MapKept(usage: map<int, Usage>, usage2: map<int, Usage>, runs: seq<Run>, holder: map<int, int>, at: map<int, int>, ext: map<int, nat>,
                large: set<int>, zonePages: nat, lo: int, hi: int, b: int)
    requires MapOk(usage, at - {b}, ext, large - {b}, zonePages) && PagesOk(runs, holder, ext, lo, hi) && b in ext && Written(usage, usage2, b, ext[b])
    ensures MapOk(usage2, at - {b}, ext, large - {b}, zonePages)
  {
    forall z | z in at && z != b ensures z in ext && ext[z] == zonePages && SmallPages(usage2, z, zonePages) {
      assert z in at - {b};
      ExtentsApart(runs, holder, ext, lo, hi, z, b);
    }
    forall l | l in large && l != b ensures l in ext && l !in at - {b} && l in usage2 && usage2[l] == Usage(LargePage, ext[l]) {
      assert l in large - {b};
      ExtentsApart(runs, holder, ext, lo, hi, l, b);
    }
  }

  // ---- what rt_malloc returns ----

  /** ptr is one more chunk in use, of the class of the request. */
  ghost predicate ChunkGrant(zones: map<int, Zone>, was: map<int, Book>, books: map<int, Book>, z: int, ptr: int, size: nat) {
    && z in zones && z in books && ptr in books[z].live && size <= zones[z].chunkSize && zones[z].chunkSize == ZoneIndex(size).1
    && ptr !in Chunks(was) && Chunks(books) == Chunks(was) + {ptr}
  }

  /** ptr is one more large allocation, of just enough pages. */
  ghost predicate PageGrant(was: set<int>, large: set<int>, ext: map<int, nat>, z: int, ptr: int, size: nat) {
    && ptr == z * PAGE && z !in was && large == was + {z} && z in ext && size <= ext[z] * PAGE < size + PAGE
  }

  lemma GrantSame(zones: map<int, Zone>, was: map<int, Book>, was2: map<int, Book>, books: map<int, Book>, z: int, ptr: int, size: nat)
    requires ChunkGrant(zones, was2, books, z, ptr, size) && Chunks(was) == Chunks(was2)
    ensures ChunkGrant(zones, was, books, z, ptr, size)
  {
    hide Chunks;
  }

  // ---- what has been handed out ----

  datatype Stock = Stock(zones: map<int, Zone>, books: map<int, Book>, large: set<int>, ext: map<int, nat>)

  /** Whatever was handed out and is not gone keeps its zone and chunk size, or its pages. */
  ghost predicate StillHeld(v: Stock, w: Stock, gone: set<int>) {
    && (forall y, c {:trigger c in v.books[y].live} :: y in v.books && c in v.books[y].live && c !in gone ==> y in w.books && c in w.books[y].live)
    && (forall y, c {:trigger c in v.books[y].live} :: y in v.books && c in v.books[y].live && c !in gone && y in v.zones ==>
          y in w.zones && w.zones[y].chunkSize == v.zones[y].chunkSize)
    && (forall m :: m in v.large && m * PAGE !in gone ==> m in w.large)
    && (forall m :: m in v.large && m * PAGE !in gone && m in v.ext ==> m in w.ext && w.ext[m] == v.ext[m])
  }

  lemma HeldSame(v: Stock, gone: set<int>)
    ensures StillHeld(v, v, gone)
  {
  }

  lemma HeldThen(u: Stock, v: Stock, w: Stock, gone1: set<int>, gone2: set<int>, gone: set<int>)
    requires StillHeld(u, v, gone1) && StillHeld(v, w, gone2) && gone1 <= gone && gone2 <= gone
    ensures StillHeld(u, w, gone)
  {
  }

  /** One zone changed. */
  lemma HeldZone(v: Stock, w: Stock, z: int, gone: set<int>)
    requires z in w.zones && w.zones == v.zones[z := w.zones[z]] && z in w.books && w.books == v.books[z := w.books[z]]
    requires z in v.books ==> v.books[z].live - gone <= w.books[z].live && (z in v.zones ==> w.zones[z].chunkSize == v.zones[z].chunkSize)
    requires w.large == v.large && w.ext == v.ext
    ensures StillHeld(v, w, gone)
  {
    forall y, c | y in v.books && c in v.books[y].live && c !in gone ensures y in w.books && c in w.books[y].live {
      if y == z { assert c in v.books[z].live - gone; }
    }
  }

  /** A zone without chunks in use vanished. */
  lemma HeldWithout(v: Stock, w: Stock, z: int)
    requires w.zones == v.zones && w.books == v.books - {z} && w.large == v.large && w.ext == v.ext && (z in v.books ==> v.books[z].live == {})
    ensures StillHeld(v, w, {})
  {
  }

  /** Pages that belong to no large allocation changed hands. */
  lemma HeldElsewhere(v: Stock, w: Stock, z: int)
    requires w.zones == v.zones && w.books == v.books && w.large == v.large && w.ext - {z} == v.ext - {z} && z !in v.large
    ensures StillHeld(v, w, {})
  {
    forall m | m in v.large && m in v.ext ensures m in w.ext && w.ext[m] == v.ext[m] {
      assert m in v.ext - {z} && (v.ext - {z})[m] == v.ext[m];
      assert m in w.ext - {z};
    }
  }

  lemma HeldLarge(v: Stock, w: Stock, b: int, n: nat)
    requires w.zones == v.zones && w.books == v.books && w.large == v.large + {b} && w.ext == v.ext[b := n] && b !in v.large
    ensures StillHeld(v, w, {})
  {
  }

  lemma HeldLess(v: Stock, w: Stock, b: int)
    requires w.zones == v.zones && w.books == v.books && w.large == v.large - {b} && w.ext == v.ext - {b}
    ensures StillHeld(v, w, {b * PAGE})
  {
  }

  /** Zone z leaves list k. */
  ghost function Retired(lists: seq<seq<int>>, k: int, z: int): (r: seq<seq<int>>)
    requires 0 <= k < |lists|
    ensures |r| == |lists|
  {
    lists[k := Without(lists[k], z)]
  }

  /** Zone z comes back to the front of list k with its first free chunk. */
  ghost function Relisted(lists: seq<seq<int>>, k: int, z: int, full: bool): (r: seq<seq<int>>)
    requires 0 <= k < |lists|
    ensures |r| == |lists|
  {
    if full then lists[k := [z] + lists[k]] else lists
  }

  lemma InOrder(heads: seq<int>, znext: map<int, int>, lists: seq<seq<int>>, at: map<int, int>, k: int)
    requires ListsOk(heads, znext, lists, at) && 0 <= k < |heads|
    ensures Distinct(lists[k])
  {
    assert ListOk(heads[k], znext, lists[k], k, at);
  }

  ghost predicate HasOther(s: seq<int>, z: int) {
    exists y :: y in s && y != z
  }

  // ---- chunks in use ----

  ghost function Chunks(books: map<int, Book>): set<int> {
    set z, c | z in books && c in books[z].live :: c
  }

  /** A chunk belongs to one zone. */
  ghost predicate OneHome(books: map<int, Book>) {
    forall y, z, c :: y in books && z in books && c in books[y].live && c in books[z].live ==> y == z
  }

  lemma ChunksChange(books: map<int, Book>, z: int, b: Book)
    requires OneHome(books) && z in books && OneHome(books[z := b])
    ensures Chunks(books[z := b]) == Chunks(books) - books[z].live + b.live && books[z].live <= Chunks(books)
  {
    var n := books[z := b];
    forall c | c in Chunks(books) && c !in books[z].live ensures c in Chunks(n) {
      var y :| y in books && c in books[y].live;
      assert y in n && n[y] == books[y];
    }
    forall c | c in b.live ensures c in Chunks(n) { assert z in n && n[z] == b; }
    forall c | c in books[z].live ensures c in Chunks(books) { assert z in books; }
    forall c | c in Chunks(n) && c !in b.live ensures c in Chunks(books) && c !in books[z].live {
      var y :| y in n && c in n[y].live;
      assert y in books && y != z;
    }
  }

  lemma ChunksNew(books: map<int, Book>, z: int, b: Book)
    requires z in books ==> books[z].live == {}
    ensures Chunks(books[z := b]) == Chunks(books) + b.live
  {
    var n := books[z := b];
    forall c | c in Chunks(books) ensures c in Chunks(n) {
      var y :| y in books && c in books[y].live;
      assert y in n && n[y] == books[y];
    }
    forall c | c in b.live ensures c in Chunks(n) { assert z in n && n[z] == b; }
    forall c | c in Chunks(n) && c !in b.live ensures c in Chunks(books) {
      var y :| y in n && c in n[y].live;
      assert y in books && y != z;
    }
  }

  lemma ChunksGone(books: map<int, Book>, z: int)
    requires z in books && books[z].live == {}
    ensures Chunks(books - {z}) == Chunks(books)
  {
    forall c | c in Chunks(books) ensures c in Chunks(books - {z}) {
      var y :| y in books && c in books[y].live;
      assert y in books - {z} && (books - {z})[y] == books[y];
    }
  }

  /** A chunk in use lies in the pages of its zone, behind the zone header. */
  lemma ChunkSpan(zones: map<int, Zone>, books: map<int, Book>, at: map<int, int>, zonePages: nat, z: int, c: int)
    requires ZonesOk(zones, books, at, zonePages * PAGE) && z in books && c in books[z].live
    ensures z in at && z in zones && 0 < zones[z].chunkSize && 0 < c
    ensures z * PAGE + ZONE_HEADER <= c && c + zones[z].chunkSize <= (z + zonePages) * PAGE
    ensures z <= c / PAGE < z + zonePages
  {
    hide ZoneOk;
    assert ZoneHere(z, zones, books, at, zonePages * PAGE);
    LiveInside(zones[z], z * PAGE, zonePages * PAGE, books[z], c);
  }

  lemma HomesOk(zones: map<int, Zone>, books: map<int, Book>, at: map<int, int>, zonePages: nat, usage: map<int, Usage>,
                runs: seq<Run>, holder: map<int, int>, ext: map<int, nat>, large: set<int>, lo: int, hi: int)
    requires ZonesOk(zones, books, at, zonePages * PAGE) && MapOk(usage, at, ext, large, zonePages) && PagesOk(runs, holder, ext, lo, hi)
    ensures OneHome(books)
  {
    hide ZoneHere;
    forall y, z, c | y in books && z in books && c in books[y].live && c in books[z].live ensures y == z {
      ChunkSpan(zones, books, at, zonePages, y, c);
      ChunkSpan(zones, books, at, zonePages, z, c);
      ExtentsApart(runs, holder, ext, lo, hi, y, z);
    }
  }

  class SlabHeap {
    const pages: PageAllocator
    const lo: int                    // first and last page of the heap
    const hi: int
    const zonePages: nat             // zone_page_cnt
    const zoneLimit: nat
    var usage: map<int, Usage>       // memusage
    var zones: map<int, Zone>
    var znext: map<int, int>         // z_next of each zone
    var heads: seq<int>              // zone_array, and zone_free as the last
    var zoneFreeCnt: nat
    ghost var holder: map<int, int>
    ghost var ext: map<int, nat>
    ghost var lists: seq<seq<int>>
    ghost var at: map<int, int>
    ghost var books: map<int, Book>
    ghost var large: set<int>

    ghost function Now(): Stock
      reads this
    {
      Stock(zones, books, large, ext)
    }

    ghost predicate Sizes()
      reads this
    {
      && 8 <= zonePages && zoneLimit <= 16384 && 4 * zoneLimit <= zonePages * PAGE && 0 < zoneLimit
      && forall n :: 0 < n < zoneLimit ==> 4 * ZoneIndex(n).1 <= zonePages * PAGE
    }

    ghost predicate Valid()
      reads this, pages
    {
      && pages.Valid() && Sizes() && PagesOk(pages.runs, holder, ext, lo, hi)
      && ListsOk(heads, znext, lists, at) && zoneFreeCnt == |lists[SPARE]| <= 2
      && ZonesOk(zones, books, at, zonePages * PAGE) && MapOk(usage, at, ext, large, zonePages)
    }

    /** rt_system_heap_init, for a heap of at least one whole page: the page map takes its own pages,
        everything else is free. */
    constructor (begin: nat, end: nat)
      requires 0 < Up(begin, PAGE) / PAGE < end / PAGE
      ensures Valid() && lo == Up(begin, PAGE) / PAGE && hi == end / PAGE && fresh(pages)
      ensures books == map[] && large == {} && forall k :: 0 <= k < |lists| ==> lists[k] == []
      ensures exists m :: m in ext && ext.Keys == {m} && ext[m] * PAGE >= (hi - lo) * 4
    {
      hide PagesOk, Held, Linked, Canonical, Up, ListsOk, ZonesOk, MapOk, ZoneIndex, NoHeads, NoLists, SizeOf;
      var first, last := Up(begin, PAGE) / PAGE, end / PAGE;
      var npages: nat := last - first;
      var zoneSize := ZoneSizeFor(npages * PAGE);
      lo, hi := first, last;
      zonePages := zoneSize / PAGE;
      zoneLimit := if zoneSize / 4 > 16384 then 16384 else zoneSize / 4;
      var all, m, n := PagesWithMap(first, npages);
      pages := all;
      usage, zones, znext, heads, zoneFreeCnt := map[], map[], map[], NoHeads(), 0;
      holder, ext, lists, at, books, large := Held(map[], m, n), map[m := n], NoLists(), map[], map[], {};
      new;
      NoZones(zonePages, m, n);
      SizesOk(zoneSize, zonePages, zoneLimit);
      assert m in ext;
    }

    /** n pages in a row are free somewhere. */
    ghost predicate Room(n: nat)
      reads pages
    {
      exists a :: AllFree(pages.runs, a, n)
    }

    /** Chunks in use never overlap one another. */
    lemma ChunksApartHere(y: int, c: int, z: int, d: int)
      requires Valid() && y in books && c in books[y].live && z in books && d in books[z].live
      ensures y in zones && z in zones
      ensures c != d ==> c + zones[y].chunkSize <= d || d + zones[z].chunkSize <= c
    {
      hide ListsOk, Linked, Canonical, SmallPages;
      ChunkSpan(zones, books, at, zonePages, y, c);
      ChunkSpan(zones, books, at, zonePages, z, d);
      ExtentsApart(pages.runs, holder, ext, lo, hi, y, z);
      if y == z && c != d {
        assert ZoneHere(y, zones, books, at, zonePages * PAGE);
        ChunksApart(zones[y], c, d);
      }
    }

    /** No chunk in use reaches into the header of any zone, spare ones included. */
    lemma HeaderApart(y: int, c: int, z: int)
      requires Valid() && y in books && c in books[y].live && z in at
      ensures y in zones && (z * PAGE + ZONE_HEADER <= c || c + zones[y].chunkSize <= z * PAGE)
    {
      hide ListsOk, Linked, Canonical, SmallPages;
      ChunkSpan(zones, books, at, zonePages, y, c);
      ExtentsApart(pages.runs, holder, ext, lo, hi, y, z);
    }

    /** Large allocations overlap neither one another nor any zone. */
    lemma LargeApart(b: int, s: int)
      requires Valid() && b in large && (s in large || s in at) && s != b
      ensures b in ext && s in ext && (b + ext[b] <= s || s + ext[s] <= b) && (s in at ==> ext[s] == zonePages)
    {
      hide ListsOk, Linked, Canonical, SmallPages;
      ExtentsApart(pages.runs, holder, ext, lo, hi, b, s);
    }

    /** An area that has been handed out for a request of n bytes. */
    ghost predicate Granted(z: int, ptr: int, n: nat)
      reads this
    {
      || (z in books && z in zones && ptr in books[z].live && n <= zones[z].chunkSize)
      || (z in large && z in ext && ptr == z * PAGE && n <= ext[z] * PAGE)
    }

    /** Areas handed out never overlap. */
    lemma AreasApart(y: int, p: int, n: nat, z: int, q: int, m: nat)
      requires Valid() && Granted(y, p, n) && Granted(z, q, m) && (y != z || p != q)
      ensures p + n <= q || q + m <= p
    {
      hide ListsOk, Linked, Canonical, SmallPages, ZonesOk, MapOk, PagesOk, Granted;
      InUse(y, p, n);
      InUse(z, q, m);
      if y == z {
        ChunksApartHere(y, p, z, q);
      } else {
        ExtentsApart(pages.runs, holder, ext, lo, hi, y, z);
      }
    }

    lemma LargeOrZone()
      requires Valid()
      ensures forall x :: x in large ==> x !in books
    {
      hide ListsOk, Linked, Canonical, SmallPages, PagesOk, ZoneHere;
    }

    /** Where it lies. */
    lemma InUse(z: int, ptr: int, n: nat)
      requires Valid() && Granted(z, ptr, n)
      ensures z in ext && z * PAGE <= ptr && ptr + n <= (z + ext[z]) * PAGE
      ensures if z in large then ptr == z * PAGE else z in books && z in zones && ptr in books[z].live && n <= zones[z].chunkSize
    {
      hide ListsOk, Linked, Canonical, SmallPages, PagesOk;
      if z in books && z in zones && ptr in books[z].live && n <= zones[z].chunkSize {
        ChunkSpan(zones, books, at, zonePages, z, ptr);
      } else {
        assert z in large && z in ext;
      }
    }

    /** What was granted stays granted, for the same size, until it is freed. */
    lemma GrantKept(v: Stock, gone: set<int>, z: int, ptr: int, n: nat)
      requires StillHeld(v, Now(), gone) && ptr !in gone
      requires (z in v.books && z in v.zones && ptr in v.books[z].live && n <= v.zones[z].chunkSize) ||
               (z in v.large && z in v.ext && ptr == z * PAGE && n <= v.ext[z] * PAGE)
      ensures Granted(z, ptr, n)
    {
    }

    /** The page map leads rt_free from any chunk to its zone, and from a large allocation to its length. */
    lemma Lookup(z: int, ptr: int)
      requires Valid()
      ensures z in books && ptr in books[z].live ==> ptr / PAGE in usage && usage[ptr / PAGE] == Usage(SmallPage, ptr / PAGE - z)
      ensures z in large && ptr == z * PAGE ==> ptr / PAGE in usage && z in ext && usage[ptr / PAGE] == Usage(LargePage, ext[z])
    {
      hide ListsOk, Linked, Canonical;
      if z in books && ptr in books[z].live {
        ChunkSpan(zones, books, at, zonePages, z, ptr);
        assert SmallPages(usage, z, zonePages);
      }
    }

    // ---- rt_malloc ----

    ghost predicate Waiting(k: int)
      reads this
    {
      0 <= k < |lists| && lists[k] != []
    }

    /** Whether a request can be met: whole pages are there, or a zone with a free chunk, an unused zone or
        the pages for a new one. */
    ghost predicate Fits(size: nat)
      reads this, pages
    {
      if size >= zoneLimit then Room(Up(size, PAGE) / PAGE)
      else Waiting(ZoneIndex(size).0) || Waiting(SPARE) || Room(zonePages)
    }

    /** Which zone a chunk of class k comes from: the first one with a free chunk, else the first spare one, else
        a new one in the lowest free pages. It leaves the list of its class with its last chunk. */
    twostate predicate Source(z: int, k: nat)
      reads this, pages
    {
      && k < SPARE < |old(lists)| && z in zones
      && if old(Waiting(k)) then
           && z == old(lists)[k][0] && pages.runs == old(pages.runs) && zoneFreeCnt == old(zoneFreeCnt) && at.Keys == old(at).Keys
           && lists == if zones[z].nfree == 0 then old(lists)[k := old(lists)[k][1..]] else old(lists)
         else if old(Waiting(SPARE)) then
           && z == old(lists)[SPARE][0] && pages.runs == old(pages.runs) && zoneFreeCnt == old(zoneFreeCnt) - 1 && at.Keys == old(at).Keys
           && lists == old(lists)[SPARE := old(lists)[SPARE][1..]][k := [z]]
         else
           && LowestOut(old(pages.runs), pages.runs, z, zonePages) && zoneFreeCnt == old(zoneFreeCnt) && at.Keys == old(at).Keys + {z}
           && lists == old(lists)[k := [z]]
    }

    /** rt_malloc. Large requests get pages of their own, others a chunk of the first class that fits. */
    method Malloc(size: nat) returns (ptr: int, ghost z: int)
      requires Valid()
      modifies this, pages
      ensures Valid() && (ptr == 0 <==> size == 0 || !old(Fits(size)))
      ensures ptr == 0 ==> books == old(books) && large == old(large) && pages.runs == old(pages.runs)
      ensures ptr == 0 ==> zones == old(zones) && lists == old(lists) && at == old(at)
      ensures ptr != 0 && size < zoneLimit ==> ChunkGrant(zones, old(books), books, z, ptr, size) && large == old(large)
      ensures ptr != 0 && size < zoneLimit ==> Source(z, ZoneIndex(size).0)
      ensures ptr != 0 && size >= zoneLimit ==> PageGrant(old(large), large, ext, z, ptr, size) && books == old(books)
      ensures ptr != 0 && size >= zoneLimit ==> LowestOut(old(pages.runs), pages.runs, z, ext[z]) && lists == old(lists) && at == old(at)
      ensures StillHeld(old(Now()), Now(), {})
    {
      HeldSame(Now(), {});
      hide StillHeld, ListsOk, ZonesOk, Linked, Canonical, MapOk, PagesOk, Up, ZoneIndex, ChunkGrant, PageGrant, AllFree;
      z := 0;
      if size == 0 {
        return 0, 0;
      }
      if size >= zoneLimit {
        ptr := Large(size);
        z := ptr / PAGE;
        return;
      }
      ptr, z := Small(size);
    }

    /** Requests below zone_limit. */
    method Small(size: nat) returns (ptr: int, ghost z: int)
      requires Valid() && 0 < size < zoneLimit
      modifies this, pages
      ensures Valid() && (ptr == 0 <==> !old(Fits(size)))
      ensures ptr == 0 ==> books == old(books) && large == old(large) && pages.runs == old(pages.runs)
      ensures ptr == 0 ==> zones == old(zones) && lists == old(lists) && at == old(at)
      ensures ptr != 0 ==> ChunkGrant(zones, old(books), books, z, ptr, size) && large == old(large)
      ensures ptr != 0 ==> Source(z, ZoneIndex(size).0)
      ensures StillHeld(old(Now()), Now(), {})
    {
      hide StillHeld, ZonesOk, Linked, Canonical, MapOk, PagesOk, Up, ZoneIndex, ChunkGrant, AllFree, ListOk, SizeOf;
      ClassOk(size);
      var (zi, n) := ZoneIndex(size);
      ListHead(heads, znext, lists, at, zi);
      ListHead(heads, znext, lists, at, SPARE);
      if heads[zi] != 0 {
        z := heads[zi];
        ptr := TakeChunk(zi, size);
        return;
      }
      var zone;
      if heads[SPARE] != 0 {
        zone := TakeSpare();
      } else {
        zone := NewPages();
        if zone == 0 {
          return 0, 0;
        }
      }
      z := zone;
      ghost var books1, v1 := books, Now();
      ptr := StartZone(zone, zi, n, size);
      HeldThen(old(Now()), v1, Now(), {}, {}, {});
      GrantSame(zones, old(books), books1, books, z, ptr, size);
      assert [z] + [] == [z];
      if old(Waiting(SPARE)) { assert lists == old(lists)[SPARE := old(lists)[SPARE][1..]][zi := [z]]; }
    }

    /** A chunk of the first zone in the list; the zone leaves the list with its last free chunk. */
    method TakeChunk(zi: int, size: nat) returns (ptr: int)
      requires Valid() && 0 < size < zoneLimit && zi == ZoneIndex(size).0 && 0 <= zi < NZONES && zi < |heads| && heads[zi] != 0
      modifies this`zones, this`znext, this`heads, this`lists, this`at, this`books
      ensures Valid() && ptr != 0 && ChunkGrant(zones, old(books), books, old(heads)[zi], ptr, size)
      ensures at.Keys == old(at).Keys && old(heads)[zi] in zones && zi < |old(lists)| && old(lists)[zi] != []
      ensures lists == if zones[old(heads)[zi]].nfree == 0 then old(lists)[zi := old(lists)[zi][1..]] else old(lists)
      ensures StillHeld(old(Now()), Now(), {})
    {
      hide StillHeld, ListsOk, ZonesOk, Linked, Canonical, MapOk, PagesOk, ZoneIndex, SizeOf, ListOk, Taken, TakenBook, ZoneOk;
      var z := heads[zi];
      Keeps(heads, znext, lists, at, zi, []);
      PopOk(heads, znext, lists, at, zi);
      Keeps(heads, znext, lists, at, zi, lists[zi][1..]);
      LooseOk(heads[zi := znext[z]], znext, lists[zi := lists[zi][1..]], at[z := FULL], z, 0);
      ChunkTaken(zones, books, at, zonePages, z, zi, size, usage, pages.runs, holder, ext, large, lo, hi);
      var (c, chunk) := Taken(zones[z]);
      TakenKeeps(zones[z], books[z]);
      MapAt(usage, at, ext, large, zonePages, z, FULL);
      books := books[z := TakenBook(zones[z], books[z])];
      zones := zones[z := c];
      HeldZone(old(Now()), Now(), z, {});
      if c.nfree == 0 {
        heads := heads[zi := znext[z]];
        znext := znext[z := 0];
        lists, at := lists[zi := lists[zi][1..]], at[z := FULL];
      }
      return chunk;
    }

    /** A zone that was wholly free. */
    method TakeSpare() returns (z: int)
      requires Crowded() && heads[SPARE] != 0
      modifies this`heads, this`zoneFreeCnt, this`lists, this`at, this`books
      ensures pages.Valid() && Sizes() && PagesOk(pages.runs, holder, ext, lo, hi)
      ensures ListsOk(heads, znext, lists, at) && zoneFreeCnt == |lists[SPARE]| <= 2
      ensures ZonesOk(zones, books, at - {z}, zonePages * PAGE) && MapOk(usage, at, ext, large, zonePages)
      ensures z in at && at[z] == FULL && z !in books && Chunks(books) == old(Chunks(books)) && 0 < z
      ensures old(lists)[SPARE] != [] && z == old(heads)[SPARE] && lists == old(lists)[SPARE := old(lists)[SPARE][1..]]
      ensures at == old(at)[z := FULL] && books == old(books) - {z} && StillHeld(old(Now()), Now(), {})
      ensures zoneFreeCnt == old(zoneFreeCnt) - 1 && at.Keys == old(at).Keys
    {
      hide StillHeld, Linked, Canonical, MapOk, PagesOk, ZoneIndex, SizeOf, ListOk, ZoneOk, Chunks, ZonesOk;
      z := heads[SPARE];
      PopOk(heads, znext, lists, at, SPARE);
      SpareOut(zones, books, at, zonePages * PAGE, z);
      MapAt(usage, at, ext, large, zonePages, z, FULL);
      heads := heads[SPARE := znext[z]];
      zoneFreeCnt := zoneFreeCnt - 1;
      lists, at, books := lists[SPARE := lists[SPARE][1..]], at[z := FULL], books - {z};
      HeldWithout(old(Now()), Now(), z);
    }

    /** Pages for another zone, entered in the page map. */
    method NewPages() returns (z: int)
      requires Valid()
      modifies this`usage, this`holder, this`ext, this`at, pages
      ensures z == 0 ==> Valid() && pages.runs == old(pages.runs) && at == old(at)
      ensures z == 0 <==> !old(Room(zonePages))
      ensures z != 0 ==> pages.Valid() && Sizes() && PagesOk(pages.runs, holder, ext, lo, hi)
      ensures z != 0 ==> ListsOk(heads, znext, lists, at) && ZonesOk(zones, books, at - {z}, zonePages * PAGE) && MapOk(usage, at, ext, large, zonePages)
      ensures z != 0 ==> 0 < z && z in at && at[z] == FULL && z !in books
      ensures z != 0 ==> LowestOut(old(pages.runs), pages.runs, z, zonePages) && at.Keys == old(at).Keys + {z}
      ensures StillHeld(old(Now()), Now(), {})
    {
      HeldSame(Now(), {});
      hide StillHeld, Linked, Canonical, MapOk, PagesOk, ZoneIndex, SizeOf, ZonesOk, ListsOk, Put, AllFree, Written, SmallPages;
      ghost var runs0, usage0 := pages.runs, usage;
      z := pages.Alloc(zonePages);
      if z == 0 {
        return;
      }
      HeldOk(runs0, pages.runs, holder, ext, lo, hi, z, zonePages);
      SetUsage(z);
      NewSmall(usage0, usage, at, ext, large, zonePages, Held(holder, z, zonePages), lo, hi, pages.runs, z, zones, books);
      LooseIn(heads, znext, lists, at, z);
      NotYetLarge(usage0, at, ext, large, zonePages, z);
      holder, ext, at := Held(holder, z, zonePages), ext[z := zonePages], at[z := FULL];
      HeldElsewhere(old(Now()), Now(), z);
    }

    method SetUsage(z: int)
      modifies this`usage
      ensures SmallPages(usage, z, zonePages) && Written(old(usage), usage, z, zonePages)
    {
      for off := 0 to zonePages
        invariant SmallPages(usage, z, off) && Written(old(usage), usage, z, off)
      {
        usage := usage[z + off := Usage(SmallPage, off)];
      }
    }

    /** Sets up the zone for the given class and hands out its first chunk. */
    method StartZone(z: int, zi: int, n: nat, size: nat) returns (ptr: int)
      requires pages.Valid() && Sizes() && PagesOk(pages.runs, holder, ext, lo, hi)
      requires ListsOk(heads, znext, lists, at) && zoneFreeCnt == |lists[SPARE]| <= 2
      requires ZonesOk(zones, books, at - {z}, zonePages * PAGE) && MapOk(usage, at, ext, large, zonePages)
      requires z in at && at[z] == FULL && z !in books && 0 < z && 0 < size < zoneLimit && (zi, n) == ZoneIndex(size)
      modifies this`zones, this`znext, this`heads, this`lists, this`at, this`books
      ensures Valid() && ptr != 0 && ChunkGrant(zones, old(books), books, z, ptr, size) && z in zones
      ensures zi < |old(lists)| && lists == old(lists)[zi := [z] + old(lists)[zi]] && at.Keys == old(at).Keys
      ensures StillHeld(old(Now()), Now(), {})
    {
      hide StillHeld, ListsOk, ZonesOk, Linked, Canonical, MapOk, PagesOk, ZoneIndex, SizeOf, ListOk, ZoneOk, NewZone, ChunkGrant;
      ClassOk(size);
      Keeps(heads, znext, lists, at, zi, []);
      Keeps(heads, znext, lists, at, zi, [z] + lists[zi]);
      ZoneStarted(zones, books, at, zonePages, z, zi, n, size, usage, pages.runs, holder, ext, large, lo, hi);
      MapAt(usage, at, ext, large, zonePages, z, zi);
      var c := NewZone(z * PAGE, zonePages * PAGE, zi, n);
      ptr := ChunkAt(c, 0);
      zones := zones[z := c];
      books := books[z := Book([], {ptr})];
      HeldZone(old(Now()), Now(), z, {});
      Push(z, zi);
    }

    /** A zone in no list goes to the front of one. */
    method Push(z: int, k: int)
      requires ListsOk(heads, znext, lists, at) && z in at && at[z] == FULL && 0 < z && 0 <= k < |heads| && k < |lists|
      modifies this`znext, this`heads, this`lists, this`at
      ensures ListsOk(heads, znext, lists, at) && k < |heads| && heads[k] == z
      ensures lists == old(lists)[k := [z] + old(lists)[k]] && at == old(at)[z := k]
    {
      hide ListsOk, ListOk;
      PushOk(heads, znext, lists, at, k, z);
      znext := znext[z := heads[k]];
      heads := heads[k := z];
      lists, at := lists[k := [z] + lists[k]], at[z := k];
    }

    /** Requests from zone_limit on: whole pages. */
    method Large(size: nat) returns (ptr: int)
      requires Valid() && size >= zoneLimit
      modifies this`usage, this`holder, this`ext, this`large, pages
      ensures Valid() && (ptr == 0 <==> !old(Fits(size))) && (ptr == 0 ==> large == old(large) && pages.runs == old(pages.runs))
      ensures ptr != 0 ==> PageGrant(old(large), large, ext, ptr / PAGE, ptr, size)
      ensures ptr != 0 ==> LowestOut(old(pages.runs), pages.runs, ptr / PAGE, ext[ptr / PAGE])
      ensures StillHeld(old(Now()), Now(), {})
    {
      HeldSame(Now(), {});
      hide StillHeld, ListsOk, ZonesOk, Linked, Canonical, MapOk, PagesOk, Up, AllFree, Put, Take;
      var n := Up(size, PAGE) / PAGE;
      PagesFor(size);
      ghost var runs0 := pages.runs;
      var b := pages.Alloc(n);
      if b == 0 {
        return 0;
      }
      HeldOk(runs0, pages.runs, holder, ext, lo, hi, b, n);
      NewLarge(usage, at, ext, large, zonePages, holder, runs0, lo, hi, pages.runs, b, n);
      holder, ext, large := Held(holder, b, n), ext[b := n], large + {b};
      usage := usage[b := Usage(LargePage, n)];
      HeldLarge(old(Now()), Now(), b, n);
      return b * PAGE;
    }

    // ---- rt_free ----

    /** rt_free, of NULL, a chunk in use or a large allocation: exactly that is given back. Pages become free
        for a large allocation, and for the last chunk of a zone that is neither alone in its class nor
        among the first two spare ones. */
    method Free(ptr: int, ghost z: int)
      requires Valid() && (ptr == 0 || (z in books && ptr in books[z].live) || (z in large && ptr == z * PAGE))
      modifies this, pages
      ensures Valid() && StillHeld(old(Now()), Now(), {ptr})
      ensures ptr == 0 ==> books == old(books) && large == old(large) && pages.runs == old(pages.runs)
      ensures ptr != 0 && old(z in books && ptr in books[z].live) ==> Chunks(books) == old(Chunks(books)) - {ptr} && large == old(large)
      ensures ptr != 0 && old(z in books && ptr in books[z].live) ==>
                pages.runs == if old(Last(z, ptr)) && old(zoneFreeCnt) == 2 then Put(old(pages.runs), z, zonePages) else old(pages.runs)
      ensures ptr != 0 && old(z in books && ptr in books[z].live) ==>
                zoneFreeCnt == if old(Last(z, ptr)) && old(zoneFreeCnt) < 2 then old(zoneFreeCnt) + 1 else old(zoneFreeCnt)
      ensures ptr != 0 && old(z in books && ptr in books[z].live) ==>
                && z in old(zones) && 0 <= old(zones)[z].zoneIndex < SPARE < |old(lists)|
                && var k, full := old(zones)[z].zoneIndex, old(zones)[z].nfree == 0;
                   var r := if old(Last(z, ptr)) then Retired(Relisted(old(lists), k, z, full), k, z) else Relisted(old(lists), k, z, full);
                   lists == if old(Last(z, ptr)) && old(zoneFreeCnt) < 2 then r[SPARE := [z] + old(lists)[SPARE]] else r
      ensures ptr != 0 && !old(z in books && ptr in books[z].live) ==> lists == old(lists) && at == old(at)
      ensures ptr != 0 && !old(z in books && ptr in books[z].live) ==> books == old(books) && large == old(large) - {z}
      ensures ptr != 0 && !old(z in books && ptr in books[z].live) ==>
                z in old(ext) && pages.runs == Put(old(pages.runs), z, old(ext)[z])
    {
      HeldSame(Now(), {ptr});
      hide StillHeld, ListsOk, ZonesOk, Linked, Canonical, MapOk, PagesOk, ZoneIndex, Put, Chunks;
      if ptr == 0 {
        return;
      }
      Lookup(z, ptr);
      if z in books && ptr in books[z].live { NotLarge(z, ptr); }
      var page := ptr / PAGE;
      if usage[page].kind == LargePage {
        FreeLarge(page);
        return;
      }
      var zone := page - usage[page].size;
      PutBack(zone, ptr);
      ghost var v1 := Now();
      Retire(zone);
      HeldThen(old(Now()), v1, Now(), {ptr}, {}, {ptr});
    }

    /** Another zone of the class has a free chunk. */
    ghost predicate Company(z: int)
      reads this
    {
      z in zones && 0 <= zones[z].zoneIndex < |lists| && HasOther(lists[zones[z].zoneIndex], z)
    }

    /** The only chunk in use of a zone that has company. */
    ghost predicate Last(z: int, ptr: int)
      reads this
    {
      z in books && books[z].live == {ptr} && Company(z)
    }

    lemma NotLarge(z: int, ptr: int)
      requires Valid() && z in books && ptr in books[z].live
      ensures ptr != 0
    {
      hide ListsOk, Linked, Canonical, SmallPages;
      ChunkSpan(zones, books, at, zonePages, z, ptr);
    }

    method FreeLarge(b: int)
      requires Valid() && b in large
      modifies this`usage, this`holder, this`ext, this`large, pages
      ensures Valid() && large == old(large) - {b} && b in old(ext) && pages.runs == Put(old(pages.runs), b, old(ext)[b])
      ensures StillHeld(old(Now()), Now(), {b * PAGE})
    {
      hide StillHeld, ListsOk, ZonesOk, Linked, Canonical, MapOk, PagesOk, Put, NoneFree;
      LargeKnown(b);
      ghost var runs0 := pages.runs;
      var n := usage[b].size;
      OldLarge(usage, at, ext, large, zonePages, holder, pages.runs, lo, hi, b);
      usage := usage[b := usage[b].(size := 0)];
      pages.Release(b, n);
      DroppingOk(runs0, pages.runs, holder, ext, lo, hi, b);
      holder, ext, large := Dropping(holder, b), ext - {b}, large - {b};
      HeldLess(old(Now()), Now(), b);
    }

    lemma LargeKnown(b: int)
      requires Valid() && b in large
      ensures b in usage && b in ext && usage[b] == Usage(LargePage, ext[b]) && 0 < b && 0 < ext[b] && NoneFree(pages.runs, b, ext[b])
    {
      hide ListsOk, ZonesOk, Linked, Canonical, SmallPages;
      ExtentsApart(pages.runs, holder, ext, lo, hi, b, b);
    }

    /** The chunk goes to the free list; a zone that had no free chunk goes back to its list. */
    method PutBack(z: int, ptr: int)
      requires Valid() && z in books && ptr in books[z].live
      modifies this`zones, this`znext, this`heads, this`lists, this`at, this`books
      ensures Valid() && Chunks(books) == old(Chunks(books)) - {ptr} && z in at && at[z] != FULL && at[z] != SPARE && z in zones && z in books
      ensures books[z].live == old(books)[z].live - {ptr} && Company(z) == old(Company(z)) && StillHeld(old(Now()), Now(), {ptr})
      ensures z in old(zones) && 0 <= at[z] < SPARE < |old(lists)| && at[z] == old(zones)[z].zoneIndex
      ensures lists == Relisted(old(lists), at[z], z, old(zones)[z].nfree == 0)
    {
      hide StillHeld, ListsOk, ZonesOk, Linked, Canonical, MapOk, PagesOk, ZoneIndex, SizeOf, ListOk, ZoneOk, Returned, ReturnedBook, Chunks, HasOther;
      ChunkBack(zones, books, at, zonePages, z, ptr, usage, pages.runs, holder, ext, large, lo, hi);
      var c := zones[z];
      var zi := c.zoneIndex;
      MapAt(usage, at, ext, large, zonePages, z, zi);
      assert at[z := at[z]] == at;
      Keeps(heads, znext, lists, at, zi, []);
      if c.nfree == 0 {
        Keeps(heads, znext, lists, at, zi, [z] + lists[zi]);
        AtPositive(heads, znext, lists, at, z);
        InFront(lists[zi], z);
        Push(z, zi);
      }
      ReturnedKeeps(c, books[z], ptr);
      books := books[z := ReturnedBook(books[z], ptr)];
      zones := zones[z := Returned(c, ptr)];
      HeldZone(old(Now()), Now(), z, {ptr});
    }

    /** Whether the zone is the only one of its list. */
    method Alone(z: int, zi: int) returns (alone: bool)
      requires ListsOk(heads, znext, lists, at) && z in at && at[z] == zi && 0 <= zi < NZONES
      ensures 0 <= zi < |lists| && z in lists[zi] && (alone <==> lists[zi] == [z])
    {
      ListedOk(heads, znext, lists, at, z);
      alone := !(znext[z] != 0 || heads[zi] != z);
    }

    /** The loop that takes the zone out of its list. */
    method Unhook(z: int, zi: int)
      requires ListsOk(heads, znext, lists, at) && z in at && at[z] == zi && 0 <= zi < NZONES && zoneFreeCnt == |lists[SPARE]|
      modifies this`znext, this`heads, this`lists, this`at
      ensures ListsOk(heads, znext, lists, at) && at == old(at)[z := FULL] && zoneFreeCnt == |lists[SPARE]| && lists[SPARE] == old(lists)[SPARE]
      ensures zi < |old(lists)| && lists == old(lists)[zi := Without(old(lists)[zi], z)]
    {
      hide ListsOk, ListOk, Chain, Store, Read, Front, Without, Dropped;
      Keeps(heads, znext, lists, at, zi, []);
      ghost var s := lists[zi];
      ghost var k := Find(heads, znext, lists, at, z);
      ListHead(heads, znext, lists, at, zi);
      var pz := 0;
      ghost var i: nat := 0;
      ChainRead(znext, heads[zi], s, 0);
      FrontFirst(s);
      while Read(znext, heads[zi], pz) != z
        modifies {}
        invariant i <= k && pz == Front(s, i) && Read(znext, heads[zi], pz) == s[i]
        decreases k - i
      {
        NextPlace(znext, heads[zi], s, i, k);
        pz := Read(znext, heads[zi], pz);
        i := i + 1;
      }
      DropOk(heads, znext, lists, at, zi, i);
      InOrder(heads, znext, lists, at, zi);
      WithoutIndex(s, i);
      Keeps(heads, znext, lists, at, zi, Dropped(s, i));
      if pz == 0 {
        heads := heads[zi := znext[z]];
      }
      znext := Store(znext, pz, znext[z]);
      lists, at := lists[zi := Dropped(s, i)], at[z := FULL];
    }

    /** A wholly free zone that is not the only one of its list goes to zone_free; the third zone there
        gives its pages back. */
    method Retire(z: int)
      requires Valid() && z in at && at[z] != FULL && at[z] != SPARE && z in zones && z in books
      modifies this, pages
      ensures Valid() && Chunks(books) == old(Chunks(books)) && large == old(large) && StillHeld(old(Now()), Now(), {})
      ensures !old(books[z].live == {} && Company(z)) ==> at == old(at) && books == old(books) && zones == old(zones)
      ensures !old(books[z].live == {} && Company(z)) ==> lists == old(lists) && zoneFreeCnt == old(zoneFreeCnt) && pages.runs == old(pages.runs)
      ensures old(books[z].live == {} && Company(z)) ==>
                if old(zoneFreeCnt) < 2
                then at == old(at)[z := SPARE] && books == old(books) && zoneFreeCnt == old(zoneFreeCnt) + 1 && pages.runs == old(pages.runs)
                else at == old(at) - {z} && books == old(books) - {z} && zoneFreeCnt == 2 && pages.runs == Put(old(pages.runs), z, zonePages)
      ensures old(books[z].live == {} && Company(z)) ==>
                && 0 <= old(at)[z] < SPARE < |old(lists)|
                && lists == if old(zoneFreeCnt) < 2 then Retired(old(lists), old(at)[z], z)[SPARE := [z] + old(lists)[SPARE]]
                            else Retired(old(lists), old(at)[z], z)
    {
      HeldSame(Now(), {});
      hide StillHeld, ListsOk, ZonesOk, Linked, Canonical, MapOk, PagesOk, ZoneIndex, SizeOf, ListOk, ZoneOk, Chunks, Put;
      ZoneFacts(zones, books, at, zonePages * PAGE, z);
      var zi := zones[z].zoneIndex;
      var alone := Alone(z, zi);
      OnlyOne(heads, znext, lists, at, z);
      if zones[z].nfree == zones[z].nmax && !alone {
        ToSpare(z, zi);
        ghost var v1 := Now();
        if zoneFreeCnt > 2 {
          GiveUp();
          HeldThen(old(Now()), v1, Now(), {}, {}, {});
        }
      }
    }

    /** In a list of distinct zones, company is another member. */
    lemma OnlyOne(heads: seq<int>, znext: map<int, int>, lists: seq<seq<int>>, at: map<int, int>, z: int)
      requires ListsOk(heads, znext, lists, at) && z in at && 0 <= at[z] < NZONES
      ensures |lists| == NZONES + 1 && z in lists[at[z]] && (lists[at[z]] != [z] <==> HasOther(lists[at[z]], z))
    {
      ListedOk(heads, znext, lists, at, z);
      assert ListOk(heads[at[z]], znext, lists[at[z]], at[z], at);
      var s := lists[at[z]];
      if s != [z] {
        var y := if s[0] == z then s[1] else s[0];
        assert y in s && y != z;
      }
    }

    /** All of the invariant but the limit on zone_free. */
    ghost predicate Crowded()
      reads this, pages
    {
      && pages.Valid() && Sizes() && PagesOk(pages.runs, holder, ext, lo, hi)
      && ListsOk(heads, znext, lists, at) && zoneFreeCnt == |lists[SPARE]| <= 3
      && ZonesOk(zones, books, at, zonePages * PAGE) && MapOk(usage, at, ext, large, zonePages)
    }

    method ToSpare(z: int, zi: int)
      requires Valid() && z in at && at[z] == zi && 0 <= zi < NZONES && z in zones && z in books && books[z].live == {}
      modifies this`zones, this`znext, this`heads, this`lists, this`at, this`zoneFreeCnt
      ensures Crowded() && at == old(at)[z := SPARE] && heads[SPARE] == z && zoneFreeCnt == old(zoneFreeCnt) + 1
      ensures zi < SPARE < |old(lists)| && lists == Retired(old(lists), zi, z)[SPARE := [z] + old(lists)[SPARE]]
      ensures StillHeld(old(Now()), Now(), {})
    {
      hide StillHeld, ListsOk, ZonesOk, Linked, Canonical, MapOk, PagesOk, ZoneIndex, SizeOf, ListOk, ZoneOk;
      Idle(zones, books, at, zonePages * PAGE, z);
      MapAt(usage, at, ext, large, zonePages, z, SPARE);
      AtPositive(heads, znext, lists, at, z);
      ghost var at0 := at;
      Unhook(z, zi);
      zones := zones[z := zones[z].(magic := false)];
      Keeps(heads, znext, lists, at, 0, []);
      assert at0[z := FULL][z := SPARE] == at0[z := SPARE];
      Push(z, SPARE);
      zoneFreeCnt := zoneFreeCnt + 1;
      assert books[z := books[z]] == books;
      HeldZone(old(Now()), Now(), z, {});
    }

    /** The first zone of zone_free gives its pages back. */
    method GiveUp()
      requires Crowded() && zoneFreeCnt > 2
      modifies this, pages
      ensures Valid() && Chunks(books) == old(Chunks(books)) && large == old(large) && StillHeld(old(Now()), Now(), {})
      ensures var z := old(heads[SPARE]); at == old(at) - {z} && books == old(books) - {z} && pages.runs == Put(old(pages.runs), z, zonePages)
      ensures zoneFreeCnt == old(zoneFreeCnt) - 1
      ensures SPARE < |old(lists)| && old(lists)[SPARE] != [] && lists == old(lists)[SPARE := old(lists)[SPARE][1..]]
    {
      hide StillHeld, ListsOk, ZonesOk, Linked, Canonical, MapOk, PagesOk, ZoneIndex, SizeOf, ZoneOk, Chunks, Put;
      Keeps(heads, znext, lists, at, 0, []);
      ListHead(heads, znext, lists, at, SPARE);
      var z := TakeSpare();
      ghost var v1 := Now();
      GivePages(z);
      assert old(at)[z := FULL] - {z} == old(at) - {z};
      HeldThen(old(Now()), v1, Now(), {}, {}, {});
    }

    /** The pages of a zone in no list become free. */
    method GivePages(z: int)
      requires pages.Valid() && Sizes() && PagesOk(pages.runs, holder, ext, lo, hi)
      requires ListsOk(heads, znext, lists, at) && zoneFreeCnt == |lists[SPARE]| <= 2
      requires ZonesOk(zones, books, at - {z}, zonePages * PAGE) && MapOk(usage, at, ext, large, zonePages)
      requires z in at && at[z] == FULL
      modifies this`usage, this`holder, this`ext, this`at, pages
      ensures Valid() && at == old(at) - {z} && ext == old(ext) - {z} && pages.runs == Put(old(pages.runs), z, zonePages)
      ensures StillHeld(old(Now()), Now(), {}) && forall p :: z <= p < z + zonePages ==> p in usage && usage[p] == Usage(FreePage, 0)
    {
      hide StillHeld, ListsOk, ZonesOk, Linked, Canonical, MapOk, PagesOk, ZoneIndex, SizeOf, ZoneOk, Put, Written;
      LooseOk(heads, znext, lists, at, z, 0);
      ZonePages(usage, at, ext, large, zonePages, holder, pages.runs, lo, hi, z);
      ghost var usage0, runs0 := usage, pages.runs;
      ClearUsage(z);
      pages.Release(z, zonePages);
      DroppingOk(runs0, pages.runs, holder, ext, lo, hi, z);
      OldSmall(usage0, usage, at, ext, large, zonePages, holder, runs0, lo, hi, z);
      at := at - {z};
      holder, ext := Dropping(holder, z), ext - {z};
      HeldElsewhere(old(Now()), Now(), z);
    }

    method ClearUsage(z: int)
      modifies this`usage
      ensures Written(old(usage), usage, z, zonePages) && forall p :: z <= p < z + zonePages ==> p in usage && usage[p] == Usage(FreePage, 0)
    {
      for i := 0 to zonePages
        invariant Written(old(usage), usage, z, i) && forall p :: z <= p < z + i ==> p in usage && usage[p] == Usage(FreePage, 0)
      {
        usage := usage[z + i := Usage(FreePage, 0)];
      }
    }
  }

  lemma Idle(zones: map<int, Zone>, books: map<int, Book>, at: map<int, int>, zoneSize: nat, z: int)
    requires ZonesOk(zones, books, at, zoneSize) && z in at && z in zones && z in books && books[z].live == {}
    ensures ZonesOk(zones[z := zones[z].(magic := false)], books, at[z := SPARE], zoneSize)
  {
    hide Active;
    assert books[z := books[z]] == books;
    ZoneChange(zones, books, at, zoneSize, z, zones[z].(magic := false), books[z], SPARE);
  }

  lemma ZonePages(usage: map<int, Usage>, at: map<int, int>, ext: map<int, nat>, large: set<int>, zonePages: nat, holder: map<int, int>,
                  runs: seq<Run>, lo: int, hi: int, z: int)
    requires MapOk(usage, at, ext, large, zonePages) && PagesOk(runs, holder, ext, lo, hi) && z in at
    ensures z in ext && ext[z] == zonePages && z !in large && 0 < z && 0 < zonePages && NoneFree(runs, z, zonePages)
  {
    hide SmallPages, NoneFree;
    ExtentsApart(runs, holder, ext, lo, hi, z, z);
  }

  lemma OldSmall(usage: map<int, Usage>, usage2: map<int, Usage>, at: map<int, int>, ext: map<int, nat>, large: set<int>, zonePages: nat,
                 holder: map<int, int>, runs: seq<Run>, lo: int, hi: int, z: int)
    requires MapOk(usage, at, ext, large, zonePages) && PagesOk(runs, holder, ext, lo, hi) && z in at && Written(usage, usage2, z, zonePages)
    ensures MapOk(usage2, at - {z}, ext - {z}, large, zonePages)
  {
    hide PagesOk, SmallPages, Written;
    assert large - {z} == large;
    MapKept(usage, usage2, runs, holder, at, ext, large, zonePages, lo, hi, z);
  }

  lemma ListedOk(heads: seq<int>, znext: map<int, int>, lists: seq<seq<int>>, at: map<int, int>, z: int)
    requires ListsOk(heads, znext, lists, at) && z in at && 0 <= at[z] < NZONES
    ensures z in znext && z in lists[at[z]] && (znext[z] != 0 || heads[at[z]] != z <==> lists[at[z]] != [z])
  {
    var s := lists[at[z]];
    assert ListOk(heads[at[z]], znext, s, at[z], at);
    var i :| 0 <= i < |s| && s[i] == z;
    assert s[i] in znext && znext[s[i]] == Behind(s, i);
    if |s| > 1 && i == 0 { assert s[1] in s; }
  }

  lemma Find(heads: seq<int>, znext: map<int, int>, lists: seq<seq<int>>, at: map<int, int>, z: int) returns (k: nat)
    requires ListsOk(heads, znext, lists, at) && z in at && 0 <= at[z] < NZONES
    ensures k < |lists[at[z]]| && lists[at[z]][k] == z
  {
    k :| k < |lists[at[z]]| && lists[at[z]][k] == z;
  }

  lemma NextPlace(znext: map<int, int>, head: int, s: seq<int>, i: nat, k: nat)
    requires Chain(znext, head, s) && i <= k < |s| && Read(znext, head, Front(s, i)) == s[i] && s[i] != s[k]
    ensures i < k && s[i] == Front(s, i + 1) && Read(znext, head, Front(s, i + 1)) == s[i + 1]
  {
    ChainRead(znext, head, s, i + 1);
  }

  lemma NotYetLarge(usage: map<int, Usage>, at: map<int, int>, ext: map<int, nat>, large: set<int>, zonePages: nat, z: int)
    requires MapOk(usage, at, ext, large, zonePages) && z !in ext
    ensures z !in large
  {
    hide SmallPages;
  }

  lemma PagesFor(size: nat)
    requires 0 < size
    ensures var n := Up(size, PAGE) / PAGE; 0 < n && size <= n * PAGE < size + PAGE
  {
    var q := UpSteps(size, PAGE);
  }

  lemma NewLarge(usage: map<int, Usage>, at: map<int, int>, ext: map<int, nat>, large: set<int>, zonePages: nat, holder: map<int, int>,
                 runs: seq<Run>, lo: int, hi: int, runs2: seq<Run>, b: int, n: nat)
    requires MapOk(usage, at, ext, large, zonePages) && PagesOk(runs2, Held(holder, b, n), ext[b := n], lo, hi) && b !in ext && 0 < n
    ensures MapOk(usage[b := Usage(LargePage, n)], at, ext[b := n], large + {b}, zonePages) && b !in large && b !in at
  {
    hide PagesOk, Held, SmallPages;
    var usage2 := usage[b := Usage(LargePage, n)];
    assert at - {b} == at && large - {b} == large;
    assert MapOk(usage, at - {b}, ext[b := n], large - {b}, zonePages);
    assert Written(usage, usage2, b, n);
    MapKept(usage, usage2, runs2, Held(holder, b, n), at, ext[b := n], large, zonePages, lo, hi, b);
  }

  /** Lists other than zone_free keep it and its length. */
  lemma Keeps(heads: seq<int>, znext: map<int, int>, lists: seq<seq<int>>, at: map<int, int>, zi: int, s: seq<int>)
    requires ListsOk(heads, znext, lists, at) && 0 <= zi < NZONES
    ensures |heads| == NZONES + 1 && |lists| == NZONES + 1 && lists[zi := s][SPARE] == lists[SPARE]
  {
  }

  lemma MapAt(usage: map<int, Usage>, at: map<int, int>, ext: map<int, nat>, large: set<int>, zonePages: nat, z: int, k: int)
    requires MapOk(usage, at, ext, large, zonePages) && z in at
    ensures MapOk(usage, at[z := k], ext, large, zonePages)
  {
    hide SmallPages;
  }

  /** Entering a zone in no list. */
  lemma LooseIn(heads: seq<int>, znext: map<int, int>, lists: seq<seq<int>>, at: map<int, int>, z: int)
    requires ListsOk(heads, znext, lists, at) && 0 < z && z !in at
    ensures ListsOk(heads, znext, lists, at[z := FULL])
  {
    hide Chain;
    forall j | 0 <= j < |heads| ensures ListOk(heads[j], znext, lists[j], j, at[z := FULL]) {
      assert ListOk(heads[j], znext, lists[j], j, at);
    }
  }

  lemma SpareOut(zones: map<int, Zone>, books: map<int, Book>, at: map<int, int>, zoneSize: nat, z: int)
    requires ZonesOk(zones, books, at, zoneSize) && z in at && at[z] == SPARE
    ensures ZonesOk(zones, books - {z}, at[z := FULL] - {z}, zoneSize) && Chunks(books - {z}) == Chunks(books)
    ensures z in books && books[z].live == {}
  {
    hide Chunks, Active;
    assert ZoneHere(z, zones, books, at, zoneSize);
    ZoneGone(zones, books, at, zoneSize, z);
    ChunksGone(books, z);
    assert at[z := FULL] - {z} == at - {z};
  }

  lemma NewSmall(usage: map<int, Usage>, usage2: map<int, Usage>, at: map<int, int>, ext: map<int, nat>, large: set<int>, zonePages: nat,
                 holder: map<int, int>, lo: int, hi: int, runs: seq<Run>, z: int, zones: map<int, Zone>, books: map<int, Book>)
    requires MapOk(usage, at, ext, large, zonePages) && PagesOk(runs, holder, ext[z := zonePages], lo, hi) && z !in ext && 0 < zonePages
    requires SmallPages(usage2, z, zonePages) && Written(usage, usage2, z, zonePages) && ZonesOk(zones, books, at, zonePages * PAGE)
    ensures MapOk(usage2, at[z := FULL], ext[z := zonePages], large, zonePages)
    ensures z !in at && z !in books && ZonesOk(zones, books, at[z := FULL] - {z}, zonePages * PAGE) && 0 < z
  {
    hide SmallPages, ZoneHere;
    var e := ext[z := zonePages];
    assert at - {z} == at && large - {z} == large;
    assert MapOk(usage, at - {z}, e, large - {z}, zonePages);
    MapKept(usage, usage2, runs, holder, at, e, large, zonePages, lo, hi, z);
    ExtentsApart(runs, holder, e, lo, hi, z, z);
    assert at[z := FULL] - {z} == at;
  }

  /** One chunk taken from a zone with nfree > 0. */
  lemma ChunkTaken(zones: map<int, Zone>, books: map<int, Book>, at: map<int, int>, zonePages: nat, z: int, zi: int, size: nat, usage: map<int, Usage>,
                   runs: seq<Run>, holder: map<int, int>, ext: map<int, nat>, large: set<int>, lo: int, hi: int)
    requires ZonesOk(zones, books, at, zonePages * PAGE) && MapOk(usage, at, ext, large, zonePages) && PagesOk(runs, holder, ext, lo, hi)
    requires z in at && 0 < size < 16384 && zi == ZoneIndex(size).0 && at[z] == zi && 0 <= zi < NZONES
    ensures z in zones && z in books
    ensures var c, b := Taken(zones[z]).0, TakenBook(zones[z], books[z]);
            ZonesOk(zones[z := c], books[z := b], if c.nfree == 0 then at[z := FULL] else at, zonePages * PAGE)
    ensures Taken(zones[z]).1 != 0
    ensures ChunkGrant(zones[z := Taken(zones[z]).0], books, books[z := TakenBook(zones[z], books[z])], z, Taken(zones[z]).1, size)
  {
    hide Chunks, ZoneIndex, SizeOf, Taken, TakenBook, PagesOk, MapOk, ZoneOk;
    assert ZoneHere(z, zones, books, at, zonePages * PAGE);
    TakenOk(zones[z], z * PAGE, zonePages * PAGE, books[z]);
    ClassOk(size);
    var (c, ptr) := Taken(zones[z]);
    var b, k := TakenBook(zones[z], books[z]), if c.nfree == 0 then FULL else at[z];
    ZoneChange(zones, books, at, zonePages * PAGE, z, c, b, k);
    assert at[z := at[z]] == at;
    HomesOk(zones, books, at, zonePages, usage, runs, holder, ext, large, lo, hi);
    MapAt(usage, at, ext, large, zonePages, z, k);
    HomesOk(zones[z := c], books[z := b], at[z := k], zonePages, usage, runs, holder, ext, large, lo, hi);
    ChunkSpan(zones[z := c], books[z := b], at[z := k], zonePages, z, ptr);
    ChunksChange(books, z, b);
    TakenLive(zones[z], books[z]);
    NewChunk(books, z, b, ptr);
  }

  lemma TakenKeeps(z: Zone, b: Book)
    ensures Taken(z).0.chunkSize == z.chunkSize && b.live <= TakenBook(z, b).live
  {
  }

  lemma TakenLive(z: Zone, b: Book)
    ensures TakenBook(z, b).live == b.live + {Taken(z).1}
  {
    hide Taken;
  }

  lemma NewChunk(books: map<int, Book>, z: int, b: Book, ptr: int)
    requires z in books && ptr in b.live && ptr !in books[z].live && OneHome(books[z := b])
    ensures ptr !in Chunks(books)
  {
    var n := books[z := b];
    forall y | y in books ensures ptr !in books[y].live {
      if y != z { assert n[y] == books[y] && n[z] == b; }
    }
  }

  lemma ZoneStarted(zones: map<int, Zone>, books: map<int, Book>, at: map<int, int>, zonePages: nat, z: int, zi: int, n: nat, size: nat,
                    usage: map<int, Usage>, runs: seq<Run>, holder: map<int, int>, ext: map<int, nat>, large: set<int>, lo: int, hi: int)
    requires ZonesOk(zones, books, at - {z}, zonePages * PAGE) && MapOk(usage, at, ext, large, zonePages) && PagesOk(runs, holder, ext, lo, hi)
    requires z in at && z !in books && 0 < z && 0 < size < 16384 && (zi, n) == ZoneIndex(size) && 4 * n <= zonePages * PAGE && 8 <= zonePages
    ensures 8 <= n <= 16384 && var c := NewZone(z * PAGE, zonePages * PAGE, zi, n); var ptr := ChunkAt(c, 0);
            && ZonesOk(zones[z := c], books[z := Book([], {ptr})], at[z := zi], zonePages * PAGE)
            && ptr != 0 && ChunkGrant(zones[z := c], books, books[z := Book([], {ptr})], z, ptr, size)
  {
    hide Chunks, ZoneIndex, SizeOf, PagesOk, MapOk, ZoneOk, NewZone;
    ClassOk(size);
    NewZoneOk(z * PAGE, zonePages * PAGE, zi, n);
    var c := NewZone(z * PAGE, zonePages * PAGE, zi, n);
    var ptr := ChunkAt(c, 0);
    var b := Book([], {ptr});
    assert (at - {z})[z := zi] == at[z := zi];
    ZoneChange(zones, books, at - {z}, zonePages * PAGE, z, c, b, zi);
    MapAt(usage, at, ext, large, zonePages, z, zi);
    HomesOk(zones[z := c], books[z := b], at[z := zi], zonePages, usage, runs, holder, ext, large, lo, hi);
    ChunkSpan(zones[z := c], books[z := b], at[z := zi], zonePages, z, ptr);
    ChunksNew(books, z, b);
    FirstChunk(books, z, b, ptr);
  }

  lemma FirstChunk(books: map<int, Book>, z: int, b: Book, ptr: int)
    requires z !in books && ptr in b.live && OneHome(books[z := b])
    ensures ptr !in Chunks(books)
  {
    var n := books[z := b];
    forall y | y in books ensures ptr !in books[y].live {
      if y != z { assert n[y] == books[y] && n[z] == b; }
    }
  }

  /** The loop that sets zone_size. */
  method ZoneSizeFor(limsize: nat) returns (size: nat)
    ensures size == 32768 || size == 65536 || size == 131072
    ensures size > 32768 ==> size < limsize / 1024
    ensures size < 131072 ==> size * 2 >= limsize / 1024
  {
    size := 32768;
    while size < 131072 && size * 2 < limsize / 1024
      invariant size == 32768 || size == 65536 || size == 131072
      invariant size > 32768 ==> size < limsize / 1024
      decreases 131072 - size
    {
      size := size * 2;
    }
  }

  /** rt_page_init, and the pages of memusage. */
  method PagesWithMap(first: nat, npages: nat) returns (all: PageAllocator, m: int, n: nat)
    requires 0 < first && 0 < npages
    ensures fresh(all) && all.Valid() && n * PAGE >= npages * 4
    ensures PagesOk(all.runs, Held(map[], m, n), map[m := n], first, first + npages)
  {
    hide Canonical, Linked, PagesOk, Held, Put, Up;
    all := new PageAllocator(first, npages);
    ghost var runs0 := all.runs;
    PagesFor(npages * 4);
    n := Up(npages * 4, PAGE) / PAGE;
    assert AllFree(all.runs, first, n);
    m := all.Alloc(n);
    FirstHeld(runs0, all.runs, first, first + npages, m, n);
  }

  lemma SizesOk(zoneSize: nat, zonePages: nat, zoneLimit: nat)
    requires zoneSize == 32768 || zoneSize == 65536 || zoneSize == 131072
    requires zonePages == zoneSize / PAGE && zoneLimit == if zoneSize / 4 > 16384 then 16384 else zoneSize / 4
    ensures 8 <= zonePages && zonePages * PAGE == zoneSize && 0 < zoneLimit <= 16384 && 4 * zoneLimit <= zoneSize
    ensures forall n :: 0 < n < zoneLimit ==> 4 * ZoneIndex(n).1 <= zoneSize
  {
    hide ZoneIndex;
    forall n | 0 < n < zoneLimit ensures 4 * ZoneIndex(n).1 <= zoneSize { ClassOk(n); }
  }

  function NoHeads(): seq<int> {
    seq(NZONES + 1, _ => 0)
  }

  ghost function NoLists(): seq<seq<int>> {
    seq(NZONES + 1, _ => [])
  }

  lemma NoZones(zonePages: nat, m: int, n: nat)
    ensures ListsOk(NoHeads(), map[], NoLists(), map[]) && |NoLists()| == NZONES + 1 && forall k :: 0 <= k < |NoLists()| ==> NoLists()[k] == []
    ensures ZonesOk(map[], map[], map[], zonePages * PAGE) && MapOk(map[], map[], map[m := n], {}, zonePages)
  {
  }

  lemma FirstHeld(runs: seq<Run>, runs2: seq<Run>, lo: int, hi: int, b: int, n: nat)
    requires 0 < lo && (forall p :: Free(runs, p) <==> lo <= p < hi) && AllFree(runs, b, n) && 0 < n
    requires forall p :: Free(runs2, p) <==> Free(runs, p) && !(b <= p < b + n)
    ensures PagesOk(runs2, Held(map[], b, n), map[b := n], lo, hi)
  {
    hide Free, Held;
    assert PagesOk(runs, map[], map[], lo, hi);
    HeldOk(runs, runs2, map[], map[], lo, hi, b, n);
  }

  lemma OldLarge(usage: map<int, Usage>, at: map<int, int>, ext: map<int, nat>, large: set<int>, zonePages: nat, holder: map<int, int>,
                 runs: seq<Run>, lo: int, hi: int, b: int)
    requires MapOk(usage, at, ext, large, zonePages) && PagesOk(runs, holder, ext, lo, hi) && b in large
    ensures b in usage && MapOk(usage[b := usage[b].(size := 0)], at, ext - {b}, large - {b}, zonePages)
  {
    hide PagesOk, SmallPages;
    var usage2 := usage[b := usage[b].(size := 0)];
    assert at - {b} == at;
    ExtentsApart(runs, holder, ext, lo, hi, b, b);
    assert b in ext && Written(usage, usage2, b, ext[b]) by { ExtPositive(runs, holder, ext, lo, hi, b); }
    MapKept(usage, usage2, runs, holder, at, ext, large, zonePages, lo, hi, b);
  }

  lemma ExtPositive(runs: seq<Run>, holder: map<int, int>, ext: map<int, nat>, lo: int, hi: int, b: int)
    requires PagesOk(runs, holder, ext, lo, hi) && b in ext
    ensures 0 < ext[b]
  {
  }

  lemma AtPositive(heads: seq<int>, znext: map<int, int>, lists: seq<seq<int>>, at: map<int, int>, z: int)
    requires ListsOk(heads, znext, lists, at) && z in at
    ensures 0 < z
  {
  }

  lemma ZoneFacts(zones: map<int, Zone>, books: map<int, Book>, at: map<int, int>, zoneSize: nat, z: int)
    requires ZonesOk(zones, books, at, zoneSize) && z in at && at[z] != FULL && at[z] != SPARE
    ensures z in zones && z in books && at[z] == zones[z].zoneIndex && 0 <= at[z] < NZONES
    ensures zones[z].nfree == zones[z].nmax <==> books[z].live == {}
  {
    hide ZoneOk;
    assert ZoneHere(z, zones, books, at, zoneSize);
    AllBack(zones[z], z * PAGE, zoneSize, books[z]);
  }

  /** A chunk given back to its zone. */
  lemma ChunkBack(zones: map<int, Zone>, books: map<int, Book>, at: map<int, int>, zonePages: nat, z: int, ptr: int, usage: map<int, Usage>,
                  runs: seq<Run>, holder: map<int, int>, ext: map<int, nat>, large: set<int>, lo: int, hi: int)
    requires ZonesOk(zones, books, at, zonePages * PAGE) && MapOk(usage, at, ext, large, zonePages) && PagesOk(runs, holder, ext, lo, hi)
    requires z in books && ptr in books[z].live
    ensures z in zones && z in at && at[z] != SPARE && 0 <= zones[z].zoneIndex < NZONES
    ensures (zones[z].nfree == 0 ==> at[z] == FULL) && (zones[z].nfree != 0 ==> at[z] == zones[z].zoneIndex)
    ensures ZonesOk(zones[z := Returned(zones[z], ptr)], books[z := ReturnedBook(books[z], ptr)], at[z := zones[z].zoneIndex], zonePages * PAGE)
    ensures Chunks(books[z := ReturnedBook(books[z], ptr)]) == Chunks(books) - {ptr}
  {
    hide Chunks, SizeOf, PagesOk, MapOk, ZoneOk, Returned;
    assert ZoneHere(z, zones, books, at, zonePages * PAGE);
    ReturnedOk(zones[z], z * PAGE, zonePages * PAGE, books[z], ptr);
    NfreeRange(zones[z], z * PAGE, zonePages * PAGE, books[z]);
    var c, b, k := Returned(zones[z], ptr), ReturnedBook(books[z], ptr), zones[z].zoneIndex;
    ZoneChange(zones, books, at, zonePages * PAGE, z, c, b, k);
    HomesOk(zones, books, at, zonePages, usage, runs, holder, ext, large, lo, hi);
    MapAt(usage, at, ext, large, zonePages, z, k);
    HomesOk(zones[z := c], books[z := b], at[z := k], zonePages, usage, runs, holder, ext, large, lo, hi);
    ChunksChange(books, z, b);
  }

  lemma InFront(s: seq<int>, z: int)
    ensures HasOther([z] + s, z) <==> HasOther(s, z)
  {
    if HasOther(s, z) {
      var y :| y in s && y != z;
      assert y in [z] + s;
    }
  }

  /** Two requests and a release of anything else in between: their areas do not overlap. */
  method TwoRequests(h: SlabHeap, n: nat, m: nat, other: int, ghost x: int) returns (p: int, q: int)
    requires h.Valid() && (other == 0 || (x in h.books && other in h.books[x].live) || (x in h.large && other == x * PAGE))
    modifies h, h.pages
    ensures h.Valid() && (p != 0 && q != 0 && p != other ==> p + n <= q || q + m <= p)
  {
    hide Chunks, StillHeld, ListsOk, ZonesOk, MapOk, PagesOk, Linked, Canonical, ZoneIndex;
    ghost var y, z;
    ghost var u := h.Now();
    p, y := h.Malloc(n);
    if other != 0 { StillThere(u, h.Now(), x, other); }
    ghost var v := h.Now();
    h.Free(other, x);
    ghost var w := h.Now();
    if p != 0 && p != other { h.GrantKept(v, {other}, y, p, n); }
    q, z := h.Malloc(m);
    if p != 0 && q != 0 && p != other {
      h.GrantKept(w, {}, y, p, n);
      h.LargeOrZone();
      NewArea(w, h.Now(), y, p, z, q, m);
      h.AreasApart(y, p, n, z, q, m);
    }
  }

  lemma NewArea(v: Stock, w: Stock, y: int, p: int, z: int, q: int, m: nat)
    requires (y in v.books && p in v.books[y].live) || (y in v.large && p == y * PAGE)
    requires (ChunkGrant(w.zones, v.books, w.books, z, q, m) && w.large == v.large) || (PageGrant(v.large, w.large, w.ext, z, q, m) && w.books == v.books)
    requires forall x :: x in w.large ==> x !in w.books
    ensures y != z || p != q
  {
    assert y in v.books && p in v.books[y].live ==> p in Chunks(v.books);
  }

  lemma StillThere(v: Stock, w: Stock, x: int, ptr: int)
    requires StillHeld(v, w, {}) && ((x in v.books && ptr in v.books[x].live) || (x in v.large && ptr == x * PAGE))
    ensures (x in w.books && ptr in w.books[x].live) || (x in w.large && ptr == x * PAGE)
  {
  }

  lemma ReturnedKeeps(z: Zone, b: Book, ptr: int)
    ensures Returned(z, ptr).chunkSize == z.chunkSize && Returned(z, ptr).zoneIndex == z.zoneIndex
    ensures ReturnedBook(b, ptr).live == b.live - {ptr}
  {
  }

  lemma NfreeRange(z: Zone, at: int, zoneSize: nat, b: Book)
    requires ZoneOk(z, at, zoneSize, b)
    ensures 0 <= z.nfree
  {
  }
}

