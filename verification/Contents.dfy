/** Live areas of a block heap and the bytes in them, for headers of any size. */
module Contents {
  import opened Layout
  import opened RtList

  /** The bytes of the pool by address. */
  type Memory = map<int, int>

  function Byte(m: Memory, a: int): int {
    if a in m then m[a] else 0
  }

  /** rt_memcpy of count bytes between areas that do not overlap. */
  function Copy(m: Memory, to: int, from: int, count: nat): (r: Memory)
    ensures forall a :: to <= a < to + count ==> Byte(r, a) == Byte(m, from + (a - to))
    ensures forall a :: a < to || to + count <= a ==> Byte(r, a) == Byte(m, a)
  {
    if count == 0 then m
    else
      var last := count - 1;
      var r := Copy(m, to, from, last);
      var w := r[to + last := Byte(m, from + last)];
      assert forall a :: a != to + last ==> Byte(w, a) == Byte(r, a);
      assert Byte(w, to + last) == Byte(m, from + last);
      w
  }

  /** Data that stays allocated keeps its bytes, up to the smaller size. */
  ghost predicate Preserved(s: Heap, t: Heap, m: Memory, m': Memory, h: nat) {
    forall p, n, k, a :: Live(s, h, p, n) && Live(t, h, p, k) && p <= a < p + n && a < p + k ==> Byte(m', a) == Byte(m, a)
  }

  /** One more live area, n bytes at p. */
  ghost predicate Added(s: Heap, t: Heap, p: int, n: int, h: nat) {
    forall q, k :: Live(t, h, q, k) <==> Live(s, h, q, k) || (q == p && k == n)
  }

  ghost predicate Removed(s: Heap, t: Heap, p: int, h: nat) {
    forall q, k :: Live(t, h, q, k) <==> Live(s, h, q, k) && q != p
  }

  /** Area p has become area q of k bytes, with the first n bytes of p, as far as they fit; every other
      live area and its bytes are as before. */
  ghost predicate Resized(s: Heap, t: Heap, p: int, n: int, q: int, k: int, m: Memory, m': Memory, h: nat) {
    && (forall x, l :: Live(t, h, x, l) <==> if x == q then l == k else Live(s, h, x, l) && x != p)
    && (forall x, l, a :: Live(s, h, x, l) && x != p && x <= a < x + l ==> Byte(m', a) == Byte(m, a))
    && (forall a :: q <= a < q + n && a < q + k ==> Byte(m', a) == Byte(m, p + (a - q)))
  }

  lemma SamePreserved(s: Heap, m: Memory, h: nat)
    ensures Preserved(s, s, m, m, h)
  {
  }

  // ---- header fields and the bytes they occupy ----

  /** The header fields of all blocks: links, free-list links where there are any, and the used mark. */
  datatype Headers = Headers(phys: Links, list: Links, tag: map<int, bool>)

  /** No field of a header at address x differs. */
  predicate SameAt(f: Headers, g: Headers, x: int) {
    SameNode(f.phys, g.phys, x) && SameNode(f.list, g.list, x) && (x in f.tag <==> x in g.tag) &&
    (x in f.tag && x in g.tag ==> f.tag[x] == g.tag[x])
  }

  /** Fields were written in headers at these addresses only. */
  ghost predicate Wrote(f: Headers, g: Headers, w: set<int>) {
    forall x :: x !in w ==> SameAt(f, g, x)
  }

  ghost function Heads(s: Heap): set<int> {
    set x | x in Ats(s)
  }

  /** Byte a belongs to a header of h bytes that was written; the header at skip lies outside the pool. */
  predicate Hit(f: Headers, g: Headers, a: int, h: nat, skip: int) {
    exists x :: a - h < x <= a && x != skip && !SameAt(f, g, x)
  }

  /** The memory after the fields changed from f to g: every byte of a header that was written is lost. */
  function Clobber(m: Memory, f: Headers, g: Headers, h: nat, skip: int): Memory {
    map a | a in m :: if Hit(f, g, a, h, skip) then 0 else m[a]
  }

  lemma WroteMore(f: Headers, g: Headers, k: Headers, v: set<int>, w: set<int>, u: set<int>)
    requires Wrote(f, g, v) && Wrote(g, k, w) && v <= u && w <= u
    ensures Wrote(f, k, u)
  {
    forall x | x !in u ensures SameAt(f, k, x) { assert SameAt(f, g, x) && SameAt(g, k, x); }
  }

  lemma WroteNone(f: Headers, w: set<int>)
    ensures Wrote(f, f, w)
  {
  }

  lemma WroteWider(f: Headers, g: Headers, w: set<int>, u: set<int>)
    requires Wrote(f, g, w) && w <= u
    ensures Wrote(f, g, u)
  {
  }

  lemma WroteFields(f: Headers, phys: Links, list: Links, v: set<int>, w: set<int>)
    requires v <= w
    ensures Touches(f.phys, phys, v) ==> Wrote(f, f.(phys := phys), w)
    ensures Touches(f.list, list, v) ==> Wrote(f, f.(list := list), w)
  {
  }

  lemma WroteTag(f: Headers, x: int, used: bool, w: set<int>)
    requires x in w
    ensures Wrote(f, f.(tag := f.tag[x := used]), w)
  {
  }

  lemma HeadsAt(s: Heap)
    ensures forall i :: 0 <= i < |s| ==> s[i].at in Heads(s)
    ensures forall x :: x in Heads(s) ==> exists i :: 0 <= i < |s| && s[i].at == x
  {
    forall i | 0 <= i < |s| ensures s[i].at in Heads(s) { assert Ats(s)[i] == s[i].at; }
  }

  lemma HeadsChange(s: Heap, i: nat, used: bool, b: Block)
    requires i < |s|
    ensures Heads(Mark(s, i, used)) == Heads(s) && Heads(Split(s, i, b)) == Heads(s) + {b.at}
    ensures i + 1 < |s| ==> Heads(Join(s, i)) <= Heads(s)
  {
    hide Mark, Split, Join, Ats;
    AtsChange(s, i, used, b);
    var r := Ats(s);
    assert r == r[..i + 1] + r[i + 1..];
  }

  /** If only headers of the old and the new layout were written, all data live in both keeps its bytes. */
  lemma ClobberKeeps(s: Heap, t: Heap, m: Memory, f: Headers, g: Headers, h: nat, skip: int)
    requires Tiled(s, h) && Tiled(t, h) && Wrote(f, g, Heads(s) + Heads(t) + {skip})
    ensures Preserved(s, t, m, Clobber(m, f, g, h, skip), h)
  {
    hide Tiled, Live, InHeader, SameAt, Heads;
    var m' := Clobber(m, f, g, h, skip);
    forall p, n, k, a | Live(s, h, p, n) && Live(t, h, p, k) && p <= a < p + n && a < p + k ensures Byte(m', a) == Byte(m, a) {
      LiveNotHeader(s, h, p, n, a);
      LiveNotHeader(t, h, p, k, a);
      if Hit(f, g, a, h, skip) {
        var x :| a - h < x <= a && x != skip && !SameAt(f, g, x);
        HeadCovers(s, h, x, a);
        HeadCovers(t, h, x, a);
        assert false;
      }
    }
  }

  lemma HeadCovers(s: Heap, h: nat, x: int, a: int)
    requires x <= a < x + h
    ensures x in Heads(s) ==> InHeader(s, h, a)
  {
    HeadsAt(s);
  }

  lemma LiveIndex(s: Heap, p: int, n: int, h: nat) returns (i: nat)
    requires Live(s, h, p, n)
    ensures i + 1 < |s| && LiveAt(s, h, i, p, n)
  {
    i :| 0 <= i < |s| - 1 && LiveAt(s, h, i, p, n);
  }

  lemma IndexLive(s: Heap, i: nat, h: nat)
    requires i + 1 < |s| && s[i].used
    ensures Live(s, h, s[i].at + h, Size(s, i, h))
  {
    assert LiveAt(s, h, i, s[i].at + h, Size(s, i, h));
  }

  lemma StillLive(s: Heap, t: Heap, p: int, n: int, q: int, k: int, h: nat)
    requires Live(s, h, p, n) && Added(s, t, q, k, h)
    ensures Live(t, h, p, n)
  {
  }

  lemma AddedLive(s: Heap, t: Heap, q: int, k: int, h: nat)
    requires Added(s, t, q, k, h)
    ensures Live(t, h, q, k)
  {
    hide Live;
  }

  lemma ResizedLive(s: Heap, t: Heap, p: int, n: int, q: int, k: int, m: Memory, m': Memory, h: nat)
    requires Resized(s, t, p, n, q, k, m, m', h)
    ensures Live(t, h, q, k)
  {
    hide Live;
  }

  lemma NotLiveAnywhere(s: Heap, i: nat, q: int, h: nat)
    requires Tiled(s, h) && i + 1 < |s| && !s[i].used && q == s[i].at + h
    ensures forall l :: !Live(s, h, q, l)
  {
    forall l ensures !Live(s, h, q, l) { NotLive(s, i, h, l); }
  }

  lemma AllocAdds(s: Heap, i: nat, size: nat, least: nat, h: nat)
    requires Tiled(s, h) && i + 1 < |s| && !s[i].used && size <= Size(s, i, h)
    ensures var t := Alloc(s, i, size, h, least); i + 1 < |t| && Added(s, t, s[i].at + h, Size(t, i, h), h)
  {
    hide Tiled, Live, Alloc;
    var t := Alloc(s, i, size, h, least);
    AllocLive(s, i, size, h, least, 0, 0);
    forall p, n ensures Live(t, h, p, n) <==> Live(s, h, p, n) || (p == s[i].at + h && n == Size(t, i, h)) {
      AllocLive(s, i, size, h, least, p, n);
    }
  }

  lemma FreeRemoves(s: Heap, i: nat, h: nat)
    requires Tiled(s, h) && Coalesced(s) && i + 1 < |s| && s[i].used
    ensures Removed(s, Free(s, i), s[i].at + h, h)
  {
    hide Tiled, Coalesced, Live, Layout.Free;
    forall q, k ensures Live(Free(s, i), h, q, k) <==> Live(s, h, q, k) && q != s[i].at + h {
      FreeLive(s, i, h, q, k);
    }
  }

  lemma KeptResizes(s: Heap, t: Heap, p: int, n: int, k: int, m: Memory, m': Memory, h: nat)
    requires forall x, l :: Live(t, h, x, l) <==> if x == p then l == k else Live(s, h, x, l)
    requires Live(s, h, p, n) && Preserved(s, t, m, m', h)
    ensures Resized(s, t, p, n, p, k, m, m', h)
  {
    hide Live;
    forall x, l, a | Live(s, h, x, l) && x != p && x <= a < x + l ensures Byte(m', a) == Byte(m, a) {
      assert Live(t, h, x, l);
    }
    forall a | p <= a < p + n && a < p + k ensures Byte(m', a) == Byte(m, p + (a - p)) {
      assert Live(t, h, p, k);
    }
  }

  lemma GrowResizes(s: Heap, i: nat, size: nat, m: Memory, m': Memory, h: nat)
    requires Tiled(s, h) && Coalesced(s) && i + 2 < |s| && s[i].used && !s[i + 1].used
    requires Size(s, i, h) <= size && s[i].at + h + size + h <= s[i + 2].at
    requires Preserved(s, Grow(s, i, size, h), m, m', h)
    ensures Resized(s, Grow(s, i, size, h), s[i].at + h, Size(s, i, h), s[i].at + h, size, m, m', h)
  {
    hide Tiled, Coalesced, Grow, Live;
    var t, p := Grow(s, i, size, h), s[i].at + h;
    IndexLive(s, i, h);
    forall x, l ensures Live(t, h, x, l) <==> if x == p then l == size else Live(s, h, x, l) {
      GrowLive(s, i, size, h, x, l);
    }
    KeptResizes(s, t, p, Size(s, i, h), size, m, m', h);
  }

  lemma ShrinkResizes(s: Heap, i: nat, size: nat, m: Memory, m': Memory, h: nat)
    requires Tiled(s, h) && Coalesced(s) && i + 1 < |s| && s[i].used && size + h <= Size(s, i, h)
    requires Preserved(s, Shrink(s, i, size, h), m, m', h)
    ensures Resized(s, Shrink(s, i, size, h), s[i].at + h, Size(s, i, h), s[i].at + h, size, m, m', h)
  {
    hide Tiled, Coalesced, Shrink, Live;
    var t, p := Shrink(s, i, size, h), s[i].at + h;
    IndexLive(s, i, h);
    forall x, l ensures Live(t, h, x, l) <==> if x == p then l == size else Live(s, h, x, l) {
      ShrinkLive(s, i, size, h, x, l);
    }
    KeptResizes(s, t, p, Size(s, i, h), size, m, m', h);
  }

  /** An area left as it is. */
  lemma SameResized(s: Heap, p: int, n: int, m: Memory, h: nat)
    requires Tiled(s, h) && Live(s, h, p, n)
    ensures Resized(s, s, p, n, p, n, m, m, h)
  {
    hide Tiled, Live;
    forall x, l ensures Live(s, h, x, l) <==> if x == p then l == n else Live(s, h, x, l) && x != p {
      if Live(s, h, p, l) { LiveDisjoint(s, h, p, n, p, l); }
    }
  }

  /** Moving: allocate, copy the first c bytes, release. */
  lemma MoveResizes(s: Heap, t: Heap, u: Heap, p: int, n: nat, c: nat, q: int, k: nat, m0: Memory, m1: Memory, m2: Memory, h: nat)
    requires Tiled(s, h) && Tiled(t, h) && Live(s, h, p, n) && c <= n && c <= k
    requires Added(s, t, q, k, h) && Preserved(s, t, m0, m1, h)
    requires Removed(t, u, p, h) && Preserved(t, u, Copy(m1, q, p, c), m2, h) && (forall l :: !Live(s, h, q, l))
    ensures Resized(s, u, p, c, q, k, m0, m2, h)
  {
    hide Tiled, Live, Copy;
    var copied := Copy(m1, q, p, c);
    assert Live(t, h, q, k) && Live(t, h, p, n) && p != q;
    LiveDisjoint(t, h, p, n, q, k);
    forall x, l, a | Live(s, h, x, l) && x != p && x <= a < x + l ensures Byte(m2, a) == Byte(m0, a) {
      assert Live(t, h, x, l) && Live(u, h, x, l);
      LiveDisjoint(t, h, x, l, q, k);
      assert Byte(copied, a) == Byte(m1, a) == Byte(m0, a);
    }
    forall a | q <= a < q + c && a < q + k ensures Byte(m2, a) == Byte(m0, p + (a - q)) {
      assert Byte(copied, a) == Byte(m1, p + (a - q)) == Byte(m0, p + (a - q));
      assert Live(u, h, q, k);
    }
    forall x, l ensures Live(u, h, x, l) <==> if x == q then l == k else Live(s, h, x, l) && x != p {
    }
  }
}
