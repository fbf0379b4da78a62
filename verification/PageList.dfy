/** slab.c, the page allocator. The free pages are a list of runs, sorted by address and never
    adjacent; the first page of a run holds the length and the link. Pages are numbered. */
module PageList {
  import opened RtList
  import opened Chains

  datatype Run = Run(at: int, n: nat)

  /** Runs from page lo on, each behind the one before with a gap between them. */
  ghost predicate Canonical(r: seq<Run>, lo: int) {
    r != [] ==> lo <= r[0].at && 0 < r[0].at && 0 < r[0].n && Canonical(r[1..], r[0].at + r[0].n + 1)
  }

  ghost predicate Free(r: seq<Run>, p: int) {
    r != [] && (r[0].at <= p < r[0].at + r[0].n || Free(r[1..], p))
  }

  /** Pages a up to a + n are free, or none of them is. */
  ghost predicate AllFree(r: seq<Run>, a: int, n: nat) {
    forall p :: a <= p < a + n ==> Free(r, p)
  }

  ghost predicate NoneFree(r: seq<Run>, a: int, n: nat) {
    forall p :: a <= p < a + n ==> !Free(r, p)
  }

  /** rt_page_alloc on runs: first fit. */
  ghost function Take(r: seq<Run>, n: nat): (int, seq<Run>) {
    if r == [] then (0, [])
    else if r[0].n > n then (r[0].at, [Run(r[0].at + n, r[0].n - n)] + r[1..])
    else if r[0].n == n then (r[0].at, r[1..])
    else var t := Take(r[1..], n); (t.0, [r[0]] + t.1)
  }

  /** The lowest n free pages in a row, those from a on, are no longer free; all others are as before. */
  ghost predicate LowestOut(r: seq<Run>, s: seq<Run>, a: int, n: nat) {
    && AllFree(r, a, n) && (forall b :: AllFree(r, b, n) ==> a <= b)
    && (forall p :: Free(s, p) <==> Free(r, p) && !(a <= p < a + n))
  }

  /** rt_page_free on runs. */
  ghost function Put(r: seq<Run>, a: int, n: nat): seq<Run> {
    if r == [] then [Run(a, n)]
    else if r[0].at + r[0].n == a then
      if |r| > 1 && a + n == r[1].at then [Run(r[0].at, r[0].n + n + r[1].n)] + r[2..] else [Run(r[0].at, r[0].n + n)] + r[1..]
    else if r[0].at == a + n then [Run(a, n + r[0].n)] + r[1..]
    else if r[0].at > a + n then [Run(a, n)] + r
    else [r[0]] + Put(r[1..], a, n)
  }

  lemma {:induction false} FreeAbove(r: seq<Run>, lo: int, p: int)
    requires Canonical(r, lo) && Free(r, p)
    ensures lo <= p && 0 < p
  {
    if !(r[0].at <= p < r[0].at + r[0].n) { FreeAbove(r[1..], r[0].at + r[0].n + 1, p); }
  }

  /** The first run, and the rest beyond a gap. */
  lemma First(r: seq<Run>, lo: int, p: int)
    requires Canonical(r, lo) && r != []
    ensures Free(r, p) <==> r[0].at <= p < r[0].at + r[0].n || Free(r[1..], p)
    ensures Free(r[1..], p) ==> r[0].at + r[0].n < p
  {
    if Free(r[1..], p) { FreeAbove(r[1..], r[0].at + r[0].n + 1, p); }
  }

  lemma {:induction false} Lower(r: seq<Run>, lo: int, less: int)
    requires Canonical(r, lo) && less <= lo
    ensures Canonical(r, less)
  {
  }

  /** Allocation takes n free pages, exactly these, and keeps the form. */
  lemma {:induction false} TakeExact(r: seq<Run>, n: nat, lo: int)
    requires Canonical(r, lo) && 0 < n
    ensures var t := Take(r, n);
            && Canonical(t.1, lo) && (t.0 == 0 ==> t.1 == r)
            && (t.0 != 0 ==> lo <= t.0 && 0 < t.0 && AllFree(r, t.0, n))
            && (t.0 != 0 ==> forall p :: Free(t.1, p) <==> Free(r, p) && !(t.0 <= p < t.0 + n))
  {
    if r != [] {
      var b, rest := r[0], r[1..];
      forall p | Free(rest, p) ensures b.at + b.n < p { FreeAbove(rest, b.at + b.n + 1, p); }
      if b.n >= n {
        Lower(rest, b.at + b.n + 1, lo);
        if b.n > n {
          var x := [Run(b.at + n, b.n - n)] + rest;
          assert x[1..] == rest;
        }
      } else {
        TakeExact(rest, n, b.at + b.n + 1);
        var t := Take(rest, n);
        assert ([b] + t.1)[1..] == t.1;
        if t.0 == 0 { assert [b] + rest == r; }
        else { assert forall p :: t.0 <= p < t.0 + n ==> Free(rest, p) && Free(r, p); }
      }
    }
  }

  /** First fit finds the lowest n free pages in a row, and fails only if there are none. */
  lemma {:induction false} TakeLowest(r: seq<Run>, n: nat, lo: int, a: int)
    requires Canonical(r, lo) && 0 < n && AllFree(r, a, n)
    ensures 0 != Take(r, n).0 <= a
  {
    assert Free(r, a);
    var b, rest := r[0], r[1..];
    First(r, lo, a);
    FreeAbove(r, lo, a);
    if b.at <= a < b.at + b.n {
      First(r, lo, b.at + b.n);
      assert b.at + b.n < a + n ==> Free(r, b.at + b.n);
    } else {
      forall p | a <= p < a + n ensures Free(rest, p) {
        assert Free(r, p);
        First(r, lo, p);
      }
      if b.n < n { TakeLowest(rest, n, b.at + b.n + 1, a); }
    }
  }

  /** Freeing adds exactly the given pages and keeps the form. */
  lemma {:induction false} PutExact(r: seq<Run>, a: int, n: nat, lo: int)
    requires Canonical(r, lo) && 0 < n && lo <= a && 0 < a && NoneFree(r, a, n)
    ensures Canonical(Put(r, a, n), lo)
    ensures forall p :: Free(Put(r, a, n), p) <==> Free(r, p) || a <= p < a + n
  {
    if r == [] {
      assert [Run(a, n)][1..] == [];
    } else {
      var b, rest := r[0], r[1..];
      forall p | Free(rest, p) ensures b.at + b.n < p { FreeAbove(rest, b.at + b.n + 1, p); }
      assert NoneFree(rest, a, n) by { forall p | a <= p < a + n ensures !Free(rest, p) { assert !Free(r, p); } }
      if b.at + b.n == a {
        if |r| > 1 {
          assert rest[0] == r[1] && rest[1..] == r[2..];
          if a + n == r[1].at {
            assert ([Run(b.at, b.n + n + r[1].n)] + r[2..])[1..] == r[2..];
          } else {
            PutBefore(rest, a, n);
            assert ([Run(b.at, b.n + n)] + rest)[1..] == rest;
          }
        } else {
          assert ([Run(b.at, b.n + n)] + rest)[1..] == rest;
        }
      } else if b.at == a + n {
        assert ([Run(a, n + b.n)] + rest)[1..] == rest;
      } else if b.at > a + n {
        assert ([Run(a, n)] + r)[1..] == r;
        Lower(r, b.at, a + n + 1);
      } else {
        assert a <= b.at ==> !Free(r, b.at);
        assert !Free(r, a);
        PutExact(rest, a, n, b.at + b.n + 1);
        assert ([b] + Put(rest, a, n))[1..] == Put(rest, a, n);
      }
    }
  }

  /** A run behind the freed pages, but not directly behind them. */
  lemma PutBefore(rest: seq<Run>, a: int, n: nat)
    requires rest != [] && Canonical(rest, a + 1) && 0 < n && NoneFree(rest, a, n) && a + n != rest[0].at
    ensures Canonical(rest, a + n + 1)
  {
    if rest[0].at < a + n { assert Free(rest, rest[0].at); }
  }

  /** The form is canonical: equal sets of free pages have equal lists. */
  lemma {:induction false} Unique(r: seq<Run>, s: seq<Run>, lo: int, lo2: int)
    requires Canonical(r, lo) && Canonical(s, lo2) && forall p :: Free(r, p) <==> Free(s, p)
    ensures r == s
  {
    if r == [] && s == [] { return; }
    if r == [] { assert Free(s, s[0].at); return; }
    if s == [] { assert Free(r, r[0].at); return; }
    var b, c := r[0], s[0];
    var e, f := b.at + b.n, c.at + c.n;
    First(r, lo, b.at); First(r, lo, c.at); First(s, lo2, b.at); First(s, lo2, c.at);
    FirstLowest(r, lo, c.at);
    FirstLowest(s, lo2, b.at);
    assert b.at == c.at;
    First(r, lo, e); First(r, lo, f); First(s, lo2, e); First(s, lo2, f);
    First(r, lo, e - 1); First(r, lo, f - 1); First(s, lo2, e - 1); First(s, lo2, f - 1);
    assert e == f;
    forall p ensures Free(r[1..], p) <==> Free(s[1..], p) {
      First(r, lo, p);
      First(s, lo2, p);
      assert Free(r, p) <==> Free(s, p);
    }
    Unique(r[1..], s[1..], e + 1, e + 1);
    assert r == [b] + r[1..] && s == [c] + s[1..];
  }

  lemma FirstLowest(r: seq<Run>, lo: int, p: int)
    requires Canonical(r, lo) && r != []
    ensures Free(r, p) ==> r[0].at <= p
  {
    First(r, lo, p);
  }

  /** Freeing at once what was allocated restores the identical list. */
  lemma FreeUndoesAlloc(r: seq<Run>, n: nat, lo: int)
    requires Canonical(r, lo) && 0 < n && Take(r, n).0 != 0
    ensures Put(Take(r, n).1, Take(r, n).0, n) == r
  {
    var t := Take(r, n);
    TakeExact(r, n, lo);
    assert NoneFree(t.1, t.0, n);
    PutExact(t.1, t.0, n, lo);
    assert forall p :: t.0 <= p < t.0 + n ==> Free(r, p);
    Unique(Put(t.1, t.0, n), r, lo, lo);
  }

  // ---- the list in memory ----

  ghost function Starts(r: seq<Run>): (s: seq<int>)
    ensures |s| == |r|
  {
    seq(|r|, i requires 0 <= i < |r| => r[i].at)
  }

  ghost predicate Linked(head: int, next: map<int, int>, page: map<int, nat>, r: seq<Run>) {
    && Chain(next, head, Starts(r))
    && forall i :: 0 <= i < |r| ==> r[i].at in page && page[r[i].at] == r[i].n
  }

  /** What the loops of both functions see at position i. */
  lemma LinkedAt(head: int, next: map<int, int>, page: map<int, nat>, r: seq<Run>, i: nat)
    requires Linked(head, next, page, r) && i <= |r|
    ensures Read(next, head, Front(Starts(r), i)) == if i < |r| then r[i].at else 0
    ensures i < |r| ==> r[i].at != 0 && r[i].at in next && r[i].at in page && page[r[i].at] == r[i].n
    ensures i < |r| ==> next[r[i].at] == if i + 1 < |r| then r[i + 1].at else 0
    ensures 0 < i ==> Front(Starts(r), i) != 0 && Front(Starts(r), i) in next
    ensures i == 0 ==> head == if r == [] then 0 else r[0].at
  {
    hide Chain, Front;
    FrontFirst(Starts(r));
    ChainRead(next, head, Starts(r), 0);
    ChainRead(next, head, Starts(r), i);
  }

  /** Writing at the place in front of member i. */
  function Store(next: map<int, int>, at: int, v: int): map<int, int> {
    if at == 0 then next else next[at := v]
  }

  /** A run of the same list is resized in place. */
  lemma LinkedResize(head: int, next: map<int, int>, page: map<int, nat>, r: seq<Run>, i: nat, n: nat)
    requires Linked(head, next, page, r) && i < |r|
    ensures Linked(head, next, page[r[i].at := n], r[i := Run(r[i].at, n)])
  {
    hide Chain;
    StartsDistinct(head, next, r);
    assert Starts(r[i := Run(r[i].at, n)]) == Starts(r);
    forall j | 0 <= j < |r| && j != i ensures r[j].at != r[i].at { assert Starts(r)[j] != Starts(r)[i]; }
  }

  lemma StartsDistinct(head: int, next: map<int, int>, r: seq<Run>)
    requires Chain(next, head, Starts(r))
    ensures Distinct(Starts(r)) && 0 !in Starts(r)
  {
  }

  /** The run behind member i leaves the list. */
  lemma LinkedDrop(head: int, next: map<int, int>, page: map<int, nat>, r: seq<Run>, i: nat)
    requires Linked(head, next, page, r) && i < |r|
    ensures r[i].at in next
    ensures var at := Front(Starts(r), i);
            Linked(if at == 0 then next[r[i].at] else head, Store(next, at, next[r[i].at]), page, Dropped(r, i))
  {
    hide Chain;
    ChainDrop(next, head, Starts(r), i);
    StartsDistinct(head, next, r);
    assert Starts(Dropped(r, i)) == Dropped(Starts(r), i);
    if i > 0 { assert Starts(r)[i - 1] in Starts(r); }
  }

  /** A new run comes in front of member i. */
  lemma LinkedInsert(head: int, next: map<int, int>, page: map<int, nat>, r: seq<Run>, i: nat, x: Run)
    requires Linked(head, next, page, r) && i <= |r| && x.at != 0 && x.at !in Starts(r)
    ensures var at := Front(Starts(r), i); var b := if i < |r| then r[i].at else 0;
            Linked(if at == 0 then x.at else head, Store(next[x.at := b], at, x.at), page[x.at := x.n], r[..i] + [x] + r[i..])
  {
    hide Chain;
    ChainInsert(next, head, Starts(r), i, x.at);
    assert Starts(r[..i] + [x] + r[i..]) == InsertedAt(Starts(r), i, x.at);
    LinkedFrom(head, next, page, r, i, x);
  }

  lemma LinkedFrom(head: int, next: map<int, int>, page: map<int, nat>, r: seq<Run>, i: nat, x: Run)
    requires Linked(head, next, page, r) && i <= |r| && x.at !in Starts(r)
    requires var at := Front(Starts(r), i); var b := if i < |r| then r[i].at else 0;
             Chain(Store(next[x.at := b], at, x.at), if at == 0 then x.at else head, Starts(r[..i] + [x] + r[i..]))
    ensures var at := Front(Starts(r), i); var b := if i < |r| then r[i].at else 0;
            Linked(if at == 0 then x.at else head, Store(next[x.at := b], at, x.at), page[x.at := x.n], r[..i] + [x] + r[i..])
  {
    hide Chain, Front, Store;
    var u := r[..i] + [x] + r[i..];
    forall j | 0 <= j < |u| ensures u[j].at in page[x.at := x.n] && page[x.at := x.n][u[j].at] == u[j].n {
      if j != i {
        var k := if j < i then j else j - 1;
        assert u[j] == r[k] && Starts(r)[k] == r[k].at;
      }
    }
  }

  lemma ChainInsert(next: map<int, int>, head: int, s: seq<int>, i: nat, x: int)
    requires Chain(next, head, s) && i <= |s| && x != 0 && x !in s
    ensures var at := Front(s, i); var b := if i < |s| then s[i] else 0;
            Chain(Store(next[x := b], at, x), if at == 0 then x else head, InsertedAt(s, i, x))
  {
    var at, b, u := Front(s, i), if i < |s| then s[i] else 0, InsertedAt(s, i, x);
    var n := Store(next[x := b], at, x);
    if i > 0 { assert s[i - 1] in s; }
    forall j | 0 <= j < |u| ensures u[j] in n && n[u[j]] == Behind(u, j) {
      if j != i {
        var k := if j < i then j else j - 1;
        assert u[j] == s[k] && next[s[k]] == Behind(s, k);
      }
    }
  }

  class PageAllocator {
    var head: int                    // rt_page_list
    var next: map<int, int>
    var page: map<int, nat>
    ghost var runs: seq<Run>

    ghost predicate Valid()
      reads this
    {
      Canonical(runs, 1) && Linked(head, next, page, runs)
    }

    /** rt_page_init */
    constructor (addr: int, npages: nat)
      requires 0 < addr && 0 < npages
      ensures Valid() && runs == [Run(addr, npages)] && forall p :: Free(runs, p) <==> addr <= p < addr + npages
    {
      head, next, page, runs := addr, map[addr := 0], map[addr := npages], [Run(addr, npages)];
      new;
      assert runs[1..] == [];
      assert Starts(runs) == [addr];
    }

    /** rt_page_alloc: the lowest free pages in a row, or NULL and no change if there are none. */
    method Alloc(npages: nat) returns (b: int)
      requires Valid()
      modifies this
      ensures Valid() && (b == 0 <==> npages == 0 || forall a :: !AllFree(old(runs), a, npages))
      ensures b == 0 ==> runs == old(runs)
      ensures b != 0 ==> 0 < b && LowestOut(old(runs), runs, b, npages)
      ensures b != 0 ==> Put(runs, b, npages) == old(runs)
    {
      hide Canonical, Linked, Take, Put, Free, Front, Read, Store;
      if npages == 0 {
        return 0;
      }
      ghost var i: nat := 0;
      var prev := 0;
      LinkedAt(head, next, page, runs, 0);
      FrontFirst(Starts(runs));
      b := head;
      TakeAt(runs, npages, 0);
      while b != 0
        modifies {}
        invariant i <= |runs| && prev == Front(Starts(runs), i) && b == (if i < |runs| then runs[i].at else 0)
        invariant b != 0 <==> i < |runs|
        invariant Take(runs, npages) == (Take(runs[i..], npages).0, runs[..i] + Take(runs[i..], npages).1)
        decreases |runs| - i
      {
        LinkedAt(head, next, page, runs, i);
        TakeAt(runs, npages, i);
        if page[b] >= npages {
          break;
        }
        LinkedAt(head, next, page, runs, i + 1);
        FrontNext(runs, i);
        prev := b;
        b := next[b];
        i := i + 1;
      }
      TakeAt(runs, npages, i);
      AllocExact(runs, npages);
      if b != 0 {
        Cut(b, prev, npages, i);
      }
    }

    /** Takes the first npages off run i, or the whole run. */
    method Cut(b: int, prev: int, npages: nat, ghost i: nat)
      requires Valid() && i < |runs| && b == runs[i].at && prev == Front(Starts(runs), i) && 0 < npages <= runs[i].n
      requires Canonical(Carved(runs, i, npages), 1)
      modifies this
      ensures Valid() && runs == Carved(old(runs), i, npages)
    {
      hide Canonical, Linked, Front, Store, Read, Chain;
      LinkedAt(head, next, page, runs, i);
      if page[b] > npages {
        var n := b + npages;
        Inside(runs, i, n, 1);
        LinkedReplace(head, next, page, runs, i, Run(n, page[b] - npages));
        next := next[n := next[b]];
        page := page[n := page[b] - npages];
        next := Store(next, prev, n);
        if prev == 0 { head := n; }
      } else {
        LinkedDrop(head, next, page, runs, i);
        if prev == 0 { head := next[b]; }
        next := Store(next, prev, next[b]);
      }
      runs := Carved(runs, i, npages);
    }

    /** rt_page_free, of pages none of which is free. */
    method Release(a: int, npages: nat)
      requires Valid() && 0 < a && 0 < npages && NoneFree(runs, a, npages)
      modifies this
      ensures Valid() && runs == Put(old(runs), a, npages)
      ensures forall p :: Free(runs, p) <==> Free(old(runs), p) || a <= p < a + npages
    {
      hide Canonical, Linked, Put, Free, Front, Store, NoneFree, Starts;
      PutExact(runs, a, npages, 1);
      var prev, b;
      ghost var i;
      prev, b, i := Find(a, npages);
      LinkedAt(head, next, page, runs, i);
      if b != 0 && b + page[b] == a {
        Extend(b, a, npages, i);
      } else if b != 0 && b == a + npages {
        LinkedReplace(head, next, page, runs, i, Run(a, npages + page[b]));
        Settle(runs[..i] + [Run(a, npages + page[b])] + runs[i + 1..], prev, a, next[b], npages + page[b]);
      } else {
        LinkedInsert(head, next, page, runs, i, Run(a, npages));
        Settle(runs[..i] + [Run(a, npages)] + runs[i..], prev, a, b, npages);
      }
    }

    /** The search loop of rt_page_free; its assertions hold. */
    method Find(a: int, npages: nat) returns (prev: int, b: int, ghost i: nat)
      requires Valid() && 0 < a && 0 < npages && NoneFree(runs, a, npages)
      ensures i <= |runs| && prev == Front(Starts(runs), i) && b == (if i < |runs| then runs[i].at else 0) && (b != 0 <==> i < |runs|)
      ensures Put(runs, a, npages) == if i < |runs| then PutHere(runs, a, npages, i) else runs[..i] + [Run(a, npages)] + runs[i..]
      ensures i < |runs| ==> runs[i].at + runs[i].n == a || runs[i].at == a + npages || runs[i].at > a + npages
      ensures a !in Starts(runs)
    {
      hide Canonical, Linked, Put, PutHere, Free, Front, NoneFree, Starts, Read;
      i := 0;
      prev := 0;
      LinkedAt(head, next, page, runs, 0);
      FrontFirst(Starts(runs));
      b := head;
      PutAt(runs, a, npages, 0);
      if runs != [] { Outside(runs, a, npages, 1, 0); } else { NoStarts(); }
      while b != 0
        invariant i <= |runs| && prev == Front(Starts(runs), i) && b == (if i < |runs| then runs[i].at else 0)
        invariant b != 0 <==> i < |runs|
        invariant Put(runs, a, npages) == runs[..i] + Put(runs[i..], a, npages)
        decreases |runs| - i
      {
        LinkedAt(head, next, page, runs, i);
        Outside(runs, a, npages, 1, i);
        RunFree(runs, i, 1);
        assert page[b] > 0;
        assert b > a || b + page[b] <= a;
        if b + page[b] == a || b == a + npages || b > a + npages {
          break;
        }
        PassOn(runs, a, npages, i);
        LinkedAt(head, next, page, runs, i + 1);
        FrontNext(runs, i);
        prev := b;
        b := next[b];
        i := i + 1;
      }
      PutAt(runs, a, npages, i);
    }

    /** Writes the head of a new run and hooks it in. */
    method Settle(ghost r: seq<Run>, prev: int, a: int, b: int, n: nat)
      requires Canonical(r, 1) && Linked(if prev == 0 then a else head, Store(next[a := b], prev, a), page[a := n], r)
      modifies this
      ensures Valid() && runs == r
    {
      hide Canonical, Linked, Store;
      page := page[a := n];
      next := next[a := b];
      next := Store(next, prev, a);
      if prev == 0 { head := a; }
      runs := r;
    }

    /** The freed pages lie directly behind run i, and perhaps directly in front of the next one. */
    method Extend(b: int, a: int, npages: nat, ghost i: nat)
      requires Valid() && i < |runs| && b == runs[i].at && b + runs[i].n == a && Canonical(Put(runs, a, npages), 1)
      requires 0 < a && 0 < npages
      requires Put(runs, a, npages) == if i + 1 < |runs| && a + npages == runs[i + 1].at
                                       then Dropped(runs[i := Run(b, runs[i].n + npages + runs[i + 1].n)], i + 1)
                                       else runs[i := Run(b, runs[i].n + npages)]
      modifies this
      ensures Valid() && runs == Put(old(runs), a, npages)
    {
      hide Canonical, Linked, Put, Free, Front, Read, Starts, Store;
      LinkedAt(head, next, page, runs, i);
      ghost var result := Put(runs, a, npages);
      LinkedResize(head, next, page, runs, i, page[b] + npages);
      page := page[b := page[b] + npages];
      runs := runs[i := Run(b, runs[i].n + npages)];
      if b + page[b] == next[b] {
        LinkedAt(head, next, page, runs, i + 1);
        LinkedResize(head, next, page, runs, i, page[b] + page[next[b]]);
        page := page[b := page[b] + page[next[b]]];
        runs := runs[i := Run(b, page[b])];
        LinkedDrop(head, next, page, runs, i + 1);
        FrontNext(runs, i);
        StoreAt(next, b, next[next[b]]);
        next := next[b := next[next[b]]];
        runs := Dropped(runs, i + 1);
      }
      assert runs == result;
    }
  }

  lemma NoStarts()
    ensures Starts([]) == []
  {
  }

  lemma StoreAt(next: map<int, int>, at: int, v: int)
    requires at != 0
    ensures Store(next, at, v) == next[at := v]
  {
  }

  lemma FrontFirst(s: seq<int>)
    ensures Front(s, 0) == 0
  {
  }

  lemma FrontNext(r: seq<Run>, i: nat)
    requires i < |r|
    ensures Front(Starts(r), i + 1) == r[i].at
  {
  }

  /** First fit at position i. */
  lemma TakeAt(r: seq<Run>, n: nat, i: nat)
    requires i <= |r|
    ensures Take(r, n) == (Take(r[0..], n).0, r[..0] + Take(r[0..], n).1)
    ensures i == |r| ==> Take(r[i..], n) == (0, [])
    ensures i < |r| && r[i].n >= n ==> Take(r[i..], n).0 == r[i].at && r[..i] + Take(r[i..], n).1 == Carved(r, i, n)
    ensures i < |r| && r[i].n < n ==>
              Take(r[i..], n).0 == Take(r[i + 1..], n).0 && r[..i] + Take(r[i..], n).1 == r[..i + 1] + Take(r[i + 1..], n).1
  {
    assert r[0..] == r;
    assert r[..0] + Take(r, n).1 == Take(r, n).1;
    if i < |r| {
      TakeSuffix(r, n, i);
      hide Take;
      if r[i].n < n {
        assert r[..i] + ([r[i]] + Take(r[i + 1..], n).1) == r[..i + 1] + Take(r[i + 1..], n).1;
      }
    }
  }

  lemma TakeSuffix(r: seq<Run>, n: nat, i: nat)
    requires i < |r|
    ensures r[i].n > n ==> Take(r[i..], n) == (r[i].at, [Run(r[i].at + n, r[i].n - n)] + r[i + 1..])
    ensures r[i].n == n ==> Take(r[i..], n) == (r[i].at, r[i + 1..])
    ensures r[i].n < n ==> Take(r[i..], n) == (Take(r[i + 1..], n).0, [r[i]] + Take(r[i + 1..], n).1)
  {
    var u := r[i..];
    assert u[0] == r[i] && u[1..] == r[i + 1..];
  }

  lemma AllocExact(r: seq<Run>, n: nat)
    requires Canonical(r, 1) && 0 < n
    ensures var t := Take(r, n);
            && Canonical(t.1, 1) && (t.0 == 0 <==> forall a :: !AllFree(r, a, n)) && (t.0 == 0 ==> t.1 == r)
            && (t.0 != 0 ==> 0 < t.0 && AllFree(r, t.0, n) && (forall a :: AllFree(r, a, n) ==> t.0 <= a)
                             && (forall p :: Free(t.1, p) <==> Free(r, p) && !(t.0 <= p < t.0 + n)) && Put(t.1, t.0, n) == r)
  {
    hide Canonical, Take, Free, Put, AllFree;
    TakeExact(r, n, 1);
    forall a | AllFree(r, a, n) ensures 0 != Take(r, n).0 <= a { TakeLowest(r, n, 1, a); }
    if Take(r, n).0 != 0 { FreeUndoesAlloc(r, n, 1); }
  }

  /** A page inside run i, but not its first, starts no run. */
  lemma {:induction false} Inside(r: seq<Run>, i: nat, p: int, lo: int)
    requires Canonical(r, lo) && i < |r| && r[i].at < p < r[i].at + r[i].n
    ensures p !in Starts(r) && lo < p && 0 < p
  {
    if i == 0 {
      if p in Starts(r) {
        var j :| 0 <= j < |r| && r[j].at == p;
        StartFree(r[1..], j - 1, r[0].at + r[0].n + 1);
        assert false;
      }
    } else {
      Inside(r[1..], i - 1, p, r[0].at + r[0].n + 1);
      forall j | 0 <= j < |r| ensures Starts(r)[j] != p {
        if j > 0 { assert Starts(r)[j] == Starts(r[1..])[j - 1]; }
      }
    }
  }

  lemma {:induction false} StartFree(r: seq<Run>, i: nat, lo: int)
    requires Canonical(r, lo) && i < |r|
    ensures lo <= r[i].at && Free(r, r[i].at) && 0 < r[i].n && 0 < r[i].at
  {
    if i > 0 { StartFree(r[1..], i - 1, r[0].at + r[0].n + 1); }
  }

  /** A run takes the place of member i. */
  lemma LinkedReplace(head: int, next: map<int, int>, page: map<int, nat>, r: seq<Run>, i: nat, x: Run)
    requires Linked(head, next, page, r) && i < |r| && x.at != 0 && x.at !in Starts(r)
    ensures r[i].at in next
    ensures var at := Front(Starts(r), i);
            Linked(if at == 0 then x.at else head, Store(next[x.at := next[r[i].at]], at, x.at), page[x.at := x.n], r[..i] + [x] + r[i + 1..])
  {
    hide Chain, Front, Store;
    ChainReplace(next, head, Starts(r), i, x.at);
    var u := r[..i] + [x] + r[i + 1..];
    assert Starts(u) == Starts(r)[i := x.at];
    forall j | 0 <= j < |u| ensures u[j].at in page[x.at := x.n] && page[x.at := x.n][u[j].at] == u[j].n {
      if j != i { assert u[j] == r[j] && Starts(r)[j] == r[j].at; }
    }
  }

  lemma ChainReplace(next: map<int, int>, head: int, s: seq<int>, i: nat, x: int)
    requires Chain(next, head, s) && i < |s| && x != 0 && x !in s
    ensures s[i] in next && var at := Front(s, i);
            Chain(Store(next[x := next[s[i]]], at, x), if at == 0 then x else head, s[i := x])
  {
    assert next[s[i]] == Behind(s, i);
    var at, u := Front(s, i), s[i := x];
    var n := Store(next[x := next[s[i]]], at, x);
    if i > 0 { assert s[i - 1] in s; }
    forall j | 0 <= j < |u| ensures u[j] in n && n[u[j]] == Behind(u, j) {
      assert s[j] in next && next[s[j]] == Behind(s, j) && s[j] in s;
    }
  }

  /** Run i without its first n pages. */
  ghost function Carved(r: seq<Run>, i: nat, n: nat): seq<Run>
    requires i < |r| && n <= r[i].n
  {
    if r[i].n > n then r[..i] + [Run(r[i].at + n, r[i].n - n)] + r[i + 1..] else r[..i] + r[i + 1..]
  }

  // ---- rt_page_free at position i ----

  ghost function PutHere(r: seq<Run>, a: int, n: nat, i: nat): seq<Run>
    requires i < |r|
  {
    if r[i].at + r[i].n == a then
      if i + 1 < |r| && a + n == r[i + 1].at then Dropped(r[i := Run(r[i].at, r[i].n + n + r[i + 1].n)], i + 1)
      else r[i := Run(r[i].at, r[i].n + n)]
    else if r[i].at == a + n then r[..i] + [Run(a, n + r[i].n)] + r[i + 1..]
    else if r[i].at > a + n then r[..i] + [Run(a, n)] + r[i..]
    else r[..i + 1] + Put(r[i + 1..], a, n)
  }

  /** The step of the search: freeing below run i, or further on. */
  lemma PutAt(r: seq<Run>, a: int, n: nat, i: nat)
    requires i <= |r|
    ensures Put(r, a, n) == r[..0] + Put(r[0..], a, n)
    ensures i == |r| ==> r[..i] + Put(r[i..], a, n) == r[..i] + [Run(a, n)] + r[i..]
    ensures i < |r| ==> r[..i] + Put(r[i..], a, n) == PutHere(r, a, n, i)
  {
    assert r[0..] == r && r[..0] + Put(r, a, n) == Put(r, a, n);
    if i < |r| {
      hide Put, Dropped;
      PutSuffix(r, a, n, i);
      Assoc(r[..i], Run(a, n + r[i].n), r[i + 1..]);
      Assoc(r[..i], Run(a, n), r[i..]);
      Assoc(r[..i], r[i], Put(r[i + 1..], a, n));
      Snoc(r, i);
      Replaced(r, i, Run(r[i].at, r[i].n + n));
      if i + 1 < |r| { DropNext(r, i, Run(r[i].at, r[i].n + n + r[i + 1].n)); }
    } else {
      Assoc(r[..i], Run(a, n), []);
    }
  }

  lemma Assoc(u: seq<Run>, x: Run, v: seq<Run>)
    ensures u + ([x] + v) == u + [x] + v
  {
  }

  lemma Snoc(r: seq<Run>, i: nat)
    requires i < |r|
    ensures r[..i] + [r[i]] == r[..i + 1]
  {
  }

  /** Put on the runs from i on. */
  lemma PutSuffix(r: seq<Run>, a: int, n: nat, i: nat)
    requires i < |r|
    ensures Put(r[i..], a, n) ==
            if r[i].at + r[i].n == a then
              if i + 1 < |r| && a + n == r[i + 1].at then [Run(r[i].at, r[i].n + n + r[i + 1].n)] + r[i + 2..]
              else [Run(r[i].at, r[i].n + n)] + r[i + 1..]
            else if r[i].at == a + n then [Run(a, n + r[i].n)] + r[i + 1..]
            else if r[i].at > a + n then [Run(a, n)] + r[i..]
            else [r[i]] + Put(r[i + 1..], a, n)
  {
    var u := r[i..];
    assert u[0] == r[i] && u[1..] == r[i + 1..];
    if i + 1 < |r| { assert u[1] == r[i + 1] && u[2..] == r[i + 2..]; }
  }

  lemma DropNext(r: seq<Run>, i: nat, x: Run)
    requires i + 1 < |r|
    ensures Dropped(r[i := x], i + 1) == r[..i] + ([x] + r[i + 2..])
  {
  }

  lemma Replaced(r: seq<Run>, i: nat, x: Run)
    requires i < |r|
    ensures r[i := x] == r[..i] + ([x] + r[i + 1..])
  {
  }

  lemma PassOn(r: seq<Run>, a: int, n: nat, i: nat)
    requires i < |r| && r[i].at + r[i].n != a && r[i].at != a + n && r[i].at <= a + n
    ensures r[..i] + Put(r[i..], a, n) == r[..i + 1] + Put(r[i + 1..], a, n)
  {
    PutAt(r, a, n, i);
  }

  /** Freed pages start no run, and lie in none. */
  lemma {:induction false} Outside(r: seq<Run>, a: int, n: nat, lo: int, i: nat)
    requires Canonical(r, lo) && 0 < n && NoneFree(r, a, n) && i < |r|
    ensures r[i].at + r[i].n <= a || a + n <= r[i].at
    ensures i + 1 < |r| ==> r[i].at + r[i].n < r[i + 1].at
    ensures a !in Starts(r)
  {
    forall j | 0 <= j < |r| ensures r[j].at != a { StartFree(r, j, lo); assert Free(r, r[j].at); }
    RunFree(r, i, lo);
    assert !Free(r, a) && Free(r, r[i].at);
    if r[i].at <= a { assert !(r[i].at <= a < r[i].at + r[i].n); } else { assert !(a <= r[i].at < a + n); }
  }

  lemma {:induction false} RunFree(r: seq<Run>, i: nat, lo: int)
    requires Canonical(r, lo) && i < |r|
    ensures 0 < r[i].n && forall p :: r[i].at <= p < r[i].at + r[i].n ==> Free(r, p)
    ensures i + 1 < |r| ==> r[i].at + r[i].n < r[i + 1].at
  {
    if i > 0 { RunFree(r[1..], i - 1, r[0].at + r[0].n + 1); }
  }
}
