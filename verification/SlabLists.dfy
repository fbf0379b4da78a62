/** slab.c, the zone lists and the page map. List k below 72 is zone_array[k], list 72 is zone_free; a
    zone in no list has no free chunk. Zones and pages are known by their page number. */
module SlabLists {
  import opened RtList
  import opened Chains
  import opened PageList
  import opened SlabZones

  const PAGE: nat := 4096            // RT_MM_PAGE_SIZE
  const SPARE: int := 72             // zone_free among the list heads
  const FULL: int := -1

  // ---- zone lists ----

  ghost predicate ListOk(head: int, znext: map<int, int>, s: seq<int>, k: int, at: map<int, int>) {
    Chain(znext, head, s) && forall z :: z in s ==> z in at && at[z] == k
  }

  /** Every zone is in the list that at names, or in none. */
  ghost predicate ListsOk(heads: seq<int>, znext: map<int, int>, lists: seq<seq<int>>, at: map<int, int>) {
    && |heads| == NZONES + 1 && |lists| == NZONES + 1
    && (forall k :: 0 <= k < |heads| ==> ListOk(heads[k], znext, lists[k], k, at))
    && (forall z :: z in at ==> 0 < z && (at[z] == FULL || (0 <= at[z] < |lists| && z in lists[at[z]])))
  }

  lemma ListKept(head: int, znext: map<int, int>, s: seq<int>, k: int, at: map<int, int>, z: int, v: int, j: int)
    requires ListOk(head, znext, s, k, at) && z !in s
    ensures ListOk(head, znext[z := v], s, k, at[z := j])
  {
    hide Chain;
    ChainFrame(znext, head, s, z, v);
  }

  /** A zone in no list goes to the front of one. */
  lemma PushOk(heads: seq<int>, znext: map<int, int>, lists: seq<seq<int>>, at: map<int, int>, k: int, z: int)
    requires ListsOk(heads, znext, lists, at) && 0 <= k < |heads| && 0 < z && (z in at ==> at[z] == FULL)
    ensures ListsOk(heads[k := z], znext[z := heads[k]], lists[k := [z] + lists[k]], at[z := k])
  {
    hide Chain;
    var heads', znext', lists', at' := heads[k := z], znext[z := heads[k]], lists[k := [z] + lists[k]], at[z := k];
    forall j | 0 <= j < |heads| ensures ListOk(heads'[j], znext', lists'[j], j, at') {
      assert ListOk(heads[j], znext, lists[j], j, at);
      if j == k { ChainPush(znext, heads[k], lists[k], z); } else { ListKept(heads[j], znext, lists[j], j, at, z, heads[k], k); }
    }
  }

  /** Member i of list k leaves it. */
  lemma DropOk(heads: seq<int>, znext: map<int, int>, lists: seq<seq<int>>, at: map<int, int>, k: int, i: nat)
    requires ListsOk(heads, znext, lists, at) && 0 <= k < |heads| && i < |lists[k]|
    ensures var z := lists[k][i]; var p := Front(lists[k], i);
            && z in znext && z in at && at[z] == k
            && ListsOk(if p == 0 then heads[k := znext[z]] else heads, Store(znext, p, znext[z]), lists[k := Dropped(lists[k], i)], at[z := FULL])
  {
    hide Chain, Dropped;
    var s, z, p := lists[k], lists[k][i], Front(lists[k], i);
    assert ListOk(heads[k], znext, s, k, at);
    assert z in s;
    ChainDrop(znext, heads[k], s, i);
    ChainRead(znext, heads[k], s, i);
    var heads', znext', lists', at' := if p == 0 then heads[k := znext[z]] else heads, Store(znext, p, znext[z]), lists[k := Dropped(s, i)], at[z := FULL];
    forall j | 0 <= j < |heads| ensures ListOk(heads'[j], znext', lists'[j], j, at') {
      assert ListOk(heads[j], znext, lists[j], j, at);
      if j != k && p != 0 {
        assert p in s;
        ListKept(heads[j], znext, lists[j], j, at, p, znext[z], at[p]);
        assert at[p := at[p]] == at;
      }
    }
  }

  lemma PopOk(heads: seq<int>, znext: map<int, int>, lists: seq<seq<int>>, at: map<int, int>, k: int)
    requires ListsOk(heads, znext, lists, at) && 0 <= k < |heads| && heads[k] != 0
    ensures var z := heads[k];
            && lists[k] != [] && lists[k][0] == z && z in znext && z in at && at[z] == k
            && ListsOk(heads[k := znext[z]], znext, lists[k := lists[k][1..]], at[z := FULL])
  {
    hide Chain;
    assert ListOk(heads[k], znext, lists[k], k, at);
    ChainHead(znext, heads[k], lists[k]);
    DropOk(heads, znext, lists, at, k, 0);
    assert Dropped(lists[k], 0) == lists[k][1..];
  }

  /** The next field of a zone in no list does not matter; such a zone may vanish. */
  lemma LooseOk(heads: seq<int>, znext: map<int, int>, lists: seq<seq<int>>, at: map<int, int>, z: int, v: int)
    requires ListsOk(heads, znext, lists, at) && z in at && at[z] == FULL
    ensures ListsOk(heads, znext[z := v], lists, at) && ListsOk(heads, znext, lists, at - {z})
  {
    hide Chain;
    forall j | 0 <= j < |heads| ensures ListOk(heads[j], znext[z := v], lists[j], j, at) && ListOk(heads[j], znext, lists[j], j, at - {z}) {
      assert ListOk(heads[j], znext, lists[j], j, at);
      ListKept(heads[j], znext, lists[j], j, at, z, v, FULL);
      assert at[z := FULL] == at;
    }
  }

  lemma ListHead(heads: seq<int>, znext: map<int, int>, lists: seq<seq<int>>, at: map<int, int>, k: int)
    requires ListsOk(heads, znext, lists, at) && 0 <= k < |heads|
    ensures (heads[k] == 0 <==> lists[k] == []) && Chain(znext, heads[k], lists[k])
    ensures lists[k] != [] ==> heads[k] == lists[k][0] && heads[k] in at && at[heads[k]] == k
  {
    assert ListOk(heads[k], znext, lists[k], k, at);
  }

  // ---- pages ----

  /** Pages s up to s + n belong to the allocation that starts at s. */
  ghost predicate Owns(holder: map<int, int>, s: int, n: nat) {
    forall p :: s <= p < s + n ==> p in holder && holder[p] == s
  }

  /** No page of the heap is lost or in two hands: it is free, or it belongs to one allocation. */
  ghost predicate PagesOk(runs: seq<Run>, holder: map<int, int>, ext: map<int, nat>, lo: int, hi: int) {
    && 0 < lo
    && (forall p :: lo <= p < hi <==> Free(runs, p) || p in holder)
    && (forall p :: p in holder ==> !Free(runs, p) && holder[p] in ext && holder[p] <= p < holder[p] + ext[holder[p]])
    && (forall s :: s in ext ==> 0 < ext[s] && Owns(holder, s, ext[s]))
  }

  ghost function Held(holder: map<int, int>, b: int, n: nat): map<int, int> {
    if n == 0 then holder else Held(holder, b, n - 1)[b + n - 1 := b]
  }

  lemma {:induction false} HeldMeans(holder: map<int, int>, b: int, n: nat)
    ensures forall p :: p in Held(holder, b, n) <==> p in holder || b <= p < b + n
    ensures forall p :: p in Held(holder, b, n) ==> Held(holder, b, n)[p] == if b <= p < b + n then b else holder[p]
  {
    if n > 0 { HeldMeans(holder, b, n - 1); }
  }

  ghost function Dropping(holder: map<int, int>, b: int): map<int, int> {
    map p | p in holder && holder[p] != b :: holder[p]
  }

  lemma HeldOk(runs: seq<Run>, runs2: seq<Run>, holder: map<int, int>, ext: map<int, nat>, lo: int, hi: int, b: int, n: nat)
    requires PagesOk(runs, holder, ext, lo, hi) && AllFree(runs, b, n) && 0 < n
    requires forall p :: Free(runs2, p) <==> Free(runs, p) && !(b <= p < b + n)
    ensures b !in ext && lo <= b && b + n <= hi && PagesOk(runs2, Held(holder, b, n), ext[b := n], lo, hi)
  {
    hide Free, Held, PagesOk;
    NotHeld(runs, holder, ext, lo, hi, b);
    HeldInside(runs, holder, ext, lo, hi, b, n);
    HeldPages(runs, runs2, holder, ext, lo, hi, b, n);
  }

  lemma HeldInside(runs: seq<Run>, holder: map<int, int>, ext: map<int, nat>, lo: int, hi: int, b: int, n: nat)
    requires PagesOk(runs, holder, ext, lo, hi) && AllFree(runs, b, n) && 0 < n
    ensures Free(runs, b) && lo <= b && b + n <= hi
  {
    hide Free;
    assert Free(runs, b) && Free(runs, b + n - 1);
  }

  /** The pages of every allocation, old or new, stay its own. */
  lemma HeldPages(runs: seq<Run>, runs2: seq<Run>, holder: map<int, int>, ext: map<int, nat>, lo: int, hi: int, b: int, n: nat)
    requires PagesOk(runs, holder, ext, lo, hi) && AllFree(runs, b, n) && 0 < n && b !in ext && lo <= b && b + n <= hi
    requires forall p :: Free(runs2, p) <==> Free(runs, p) && !(b <= p < b + n)
    ensures PagesOk(runs2, Held(holder, b, n), ext[b := n], lo, hi)
  {
    hide Free, Held;
    HeldMeans(holder, b, n);
    var more := Held(holder, b, n);
    forall s | s in ext ensures Owns(more, s, ext[s]) {
      assert Owns(holder, s, ext[s]);
      forall p | s <= p < s + ext[s] ensures p in more && more[p] == s {
        PageOf(runs, holder, ext, lo, hi, p);
        assert p in holder && holder[p] == s && !Free(runs, p) && !(b <= p < b + n);
      }
    }
  }

  lemma NotHeld(runs: seq<Run>, holder: map<int, int>, ext: map<int, nat>, lo: int, hi: int, b: int)
    requires PagesOk(runs, holder, ext, lo, hi) && Free(runs, b)
    ensures b !in ext
  {
    assert b in ext ==> Owns(holder, b, ext[b]);
  }

  lemma DroppingOk(runs: seq<Run>, runs2: seq<Run>, holder: map<int, int>, ext: map<int, nat>, lo: int, hi: int, b: int)
    requires PagesOk(runs, holder, ext, lo, hi) && b in ext
    requires forall p :: Free(runs2, p) <==> Free(runs, p) || b <= p < b + ext[b]
    ensures PagesOk(runs2, Dropping(holder, b), ext - {b}, lo, hi)
  {
    hide Free, Dropping;
    var left := Dropping(holder, b);
    forall p ensures lo <= p < hi <==> Free(runs2, p) || p in left { PageDropped(runs, runs2, holder, ext, lo, hi, b, p); }
    forall p | p in left ensures !Free(runs2, p) && left[p] in ext - {b} && left[p] <= p < left[p] + ext[left[p]] {
      PageDropped(runs, runs2, holder, ext, lo, hi, b, p);
    }
    forall s | s in ext && s != b ensures 0 < ext[s] && Owns(left, s, ext[s]) { OwnerKept(runs, holder, ext, lo, hi, b, s); }
  }

  /** What happens to one page. */
  lemma PageDropped(runs: seq<Run>, runs2: seq<Run>, holder: map<int, int>, ext: map<int, nat>, lo: int, hi: int, b: int, p: int)
    requires PagesOk(runs, holder, ext, lo, hi) && b in ext
    requires Free(runs2, p) <==> Free(runs, p) || b <= p < b + ext[b]
    ensures lo <= p < hi <==> Free(runs2, p) || p in Dropping(holder, b)
    ensures p in Dropping(holder, b) ==> !Free(runs2, p) && Dropping(holder, b)[p] == holder[p] && holder[p] in ext - {b}
                                         && holder[p] <= p < holder[p] + ext[holder[p]]
  {
    PageOf(runs, holder, ext, lo, hi, p);
    OwnerOf(runs, holder, ext, lo, hi, b);
    hide Free, PagesOk;
  }

  lemma OwnerOf(runs: seq<Run>, holder: map<int, int>, ext: map<int, nat>, lo: int, hi: int, s: int)
    requires PagesOk(runs, holder, ext, lo, hi) && s in ext
    ensures 0 < ext[s] && Owns(holder, s, ext[s])
  {
    hide Free, Owns;
  }

  lemma OwnerKept(runs: seq<Run>, holder: map<int, int>, ext: map<int, nat>, lo: int, hi: int, b: int, s: int)
    requires PagesOk(runs, holder, ext, lo, hi) && s in ext && s != b
    ensures 0 < ext[s] && Owns(Dropping(holder, b), s, ext[s])
  {
    OwnerOf(runs, holder, ext, lo, hi, s);
    hide Free, PagesOk;
  }

  lemma PageOf(runs: seq<Run>, holder: map<int, int>, ext: map<int, nat>, lo: int, hi: int, p: int)
    requires PagesOk(runs, holder, ext, lo, hi)
    ensures lo <= p < hi <==> Free(runs, p) || p in holder
    ensures p in holder ==> !Free(runs, p) && holder[p] in ext && holder[p] <= p < holder[p] + ext[holder[p]]
  {
    hide Free, Owns;
  }

  /** Two allocations have no page in common, and none of their pages is free. */
  lemma ExtentsApart(runs: seq<Run>, holder: map<int, int>, ext: map<int, nat>, lo: int, hi: int, a: int, b: int)
    requires PagesOk(runs, holder, ext, lo, hi) && a in ext && b in ext
    ensures a != b ==> a + ext[a] <= b || b + ext[b] <= a
    ensures NoneFree(runs, a, ext[a]) && lo <= a && a + ext[a] <= hi && 0 < a
  {
    hide Free;
    assert Owns(holder, a, ext[a]) && Owns(holder, b, ext[b]);
    assert a in holder && a + ext[a] - 1 in holder && b in holder;
  }
}
