/** The kernel's circular doubly linked lists. A node is a number; the next and prev
    fields of all nodes together are two maps, and each operation rewrites them exactly
    as the pointer code does. Ring(k, s) says that the nodes of s, in order, form one list. */
module RtList {

  datatype Links = Links(next: map<int, int>, prev: map<int, int>)

  ghost predicate Has(k: Links, n: int) {
    n in k.next && n in k.prev
  }

  ghost predicate Distinct(s: seq<int>) {
    forall i, j :: 0 <= i < j < |s| ==> s[i] != s[j]
  }

  ghost predicate Ring(k: Links, s: seq<int>) {
    && s != [] && Distinct(s)
    && (forall i :: 0 <= i < |s| ==> Has(k, s[i]))
    && (forall i :: 0 <= i < |s| - 1 ==> k.next[s[i]] == s[i + 1] && k.prev[s[i + 1]] == s[i])
    && k.next[s[|s| - 1]] == s[0] && k.prev[s[0]] == s[|s| - 1]
  }

  /** rt_list_init */
  function Init(k: Links, l: int): Links {
    Links(k.next[l := l], k.prev[l := l])
  }

  /** rt_list_insert_after */
  function InsertAfter(k: Links, l: int, n: int): Links
    requires l in k.next
  {
    Links(k.next[n := k.next[l]][l := n], k.prev[k.next[l] := n][n := l])
  }

  /** rt_list_insert_before */
  function InsertBefore(k: Links, l: int, n: int): Links
    requires l in k.prev
  {
    Links(k.next[k.prev[l] := n][n := l], k.prev[n := k.prev[l]][l := n])
  }

  /** Takes a node out of its list and leaves its own fields as they are. */
  function Unlink(k: Links, n: int): Links
    requires n in k.next && n in k.prev
  {
    Links(k.next[k.prev[n] := k.next[n]], k.prev[k.next[n] := k.prev[n]])
  }

  /** rt_list_remove */
  function Remove(k: Links, n: int): Links
    requires n in k.next && n in k.prev
  {
    Init(Unlink(k, n), n)
  }

  /** rt_list_isempty */
  predicate IsEmpty(k: Links, l: int)
    requires l in k.next
  {
    k.next[l] == l
  }

  function Inserted(s: seq<int>, i: nat, n: int): seq<int>
    requires i < |s|
  {
    s[..i + 1] + [n] + s[i + 1..]
  }

  function Dropped<T>(s: seq<T>, i: nat): seq<T>
    requires i < |s|
  {
    s[..i] + s[i + 1..]
  }

  lemma InitRing(k: Links, l: int)
    ensures Ring(Init(k, l), [l])
  {
  }

  /** Following next or prev moves one step along the sequence, around the end. */
  lemma Steps(k: Links, s: seq<int>, i: nat)
    requires Ring(k, s) && i < |s|
    ensures Has(k, s[i])
    ensures k.next[s[i]] == if i + 1 < |s| then s[i + 1] else s[0]
    ensures k.prev[s[i]] == if i == 0 then s[|s| - 1] else s[i - 1]
    ensures IsEmpty(k, s[0]) <==> |s| == 1
  {
    if i > 0 { assert k.prev[s[(i - 1) + 1]] == s[i - 1]; }
    if |s| > 1 { assert k.next[s[0]] == s[1]; }
  }

  lemma InsertAfterRing(k: Links, s: seq<int>, i: nat, n: int)
    requires Ring(k, s) && i < |s| && n !in s
    ensures s[i] in k.next && Ring(InsertAfter(k, s[i], n), Inserted(s, i, n))
  {
    Steps(k, s, i);
    var t, k' := Inserted(s, i, n), InsertAfter(k, s[i], n);
    forall j | 0 <= j < |t| - 1 ensures k'.next[t[j]] == t[j + 1] && k'.prev[t[j + 1]] == t[j] {
      if j < i { assert k.next[s[j]] == s[j + 1]; }
      if j > i + 1 { assert k.next[s[j - 1]] == s[(j - 1) + 1]; }
    }
  }

  /** Inserting before a node is inserting after its predecessor. */
  lemma BeforeAfter(k: Links, l: int, m: int, n: int)
    requires Has(k, l) && Has(k, m) && k.next[l] == m && k.prev[m] == l && n != l && n != m
    ensures InsertBefore(k, m, n) == InsertAfter(k, l, n)
  {
  }

  /** Inserting before the list head appends. */
  lemma InsertBeforeRing(k: Links, s: seq<int>, n: int)
    requires Ring(k, s) && n !in s
    ensures s[0] in k.prev && Ring(InsertBefore(k, s[0], n), s + [n])
  {
    var last := |s| - 1;
    Steps(k, s, last);
    assert InsertBefore(k, s[0], n) == InsertAfter(k, s[last], n);
    InsertAfterRing(k, s, last, n);
    assert Inserted(s, last, n) == s + [n];
  }

  lemma UnlinkRing(k: Links, s: seq<int>, i: nat)
    requires Ring(k, s) && 0 < i < |s|
    ensures Has(k, s[i]) && Ring(Unlink(k, s[i]), Dropped(s, i))
  {
    Steps(k, s, i);
    var t, k' := Dropped(s, i), Unlink(k, s[i]);
    forall j | 0 <= j < |t| - 1 ensures k'.next[t[j]] == t[j + 1] && k'.prev[t[j + 1]] == t[j] {
      if j < i - 1 { assert k.next[s[j]] == s[j + 1]; }
      if j >= i { assert k.next[s[j + 1]] == s[(j + 1) + 1]; }
    }
  }

  /** Removing a node shortens its list and leaves the node alone in a list of its own. */
  lemma RemoveRing(k: Links, s: seq<int>, i: nat)
    requires Ring(k, s) && 0 < i < |s|
    ensures Has(k, s[i]) && Ring(Remove(k, s[i]), Dropped(s, i)) && Ring(Remove(k, s[i]), [s[i]])
  {
    UnlinkRing(k, s, i);
    FieldFrame(Unlink(k, s[i]), Dropped(s, i), s[i], s[i], s[i]);
  }

  /** Removing an unlinked node changes nothing. */
  lemma RemoveAlone(k: Links, n: int)
    requires Ring(k, [n])
    ensures Remove(k, n) == k
  {
  }

  /** Fields of a node outside a list do not matter to the list. */
  lemma FieldFrame(k: Links, s: seq<int>, n: int, x: int, y: int)
    requires Ring(k, s) && n !in s
    ensures Ring(Links(k.next[n := x], k.prev[n := y]), s)
  {
  }

  /** Inserting a node next to a member of one list leaves every list disjoint from both alone. */
  lemma InsertFrame(k: Links, s: seq<int>, i: nat, n: int, t: seq<int>)
    requires Ring(k, s) && i < |s| && Ring(k, t) && n !in t && forall x :: x in t ==> x !in s
    ensures s[i] in k.next && Ring(InsertAfter(k, s[i], n), t)
  {
    Steps(k, s, i);
    assert k.next[s[i]] in s && s[i] in s;
    SameFields(k, InsertAfter(k, s[i], n), t);
  }

  lemma RemoveFrame(k: Links, s: seq<int>, i: nat, t: seq<int>)
    requires Ring(k, s) && i < |s| && Ring(k, t) && forall x :: x in t ==> x !in s
    ensures Has(k, s[i]) && Ring(Remove(k, s[i]), t)
  {
    Steps(k, s, i);
    assert k.next[s[i]] in s && k.prev[s[i]] in s && s[i] in s;
    SameFields(k, Remove(k, s[i]), t);
  }

  /** Only the fields of its own nodes matter to a list. */
  lemma SameFields(k: Links, k': Links, t: seq<int>)
    requires Ring(k, t)
    requires forall x :: x in t && Has(k, x) ==> Has(k', x) && k'.next[x] == k.next[x] && k'.prev[x] == k.prev[x]
    ensures Ring(k', t)
  {
    assert forall j :: 0 <= j < |t| ==> t[j] in t && Has(k, t[j]);
  }

  /** rt_list_remove undoes rt_list_insert_after, for the list and for the links of its nodes. */
  lemma RemoveUndoesInsert(k: Links, s: seq<int>, i: nat, n: int)
    requires Ring(k, s) && i < |s| && n !in s
    ensures s[i] in k.next && var k1 := InsertAfter(k, s[i], n);
            && Has(k1, n) && Ring(Remove(k1, n), s)
            && (forall j :: 0 <= j < |s| ==> Has(Remove(k1, n), s[j]))
            && (forall j :: 0 <= j < |s| ==> Remove(k1, n).next[s[j]] == k.next[s[j]])
            && (forall j :: 0 <= j < |s| ==> Remove(k1, n).prev[s[j]] == k.prev[s[j]])
  {
    InsertAfterRing(k, s, i, n);
    var k1, t := InsertAfter(k, s[i], n), Inserted(s, i, n);
    RemoveRing(k1, t, i + 1);
    assert Dropped(t, i + 1) == s;
    forall j | 0 <= j < |s| ensures Has(Remove(k1, n), s[j])
      && Remove(k1, n).next[s[j]] == k.next[s[j]] && Remove(k1, n).prev[s[j]] == k.prev[s[j]] {
      Steps(k, s, j);
      Steps(Remove(k1, n), s, j);
    }
  }

  function Without(s: seq<int>, t: int): (r: seq<int>)
    ensures t !in s ==> r == s
  {
    if s == [] then [] else if s[0] == t then s[1..] else [s[0]] + Without(s[1..], t)
  }

  lemma {:induction false} WithoutIndex(s: seq<int>, i: nat)
    requires i < |s| && Distinct(s)
    ensures Without(s, s[i]) == Dropped(s, i)
  {
    if i > 0 {
      assert s[1..][i - 1] == s[i] && s[0] != s[i];
      WithoutIndex(s[1..], i - 1);
      assert Dropped(s, i) == [s[0]] + Dropped(s[1..], i - 1);
    }
  }

  lemma WithoutElements(s: seq<int>, t: int)
    requires Distinct(s)
    ensures forall x :: x in Without(s, t) <==> x in s && x != t
    ensures Distinct(Without(s, t))
  {
    if t in s {
      var i :| 0 <= i < |s| && s[i] == t;
      WithoutIndex(s, i);
      DroppedElements(s, i);
    }
  }

  function InsertedAt(s: seq<int>, i: nat, t: int): seq<int>
    requires i <= |s|
  {
    s[..i] + [t] + s[i..]
  }

  /** The members of a list behind its head. */
  lemma RingTail(k: Links, head: int, s: seq<int>)
    requires Ring(k, [head] + s)
    ensures Distinct(s) && head !in s && Has(k, head)
  {
    var r := [head] + s;
    assert r[0] == head && forall j :: 0 <= j < |s| ==> r[j + 1] == s[j];
  }

  lemma DropBehind(head: int, s: seq<int>, i: nat)
    requires i < |s|
    ensures Dropped([head] + s, i + 1) == [head] + Dropped(s, i)
  {
  }

  lemma DroppedElements(s: seq<int>, k: nat)
    requires Distinct(s) && k < |s|
    ensures forall a :: a in Dropped(s, k) <==> a in s && a != s[k]
  {
    forall a | a in s && a != s[k] ensures a in Dropped(s, k) {
      var j :| 0 <= j < |s| && s[j] == a;
      assert Dropped(s, k)[if j < k then j else j - 1] == a;
    }
  }

  lemma InitFrame(k: Links, s: seq<int>, n: int)
    requires Ring(k, s) && n !in s
    ensures Ring(Init(k, n), s)
  {
    FieldFrame(k, s, n, n, n);
  }

  // ---- which nodes an operation writes ----

  /** The links of node x are the same. */
  predicate SameNode(k: Links, k': Links, x: int) {
    && (x in k.next <==> x in k'.next) && (x in k.next && x in k'.next ==> k.next[x] == k'.next[x])
    && (x in k.prev <==> x in k'.prev) && (x in k.prev && x in k'.prev ==> k.prev[x] == k'.prev[x])
  }

  /** Only links of nodes in w differ. */
  ghost predicate Touches(k: Links, k': Links, w: set<int>) {
    forall x :: x !in w ==> SameNode(k, k', x)
  }

  lemma InsertTouches(k: Links, l: int, n: int)
    requires l in k.next
    ensures Touches(k, InsertAfter(k, l, n), {l, n, k.next[l]})
  {
  }

  lemma UnlinkTouches(k: Links, n: int)
    requires Has(k, n)
    ensures Touches(k, Unlink(k, n), {k.prev[n], k.next[n]})
  {
  }

  /** Links lead from members to members. */
  lemma RingClosed(k: Links, s: seq<int>, x: int)
    requires Ring(k, s) && x in s
    ensures Has(k, x) && k.next[x] in s && k.prev[x] in s
  {
    var i :| 0 <= i < |s| && s[i] == x;
    Steps(k, s, i);
  }
}
