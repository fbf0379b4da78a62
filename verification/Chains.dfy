/** Singly linked lists that end in NULL: message cells, pages, slab zones and free chunks. A node is
    its address, and the next fields of all nodes together are one map. */
module Chains {
  import opened RtList

  function Behind(s: seq<int>, i: int): int {
    if 0 <= i + 1 < |s| then s[i + 1] else 0
  }

  /** The nodes of s, linked through next from the head on, the last one to NULL. */
  ghost predicate Chain(next: map<int, int>, head: int, s: seq<int>) {
    && head == (if s == [] then 0 else s[0]) && 0 !in s && Distinct(s)
    && forall i :: 0 <= i < |s| ==> s[i] in next && next[s[i]] == Behind(s, i)
  }

  function Tail(s: seq<int>): int {
    if s == [] then 0 else s[|s| - 1]
  }

  lemma ChainFrame(next: map<int, int>, head: int, s: seq<int>, c: int, v: int)
    requires Chain(next, head, s) && c !in s
    ensures Chain(next[c := v], head, s)
  {
  }

  lemma ChainPop(next: map<int, int>, head: int, s: seq<int>)
    requires Chain(next, head, s) && s != []
    ensures head in next && head == s[0] && Chain(next, next[head], s[1..]) && head !in s[1..]
    ensures Tail(s) == head <==> |s| == 1
    ensures Tail(s[1..]) == if |s| == 1 then 0 else Tail(s)
  {
    assert next[s[0]] == Behind(s, 0);
    forall i | 0 <= i < |s| - 1 ensures s[1..][i] in next && next[s[1..][i]] == Behind(s[1..], i) {
      assert s[1..][i] == s[i + 1] && next[s[i + 1]] == Behind(s, i + 1);
    }
  }

  lemma ChainPush(next: map<int, int>, head: int, s: seq<int>, c: int)
    requires Chain(next, head, s) && c !in s && c != 0
    ensures Chain(next[c := head], c, [c] + s)
    ensures Tail([c] + s) == if s == [] then c else Tail(s)
  {
    var n, u := next[c := head], [c] + s;
    forall i | 0 <= i < |u| ensures u[i] in n && n[u[i]] == Behind(u, i) {
      if i > 0 { assert next[s[i - 1]] == Behind(s, i - 1); }
    }
  }

  lemma ChainAppend(next: map<int, int>, head: int, s: seq<int>, c: int)
    requires Chain(next, head, s) && c !in s && c != 0 && c in next && next[c] == 0
    ensures s == [] ==> Chain(next, c, [c])
    ensures s != [] ==> Tail(s) in s && Chain(next[Tail(s) := c], head, s + [c])
    ensures Tail(s + [c]) == c && (Tail(s) == 0 <==> s == [])
  {
    if s != [] {
      var n, u := next[Tail(s) := c], s + [c];
      forall i | 0 <= i < |u| ensures u[i] in n && n[u[i]] == Behind(u, i) {
        if i < |s| - 1 { assert s[i] != s[|s| - 1] && next[s[i]] == Behind(s, i); }
      }
    }
  }

  lemma ChainHead(next: map<int, int>, head: int, s: seq<int>)
    requires Chain(next, head, s)
    ensures head == 0 <==> s == []
    ensures s != [] ==> head == s[0]
  {
  }

  lemma TailMember(s: seq<int>)
    ensures s != [] ==> Tail(s) in s
    ensures s == [] ==> Tail(s) == 0
  {
  }

  /** The node in front of member i, or 0 for the list head itself. */
  function Front(s: seq<int>, i: int): int {
    if 0 < i <= |s| then s[i - 1] else 0
  }

  /** The value at the place that points to member i: the head or a next field. */
  function Read(next: map<int, int>, head: int, at: int): int {
    if at == 0 then head else if at in next then next[at] else 0
  }

  lemma ChainRead(next: map<int, int>, head: int, s: seq<int>, i: nat)
    requires Chain(next, head, s) && i <= |s|
    ensures Read(next, head, Front(s, i)) == if i < |s| then s[i] else 0
    ensures i < |s| ==> s[i] != 0 && s[i] in next && next[s[i]] == Behind(s, i)
    ensures 0 < i ==> Front(s, i) != 0 && Front(s, i) in next
  {
    if i > 0 { assert next[s[i - 1]] == Behind(s, i - 1); }
  }

  /** Storing past member i at the place in front of it takes it out. */
  lemma ChainDrop(next: map<int, int>, head: int, s: seq<int>, i: nat)
    requires Chain(next, head, s) && i < |s|
    ensures s[i] in next
    ensures i == 0 ==> Chain(next, next[s[i]], Dropped(s, i))
    ensures i > 0 ==> Chain(next[s[i - 1] := next[s[i]]], head, Dropped(s, i))
    ensures s[i] !in Dropped(s, i) && forall x :: x in Dropped(s, i) <==> x in s && x != s[i]
  {
    var d := Dropped(s, i);
    assert next[s[i]] == Behind(s, i);
    DroppedMembers(s, i);
    var n := if i == 0 then next else next[s[i - 1] := next[s[i]]];
    forall j | 0 <= j < |d| ensures d[j] in n && n[d[j]] == Behind(d, j) {
      var k := if j < i then j else j + 1;
      assert d[j] == s[k] && next[s[k]] == Behind(s, k);
    }
  }

  lemma DroppedMembers(s: seq<int>, i: nat)
    requires Distinct(s) && i < |s|
    ensures Distinct(Dropped(s, i)) && s[i] !in Dropped(s, i) && forall x :: x in Dropped(s, i) <==> x in s && x != s[i]
    ensures |Dropped(s, i)| == |s| - 1 && forall j :: 0 <= j < |s| - 1 ==> Dropped(s, i)[j] == s[if j < i then j else j + 1]
  {
    WithoutIndex(s, i);
    WithoutElements(s, s[i]);
  }
}
