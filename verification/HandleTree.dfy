/** The tree of entity handles: an intrusive doubly linked list of children at
  * every handle, and the teardown that runs children before parents. */
module HandleTree {
  import opened Sequences

  // ---- Child sequences, as values ----------------------------------------------

  /** A handle's name: its place in allocation order, so a parent is below its children. */
  type Id = nat

  /** Each handle's children, first to last. */
  type Kids = map<Id, seq<Id>>

  /** The children of h are known, allocated after it and listed once each. */
  ghost predicate GoodList(k: Kids, h: Id)
    requires h in k
  {
    Distinct(k[h]) && forall c :: c in k[h] ==> c in k && h < c
  }

  /** A forest: good lists, and no handle in two of them. */
  ghost predicate IsForest(k: Kids) {
    && (forall h :: h in k ==> GoodList(k, h))
    && (forall h, g, c :: h in k && g in k && c in k[h] && c in k[g] ==> h == g)
  }

  ghost predicate Bounded(k: Kids, limit: nat) {
    forall h :: h in k ==> h < limit
  }

  /** The order in which a teardown of h runs: children in list order, then h. */
  ghost function Post(k: Kids, limit: nat, h: Id): seq<Id>
    requires IsForest(k) && Bounded(k, limit) && h in k
    decreases limit - h, |k[h]| + 1
  {
    PostAll(k, limit, h, k[h]) + [h]
  }

  ghost function PostAll(k: Kids, limit: nat, h: Id, cs: seq<Id>): seq<Id>
    requires IsForest(k) && Bounded(k, limit) && h in k
    requires forall c :: c in cs ==> c in k[h]
    decreases limit - h, |cs|
  {
    if cs == [] then []
    else PostAll(k, limit, h, cs[..|cs| - 1]) + Post(k, limit, cs[|cs| - 1])
  }

  ghost function Elements(s: seq<Id>): set<Id> {
    set x | x in s
  }

  function Minus(s: seq<Id>, dead: set<Id>): seq<Id> {
    if s == [] then []
    else Minus(s[..|s| - 1], dead) + (if s[|s| - 1] in dead then [] else [s[|s| - 1]])
  }

  /** The child sequences once the dead handles are gone from every list. */
  ghost function Without(k: Kids, dead: set<Id>): Kids {
    map h | h in k :: if h in dead then [] else Minus(k[h], dead)
  }

  // ---- Facts about the teardown order --------------------------------------------

  /** The subtree holds h, no handle allocated before h, every child of its members, and
    * the parent of every member but h. */
  lemma {:induction false} PostMembers(k: Kids, limit: nat, h: Id)
    requires IsForest(k) && Bounded(k, limit) && h in k
    ensures var post := Post(k, limit, h);
      && h in post
      && (forall x :: x in post ==> x in k && h <= x)
      && (forall x, c :: x in post && c in k[x] ==> c in post)
      && (forall x, g :: x in post && x != h && g in k && x in k[g] ==> g in post)
    decreases limit - h, |k[h]| + 1
  {
    PostAllMembers(k, limit, h, k[h]);
  }

  lemma {:induction false} PostAllMembers(k: Kids, limit: nat, h: Id, cs: seq<Id>)
    requires IsForest(k) && Bounded(k, limit) && h in k
    requires forall c :: c in cs ==> c in k[h]
    ensures var post := PostAll(k, limit, h, cs);
      && (forall c :: c in cs ==> c in post)
      && (forall x :: x in post ==> x in k && h < x)
      && (forall x, c :: x in post && c in k[x] ==> c in post)
      && (forall x, g :: x in post && g in k && x in k[g] ==> g == h || g in post)
    decreases limit - h, |cs|
  {
    if cs != [] {
      var last := cs[|cs| - 1];
      PostAllMembers(k, limit, h, cs[..|cs| - 1]);
      assert last in k[h] && last in k;
      PostMembers(k, limit, last);
    }
  }

  /** A member of a subtree other than its root has a parent. */
  lemma {:induction false} ParentInPost(k: Kids, limit: nat, h: Id, x: Id) returns (g: Id)
    requires IsForest(k) && Bounded(k, limit) && h in k
    requires x in Post(k, limit, h) && x != h
    ensures g in k && x in k[g]
    decreases limit - h, |k[h]| + 1
  {
    g := ParentInPostAll(k, limit, h, k[h], x);
  }

  /** Subtrees of different children of one handle share nothing. */
  lemma {:induction false} SiblingsApart(k: Kids, limit: nat, h: Id, a: Id, b: Id, x: Id)
    requires IsForest(k) && Bounded(k, limit) && h in k
    requires a in k[h] && b in k[h]
    requires x in Post(k, limit, a) && x in Post(k, limit, b)
    ensures a == b
    decreases x
  {
    PostMembers(k, limit, a);
    PostMembers(k, limit, b);
    if x != a && x != b {
      var g := ParentInPost(k, limit, a, x);
      SiblingsApart(k, limit, h, a, b, g);
    }
  }

  lemma {:induction false} ParentInPostAll(k: Kids, limit: nat, h: Id, cs: seq<Id>, x: Id)
    returns (g: Id)
    requires IsForest(k) && Bounded(k, limit) && h in k
    requires forall c :: c in cs ==> c in k[h]
    requires x in PostAll(k, limit, h, cs)
    ensures g in k && x in k[g]
    decreases limit - h, |cs|
  {
    var last := cs[|cs| - 1];
    if x == last {
      g := h;
    } else if x in Post(k, limit, last) {
      g := ParentInPost(k, limit, last, x);
    } else {
      g := ParentInPostAll(k, limit, h, cs[..|cs| - 1], x);
    }
  }

  /** No handle of an earlier sibling's subtree is in a later one's. */
  lemma {:induction false} EarlierApart(k: Kids, limit: nat, h: Id, cs: seq<Id>, c: Id, x: Id)
    requires IsForest(k) && Bounded(k, limit) && h in k
    requires (forall d :: d in cs ==> d in k[h]) && c in k[h] && c !in cs
    requires x in PostAll(k, limit, h, cs)
    ensures x !in Post(k, limit, c)
  {
    var last := cs[|cs| - 1];
    if x in Post(k, limit, last) {
      if x in Post(k, limit, c) {
        SiblingsApart(k, limit, h, last, c, x);
      }
    } else {
      EarlierApart(k, limit, h, cs[..|cs| - 1], c, x);
    }
  }

  /** A teardown runs no handle twice. */
  lemma {:induction false} PostDistinct(k: Kids, limit: nat, h: Id)
    requires IsForest(k) && Bounded(k, limit) && h in k
    ensures Distinct(Post(k, limit, h))
    decreases limit - h, |k[h]| + 1
  {
    PostAllDistinct(k, limit, h, k[h]);
    PostAllMembers(k, limit, h, k[h]);
  }

  lemma DistinctConcat(a: seq<Id>, b: seq<Id>)
    requires Distinct(a) && Distinct(b) && forall x :: x in a ==> x !in b
    ensures Distinct(a + b)
  {
    forall i, j | 0 <= i < j < |a + b| ensures (a + b)[i] != (a + b)[j] {
      if i < |a| <= j {
        assert (a + b)[i] in a && (a + b)[j] in b;
      }
    }
  }

  lemma {:induction false} PostAllDistinct(k: Kids, limit: nat, h: Id, cs: seq<Id>)
    requires IsForest(k) && Bounded(k, limit) && h in k
    requires (forall c :: c in cs ==> c in k[h]) && Distinct(cs)
    ensures Distinct(PostAll(k, limit, h, cs))
    decreases limit - h, |cs|
  {
    if cs != [] {
      var last := cs[|cs| - 1];
      var front := PostAll(k, limit, h, cs[..|cs| - 1]);
      PostAllDistinct(k, limit, h, cs[..|cs| - 1]);
      assert last in k[h] && last in k;
      PostDistinct(k, limit, last);
      forall x | x in front ensures x !in Post(k, limit, last) {
        EarlierApart(k, limit, h, cs[..|cs| - 1], last, x);
      }
      DistinctConcat(front, Post(k, limit, last));
    }
  }

  /** Every child comes strictly before its parent. */
  ghost predicate ChildrenFirst(k: Kids, order: seq<Id>) {
    forall i, c :: 0 <= i < |order| && order[i] in k && c in k[order[i]] ==> c in order[..i]
  }

  lemma {:induction false} PostChildrenFirst(k: Kids, limit: nat, h: Id)
    requires IsForest(k) && Bounded(k, limit) && h in k
    ensures ChildrenFirst(k, Post(k, limit, h))
    decreases limit - h, |k[h]| + 1
  {
    PostAllChildrenFirst(k, limit, h, k[h]);
    PostAllMembers(k, limit, h, k[h]);
    var front := PostAll(k, limit, h, k[h]);
    forall i, c | 0 <= i < |front| + 1 && (front + [h])[i] in k && c in k[(front + [h])[i]]
      ensures c in (front + [h])[..i]
    {
      assert (front + [h])[..i] == front[..i];
      if i == |front| {
        assert front[..i] == front;
      }
    }
  }

  lemma {:induction false} PostAllChildrenFirst(k: Kids, limit: nat, h: Id, cs: seq<Id>)
    requires IsForest(k) && Bounded(k, limit) && h in k
    requires forall c :: c in cs ==> c in k[h]
    ensures ChildrenFirst(k, PostAll(k, limit, h, cs))
    decreases limit - h, |cs|
  {
    if cs != [] {
      var last := cs[|cs| - 1];
      var front := PostAll(k, limit, h, cs[..|cs| - 1]);
      var back := Post(k, limit, last);
      PostAllChildrenFirst(k, limit, h, cs[..|cs| - 1]);
      PostChildrenFirst(k, limit, last);
      forall i, c | 0 <= i < |front + back| && (front + back)[i] in k && c in k[(front + back)[i]]
        ensures c in (front + back)[..i]
      {
        if i < |front| {
          assert (front + back)[..i] == front[..i];
        } else {
          assert (front + back)[..i] == front + back[..i - |front|];
        }
      }
    }
  }

  /** The order depends on the subtree only. */
  lemma {:induction false} PostLocal(k: Kids, k': Kids, limit: nat, h: Id)
    requires IsForest(k) && IsForest(k') && Bounded(k, limit) && Bounded(k', limit) && h in k
    requires forall x :: x in Post(k, limit, h) ==> x in k && x in k' && k'[x] == k[x]
    ensures h in k' && Post(k', limit, h) == Post(k, limit, h)
    decreases limit - h, |k[h]| + 1
  {
    assert h in Post(k, limit, h);
    PostAllLocal(k, k', limit, h, k[h]);
  }

  lemma {:induction false} PostAllLocal(k: Kids, k': Kids, limit: nat, h: Id, cs: seq<Id>)
    requires IsForest(k) && IsForest(k') && Bounded(k, limit) && Bounded(k', limit) && h in k
    requires h in k' && k'[h] == k[h]
    requires forall c :: c in cs ==> c in k[h]
    requires forall x :: x in PostAll(k, limit, h, cs) ==> x in k && x in k' && k'[x] == k[x]
    ensures PostAll(k', limit, h, cs) == PostAll(k, limit, h, cs)
    decreases limit - h, |cs|
  {
    if cs != [] {
      PostAllLocal(k, k', limit, h, cs[..|cs| - 1]);
      assert cs[|cs| - 1] in k[h] && cs[|cs| - 1] in k;
      PostLocal(k, k', limit, cs[|cs| - 1]);
    }
  }

  // ---- Facts about dropping handles from the lists -----------------------------------

  lemma {:induction false} MinusMembers(s: seq<Id>, dead: set<Id>)
    ensures forall x :: x in Minus(s, dead) <==> x in s && x !in dead
  {
    if s != [] {
      MinusMembers(s[..|s| - 1], dead);
      assert s == s[..|s| - 1] + [s[|s| - 1]];
    }
  }

  lemma {:induction false} MinusDistinct(s: seq<Id>, dead: set<Id>)
    requires Distinct(s)
    ensures Distinct(Minus(s, dead))
  {
    if s != [] {
      MinusDistinct(s[..|s| - 1], dead);
      MinusMembers(s[..|s| - 1], dead);
      DistinctConcat(Minus(s[..|s| - 1], dead), if s[|s| - 1] in dead then [] else [s[|s| - 1]]);
    }
  }

  lemma {:induction false} MinusNone(s: seq<Id>, dead: set<Id>)
    requires forall x :: x in s ==> x !in dead
    ensures Minus(s, dead) == s
  {
    if s != [] {
      MinusNone(s[..|s| - 1], dead);
      assert s == s[..|s| - 1] + [s[|s| - 1]];
    }
  }

  lemma {:induction false} MinusTwice(s: seq<Id>, a: set<Id>, b: set<Id>)
    ensures Minus(Minus(s, a), b) == Minus(s, a + b)
  {
    if s != [] {
      var front := s[..|s| - 1];
      MinusTwice(front, a, b);
      if s[|s| - 1] in a {
        assert Minus(s, a) == Minus(front, a) && Minus(s, a + b) == Minus(front, a + b);
      } else {
        assert (Minus(front, a) + [s[|s| - 1]])[..|Minus(front, a)|] == Minus(front, a);
      }
    }
  }

  lemma WithoutTwice(k: Kids, a: set<Id>, b: set<Id>)
    ensures Without(Without(k, a), b) == Without(k, a + b)
  {
    forall h | h in k ensures Without(Without(k, a), b)[h] == Without(k, a + b)[h] {
      MinusTwice(k[h], a, b);
    }
  }

  lemma WithoutNone(k: Kids)
    ensures Without(k, {}) == k
  {
    forall h | h in k ensures Without(k, {})[h] == k[h] {
      MinusNone(k[h], {});
    }
  }

  lemma SubForest(k: Kids, w: Kids)
    requires IsForest(k) && w.Keys == k.Keys
    requires forall h :: h in w ==> Distinct(w[h])
    requires forall h, x :: h in w && x in w[h] ==> x in k[h]
    ensures IsForest(w)
  {
    forall h | h in w ensures GoodList(w, h) {
      assert GoodList(k, h);
      forall c | c in w[h] ensures c in w && h < c {
        assert c in k[h];
      }
    }
    forall h, g, c | h in w && g in w && c in w[h] && c in w[g] ensures h == g {
      assert c in k[h] && c in k[g];
    }
  }

  lemma WithoutAt(k: Kids, dead: set<Id>, h: Id)
    requires h in k && Distinct(k[h])
    ensures Distinct(Without(k, dead)[h])
    ensures forall x :: x in Without(k, dead)[h] ==> x in k[h]
  {
    if h !in dead {
      var w := Minus(k[h], dead);
      assert Without(k, dead)[h] == w;
      MinusMembers(k[h], dead);
      assert forall x :: x in w ==> x in k[h];
      MinusDistinct(k[h], dead);
    }
  }

  lemma WithoutIsForest(k: Kids, dead: set<Id>, limit: nat)
    requires IsForest(k) && Bounded(k, limit)
    ensures IsForest(Without(k, dead)) && Bounded(Without(k, dead), limit)
  {
    var w := Without(k, dead);
    assert w.Keys == k.Keys;
    forall h | h in w ensures Distinct(w[h]) {
      WithoutAt(k, dead, h);
    }
    forall h, x | h in w && x in w[h] ensures x in k[h] {
      WithoutAt(k, dead, h);
    }
    SubForest(k, w);
  }

  lemma {:induction false} MinusFront(s: seq<Id>, i: nat, dead: set<Id>)
    requires i <= |s|
    requires forall j :: 0 <= j < |s| ==> (s[j] in dead <==> j < i)
    ensures Minus(s, dead) == s[i..]
  {
    if i < |s| {
      var last := |s| - 1;
      MinusFront(s[..last], i, dead);
      assert s == s[..last] + [s[last]];
      assert (s[..last] + [s[last]])[i..] == s[..last][i..] + [s[last]];
    } else if s != [] {
      MinusFront(s[..|s| - 1], |s| - 1, dead);
    }
  }

  lemma {:induction false} MinusSame(s: seq<Id>, a: set<Id>, b: set<Id>)
    requires forall c :: c in s ==> (c in a <==> c in b)
    ensures Minus(s, a) == Minus(s, b)
  {
    if s != [] {
      MinusSame(s[..|s| - 1], a, b);
    }
  }

  /** What a teardown of h leaves: outside its subtree every list is as before,
    * except that h is gone from its parent's. */
  lemma TeardownLeavesRest(k: Kids, limit: nat, h: Id, x: Id)
    requires IsForest(k) && Bounded(k, limit) && h in k && x in k && x !in Post(k, limit, h)
    ensures Without(k, Elements(Post(k, limit, h)))[x] == Minus(k[x], {h})
    ensures h !in k[x] ==> Minus(k[x], {h}) == k[x]
  {
    PostMembers(k, limit, h);
    if h !in k[x] {
      MinusNone(k[x], {h});
    }
    forall c | c in k[x] ensures c in Post(k, limit, h) <==> c == h {}
    MinusSame(k[x], Elements(Post(k, limit, h)), {h});
  }

  lemma LinkForest(k: Kids, parent: Id, child: Id)
    requires IsForest(k) && parent in k && child in k && parent < child
    requires forall h :: h in k ==> child !in k[h]
    ensures IsForest(k[parent := [child] + k[parent]])
  {
    var w := k[parent := [child] + k[parent]];
    forall h | h in w
      ensures forall c :: c in w[h] <==> c in k[h] || (h == parent && c == child)
    {
    }
    forall h | h in w ensures GoodList(w, h) {
      assert GoodList(k, h);
      if h == parent {
        DistinctConcat([child], k[parent]);
      }
    }
    forall h, g, c | h in w && g in w && c in w[h] && c in w[g] ensures h == g {
      if c != child {
        assert c in k[h] && c in k[g];
      }
    }
  }

  lemma {:induction false} MinusOne(s: seq<Id>, i: nat)
    requires i < |s| && Distinct(s)
    ensures Minus(s, {s[i]}) == s[..i] + s[i + 1..]
  {
    var last := |s| - 1;
    var front := s[..last];
    if i == last {
      MinusNone(front, {s[i]});
      assert s[i + 1..] == [];
    } else {
      MinusOne(front, i);
      assert front[i] == s[i] && s[last] != s[i];
      assert Minus(s, {s[i]}) == (front[..i] + front[i + 1..]) + [s[last]];
      assert front[..i] == s[..i] && front[i + 1..] + [s[last]] == s[i + 1..];
    }
  }

  lemma UnlinkForest(k: Kids, parent: Id, c: Id)
    requires IsForest(k) && parent in k
    ensures IsForest(k[parent := Minus(k[parent], {c})])
  {
    var w := k[parent := Minus(k[parent], {c})];
    MinusMembers(k[parent], {c});
    forall h | h in w ensures Distinct(w[h]) {
      assert GoodList(k, h);
      if h == parent {
        MinusDistinct(k[parent], {c});
      }
    }
    SubForest(k, w);
  }

  // ---- Links, as values ---------------------------------------------------------------

  /** The link fields of one handle, by name; NONE for a null pointer. */
  datatype Cell = Cell(parent: int, first: int, prev: int, next: int)

  type Cells = map<Id, Cell>

  const NONE: int := -1

  function Nth(s: seq<Id>, i: int): int {
    if 0 <= i < |s| then s[i] else NONE
  }

  /** The i-th child of h points back to h and to its neighbours in s. */
  predicate IsNode(m: Cells, h: Id, s: seq<Id>, i: nat)
    requires i < |s|
  {
    s[i] in m && m[s[i]] == Cell(h, m[s[i]].first, Nth(s, i - 1), Nth(s, i + 1))
  }

  /** Following the links from h yields s, forwards and backwards. */
  ghost predicate IsList(m: Cells, h: Id, s: seq<Id>) {
    h in m && m[h].first == Nth(s, 0) && forall i :: 0 <= i < |s| ==> IsNode(m, h, s, i)
  }

  ghost predicate Lists(m: Cells, k: Kids) {
    k.Keys == m.Keys && forall h :: h in k ==> IsList(m, h, k[h])
  }

  lemma NotOwnChild(k: Kids, p: Id)
    requires IsForest(k) && p in k
    ensures Distinct(k[p]) && p !in k[p]
  {
  }

  lemma ListsApart(k: Kids, p: Id, h: Id)
    requires IsForest(k) && p in k && h in k && h != p
    ensures forall x :: x in k[h] ==> x !in k[p]
  {
  }

  /** A list none of whose cells changed is still a list. */
  lemma SameList(m: Cells, n: Cells, h: Id, s: seq<Id>)
    requires IsList(m, h, s) && h in n && n[h].first == m[h].first
    requires forall c :: c in s ==>
      c in m && c in n && n[c].parent == m[c].parent && n[c].prev == m[c].prev && n[c].next == m[c].next
    ensures IsList(n, h, s)
  {
    forall i | 0 <= i < |s| ensures IsNode(n, h, s, i) {
      assert IsNode(m, h, s, i);
    }
  }

  lemma ListInCells(m: Cells, h: Id, s: seq<Id>, c: Id)
    requires IsList(m, h, s) && c in s
    ensures c in m
  {
    var i :| 0 <= i < |s| && s[i] == c;
    assert IsNode(m, h, s, i);
  }

  function WithFirst(m: Cells, h: Id, v: int): Cells
    requires h in m
  {
    m[h := m[h].(first := v)]
  }

  function WithPrev(m: Cells, h: Id, v: int): Cells
    requires h in m
  {
    m[h := m[h].(prev := v)]
  }

  function WithNext(m: Cells, h: Id, v: int): Cells
    requires h in m
  {
    m[h := m[h].(next := v)]
  }

  /** The stores of linking c in front of the children of p. */
  function LinkedCells(m: Cells, p: Id, c: Id): Cells
    requires p in m && c in m && (m[p].first != NONE ==> m[p].first in m)
  {
    var m1 := WithPrev(m, c, NONE);
    var m2 := WithNext(m1, c, m1[p].first);
    var m3 := if m2[p].first != NONE then WithPrev(m2, m2[p].first, c) else m2;
    WithFirst(m3, p, c)
  }

  lemma LinkDefined(m: Cells, p: Id, s: seq<Id>)
    requires IsList(m, p, s)
    ensures m[p].first != NONE ==> m[p].first in m && s != [] && m[p].first == s[0]
  {
    if s != [] {
      assert IsNode(m, p, s, 0);
    }
  }

  lemma LinkFrontList(m: Cells, p: Id, s: seq<Id>, c: Id)
    requires IsList(m, p, s) && Distinct(s) && p !in s && c !in s && c != p && c in m && m[c].parent == p
    ensures m[p].first != NONE ==> m[p].first in m
    ensures IsList(LinkedCells(m, p, c), p, [c] + s)
  {
    LinkDefined(m, p, s);
    var t := [c] + s;
    var n := LinkedCells(m, p, c);
    forall i | 0 <= i < |t| ensures IsNode(n, p, t, i) {
      if i > 0 {
        assert IsNode(m, p, s, i - 1);
        assert t[i] == s[i - 1] && Nth(t, i + 1) == Nth(s, i) && s[i - 1] in s;
        assert i > 1 ==> Nth(t, i - 1) == Nth(s, i - 2) && s[i - 1] != s[0];
      }
    }
  }

  lemma LinkOtherList(m: Cells, p: Id, s: seq<Id>, c: Id, h: Id, t: seq<Id>)
    requires IsList(m, p, s) && IsList(m, h, t) && c in m && h != p && c !in t
    requires forall x :: x in t ==> x !in s
    ensures m[p].first != NONE ==> m[p].first in m
    ensures IsList(LinkedCells(m, p, c), h, t)
  {
    LinkDefined(m, p, s);
    forall x | x in t ensures x in m {
      ListInCells(m, h, t, x);
    }
    SameList(m, LinkedCells(m, p, c), h, t);
  }

  lemma LinkSameParents(m: Cells, p: Id, c: Id)
    requires p in m && c in m && (m[p].first != NONE ==> m[p].first in m)
    ensures SameParents(m, LinkedCells(m, p, c))
  {
  }

  lemma LinkKeepsLists(m: Cells, k: Kids, p: Id, c: Id)
    requires IsForest(k) && Lists(m, k) && p in k && c in k && p != c
    requires m[c].parent == p && forall h :: h in k ==> c !in k[h]
    ensures m[p].first != NONE ==> m[p].first in m
    ensures Lists(LinkedCells(m, p, c), k[p := [c] + k[p]])
  {
    assert IsList(m, p, k[p]);
    NotOwnChild(k, p);
    LinkFrontList(m, p, k[p], c);
    var w := k[p := [c] + k[p]];
    forall h | h in w ensures IsList(LinkedCells(m, p, c), h, w[h]) {
      if h != p {
        assert IsList(m, h, k[h]);
        ListsApart(k, p, h);
        LinkOtherList(m, p, k[p], c, h, k[h]);
      }
    }
  }

  predicate Unlinkable(m: Cells, p: Id, c: Id) {
    && p in m && c in m && m[c].prev != c
    && (m[c].prev != NONE ==> m[c].prev in m) && (m[c].next != NONE ==> m[c].next in m)
  }

  /** The stores of taking c out of the children of p. */
  function UnlinkedCells(m: Cells, p: Id, c: Id): Cells
    requires Unlinkable(m, p, c)
  {
    var m1 := if m[c].prev != NONE then WithNext(m, m[c].prev, m[c].next) else WithFirst(m, p, m[c].next);
    var m2 := if m1[c].next != NONE then WithPrev(m1, m1[c].next, m1[c].prev) else m1;
    WithPrev(WithNext(m2, c, NONE), c, NONE)
  }

  lemma UnlinkDefined(m: Cells, p: Id, s: seq<Id>, i: nat)
    requires IsList(m, p, s) && Distinct(s) && i < |s|
    ensures Unlinkable(m, p, s[i])
    ensures m[s[i]].prev == Nth(s, i - 1) && m[s[i]].next == Nth(s, i + 1)
    ensures (i > 0 ==> s[i - 1] in s) && (i + 1 < |s| ==> s[i + 1] in s)
  {
    assert IsNode(m, p, s, i);
    assert i > 0 ==> IsNode(m, p, s, i - 1);
    assert i + 1 < |s| ==> IsNode(m, p, s, i + 1);
  }

  lemma UnlinkNode(m: Cells, p: Id, s: seq<Id>, i: nat, j: nat)
    requires IsList(m, p, s) && Distinct(s) && p !in s && i < |s| && j < |s| - 1
    ensures Unlinkable(m, p, s[i])
    ensures IsNode(UnlinkedCells(m, p, s[i]), p, s[..i] + s[i + 1..], j)
  {
    UnlinkDefined(m, p, s, i);
    var t := s[..i] + s[i + 1..];
    var o := if j < i then j else j + 1;
    assert IsNode(m, p, s, o);
    assert t[j] == s[o] && s[o] in s && s[o] != s[i];
    assert Nth(t, j - 1) == if o == i + 1 then Nth(s, o - 2) else Nth(s, o - 1);
    assert Nth(t, j + 1) == if o + 1 == i then Nth(s, o + 2) else Nth(s, o + 1);
    assert i > 0 && o + 1 != i ==> s[o] != s[i - 1];
    assert i + 1 < |s| && o != i + 1 ==> s[o] != s[i + 1];
  }

  lemma UnlinkList(m: Cells, p: Id, s: seq<Id>, i: nat)
    requires IsList(m, p, s) && Distinct(s) && p !in s && i < |s|
    ensures Unlinkable(m, p, s[i])
    ensures IsList(UnlinkedCells(m, p, s[i]), p, s[..i] + s[i + 1..])
  {
    UnlinkDefined(m, p, s, i);
    var t := s[..i] + s[i + 1..];
    forall j | 0 <= j < |t| ensures IsNode(UnlinkedCells(m, p, s[i]), p, t, j) {
      UnlinkNode(m, p, s, i, j);
    }
  }

  lemma UnlinkOtherList(m: Cells, p: Id, s: seq<Id>, i: nat, h: Id, t: seq<Id>)
    requires IsList(m, p, s) && Distinct(s) && IsList(m, h, t) && i < |s| && h != p
    requires forall x :: x in t ==> x !in s
    ensures Unlinkable(m, p, s[i])
    ensures IsList(UnlinkedCells(m, p, s[i]), h, t)
  {
    UnlinkDefined(m, p, s, i);
    forall x | x in t ensures x in m {
      ListInCells(m, h, t, x);
    }
    SameList(m, UnlinkedCells(m, p, s[i]), h, t);
  }

  lemma UnlinkSameParents(m: Cells, p: Id, c: Id)
    requires Unlinkable(m, p, c)
    ensures SameParents(m, UnlinkedCells(m, p, c))
  {
  }

  lemma UnlinkKeepsLists(m: Cells, k: Kids, p: Id, i: nat)
    requires IsForest(k) && Lists(m, k) && p in k && i < |k[p]|
    ensures Unlinkable(m, p, k[p][i])
    ensures Lists(UnlinkedCells(m, p, k[p][i]), k[p := k[p][..i] + k[p][i + 1..]])
  {
    assert IsList(m, p, k[p]);
    NotOwnChild(k, p);
    UnlinkList(m, p, k[p], i);
    var w := k[p := k[p][..i] + k[p][i + 1..]];
    forall h | h in w ensures IsList(UnlinkedCells(m, p, k[p][i]), h, w[h]) {
      if h != p {
        assert IsList(m, h, k[h]);
        ListsApart(k, p, h);
        UnlinkOtherList(m, p, k[p], i, h, k[h]);
      }
    }
  }

  lemma UnlinkKeepsAll(m: Cells, k: Kids, p: Id, c: Id)
    requires IsForest(k) && Lists(m, k) && p in k && c in k[p]
    ensures Unlinkable(m, p, c) && SameParents(m, UnlinkedCells(m, p, c))
    ensures Lists(UnlinkedCells(m, p, c), k[p := Minus(k[p], {c})])
    ensures IsForest(k[p := Minus(k[p], {c})])
  {
    var i :| 0 <= i < |k[p]| && k[p][i] == c;
    UnlinkKeepsLists(m, k, p, i);
    UnlinkSameParents(m, p, c);
    UnlinkForest(k, p, c);
    NotOwnChild(k, p);
    MinusOne(k[p], i);
  }

  // ---- What is live -------------------------------------------------------------------

  /** `live` are the valid handles, `busy` the ones being torn down further up the
    * stack, `finis` the teardowns that ran.  Every valid handle is in its
    * parent's list, every linked handle is valid unless it is busy, a handle torn
    * down has no children left, and exactly the handles torn down have run their
    * own teardown, once. */
  ghost predicate Consistent(m: Cells, k: Kids, live: set<Id>, busy: set<Id>, finis: seq<Id>) {
    && m.Keys == k.Keys && live <= k.Keys && busy <= k.Keys && live !! busy
    && (forall i :: i in live && m[i].parent != NONE ==> m[i].parent in k && i in k[m[i].parent])
    && (forall h, c :: h in k && c in k[h] ==> c in k && m[c].parent == h && (c in live || c in busy))
    && (forall h :: h in k && h !in live && h !in busy ==> k[h] == [])
    && Distinct(finis)
    && (forall h :: h in finis <==> h in k && h !in live && h !in busy)
  }

  ghost predicate SameParents(m: Cells, n: Cells) {
    m.Keys == n.Keys && forall i :: i in m ==> n[i].parent == m[i].parent
  }

  /** A teardown only meets valid handles, and every valid handle whose parent it
    * meets. */
  lemma {:induction false} PostIsLive(m: Cells, k: Kids, limit: nat, live: set<Id>, busy: set<Id>,
                                      finis: seq<Id>, h: Id)
    requires IsForest(k) && Bounded(k, limit) && Consistent(m, k, live, busy, finis)
    requires h in live && forall b :: b in busy ==> b < h
    ensures forall x :: x in Post(k, limit, h) ==> x in live
    ensures forall i :: i in live && m[i].parent in Post(k, limit, h) ==> i in Post(k, limit, h)
  {
    PostMembers(k, limit, h);
    forall x | x in Post(k, limit, h) ensures x in live {
      if x != h {
        var g := ParentInPost(k, limit, h, x);
        assert x in k[g];
      }
    }
  }

  /** The members of t are those of s that are not in `post`. */
  ghost predicate Kept(s: seq<Id>, t: seq<Id>, post: seq<Id>) {
    forall c :: c in t <==> c in s && c !in post
  }

  /** `w` is k without the handles of `post`, a set of valid handles closed under children. */
  ghost predicate Dropped(m: Cells, k: Kids, w: Kids, live: set<Id>, post: seq<Id>) {
    && w.Keys == k.Keys && Distinct(post)
    && (forall x :: x in post ==> x in live && x in k && w[x] == [])
    && (forall x :: x in k && x !in post ==> Kept(k[x], w[x], post) && (k[x] == [] ==> w[x] == []))
    && (forall i :: i in live && i in m && m[i].parent in post ==> i in post)
  }

  lemma DroppedConsistent(m: Cells, n: Cells, k: Kids, w: Kids, live: set<Id>, busy: set<Id>, finis: seq<Id>,
                          post: seq<Id>)
    requires Consistent(m, k, live, busy, finis) && SameParents(m, n) && Dropped(m, k, w, live, post)
    ensures Consistent(n, w, live - Elements(post), busy, finis + post)
  {
    hide Distinct;
    DistinctConcat(finis, post);
    var live' := live - Elements(post);
    forall i | i in live' && n[i].parent != NONE ensures n[i].parent in w && i in w[n[i].parent] {
      assert m[i].parent !in post;
    }
    forall h, c | h in w && c in w[h] ensures c in w && n[c].parent == h && (c in live' || c in busy) {
      assert h !in post && Kept(k[h], w[h], post);
    }
    forall h | h in w && h !in live' && h !in busy ensures w[h] == [] {
      assert h !in post ==> k[h] == [];
    }
  }

  lemma TeardownDrops(m: Cells, k: Kids, limit: nat, live: set<Id>, busy: set<Id>, finis: seq<Id>, h: Id)
    requires IsForest(k) && Bounded(k, limit) && Consistent(m, k, live, busy, finis)
    requires h in live && forall b :: b in busy ==> b < h
    ensures Dropped(m, k, Without(k, Elements(Post(k, limit, h))), live, Post(k, limit, h))
  {
    var post := Post(k, limit, h);
    PostIsLive(m, k, limit, live, busy, finis, h);
    PostDistinct(k, limit, h);
    var w := Without(k, Elements(post));
    forall x | x in k && x !in post ensures Kept(k[x], w[x], post) && (k[x] == [] ==> w[x] == []) {
      assert w[x] == Minus(k[x], Elements(post));
      MinusMembers(k[x], Elements(post));
    }
  }

  /** Starting a teardown of h, with h busy and no longer valid. */
  lemma StartConsistent(m: Cells, k: Kids, live: set<Id>, busy: set<Id>, finis: seq<Id>, h: Id)
    requires Consistent(m, k, live, busy, finis) && h in live
    ensures Consistent(m, k, live - {h}, busy + {h}, finis)
  {
  }

  /** Once the first i children are torn down, the list of h starts at the next. */
  lemma ChildrenLeft(k: Kids, limit: nat, h: Id, i: nat)
    requires IsForest(k) && Bounded(k, limit) && h in k && i <= |k[h]|
    ensures Without(k, Elements(PostAll(k, limit, h, k[h][..i])))[h] == k[h][i..]
  {
    var cs := k[h];
    var done := PostAll(k, limit, h, cs[..i]);
    PostAllMembers(k, limit, h, cs[..i]);
    NotOwnChild(k, h);
    forall j | 0 <= j < |cs| ensures cs[j] in Elements(done) <==> j < i {
      if j < i {
        assert cs[..i][j] == cs[j];
      } else if cs[j] in done {
        assert cs[j] !in cs[..i];
        EarlierApart(k, limit, h, cs[..i], cs[j], cs[j]);
        PostMembers(k, limit, cs[j]);
      }
    }
    MinusFront(cs, i, Elements(done));
  }

  lemma NotInEarlier(k: Kids, limit: nat, h: Id, i: nat, x: Id)
    requires IsForest(k) && Bounded(k, limit) && h in k && i < |k[h]| && k[h][i] in k
    requires x in Post(k, limit, k[h][i])
    ensures x !in PostAll(k, limit, h, k[h][..i])
  {
    NotOwnChild(k, h);
    if x in PostAll(k, limit, h, k[h][..i]) {
      EarlierApart(k, limit, h, k[h][..i], k[h][i], x);
    }
  }

  lemma ChildKnown(k: Kids, h: Id, i: nat)
    requires IsForest(k) && h in k && i < |k[h]|
    ensures k[h][i] in k && h < k[h][i]
  {
    assert GoodList(k, h) && k[h][i] in k[h];
  }

  /** The subtree of the next child is as it was at the start. */
  lemma SubtreeUntouched(k: Kids, limit: nat, h: Id, i: nat, x: Id)
    requires IsForest(k) && Bounded(k, limit) && h in k && i < |k[h]| && k[h][i] in k
    requires x in Post(k, limit, k[h][i])
    ensures x in k && Without(k, Elements(PostAll(k, limit, h, k[h][..i])))[x] == k[x]
  {
    var dead := Elements(PostAll(k, limit, h, k[h][..i]));
    PostMembers(k, limit, k[h][i]);
    NotInEarlier(k, limit, h, i, x);
    forall y | y in k[x] ensures y !in dead {
      NotInEarlier(k, limit, h, i, y);
    }
    MinusNone(k[x], dead);
  }

  /** Tearing down the next child does what it would have done at the start. */
  lemma NextChild(k: Kids, limit: nat, h: Id, i: nat)
    requires IsForest(k) && Bounded(k, limit) && h in k && i < |k[h]|
    ensures k[h][i] in k
    ensures var rest := Without(k, Elements(PostAll(k, limit, h, k[h][..i])));
      && IsForest(rest) && Bounded(rest, limit) && k[h][i] in rest
      && Post(rest, limit, k[h][i]) == Post(k, limit, k[h][i])
  {
    ChildKnown(k, h, i);
    var dead := Elements(PostAll(k, limit, h, k[h][..i]));
    var rest := Without(k, dead);
    WithoutIsForest(k, dead, limit);
    forall x | x in Post(k, limit, k[h][i]) ensures x in k && x in rest && rest[x] == k[x] {
      SubtreeUntouched(k, limit, h, i, x);
    }
    PostLocal(k, rest, limit, k[h][i]);
  }

  /** What a teardown of a valid handle does: it runs each handle of the subtree
    * once and only valid ones, every child before its parent, misses no valid
    * handle whose parent it runs, and leaves every other list as it was, except
    * that h is gone from its parent's. */
  lemma TeardownMeaning(m: Cells, k: Kids, limit: nat, live: set<Id>, finis: seq<Id>, h: Id)
    requires IsForest(k) && Bounded(k, limit) && Consistent(m, k, live, {}, finis) && h in live
    ensures var post := Post(k, limit, h);
      && Distinct(post) && h in post
      && (forall x :: x in post ==> x in live)
      && (forall i :: i in live && m[i].parent in post ==> i in post)
      && ChildrenFirst(k, post)
      && (forall x :: x in k && x !in post ==> Without(k, Elements(post))[x] == Minus(k[x], {h}))
  {
    PostDistinct(k, limit, h);
    PostMembers(k, limit, h);
    PostIsLive(m, k, limit, live, {}, finis, h);
    PostChildrenFirst(k, limit, h);
    forall x | x in k && x !in Post(k, limit, h)
      ensures Without(k, Elements(Post(k, limit, h)))[x] == Minus(k[x], {h})
    {
      TeardownLeavesRest(k, limit, h, x);
    }
  }

  lemma LinkKeepsConsistent(m: Cells, n: Cells, k: Kids, live: set<Id>, finis: seq<Id>, p: Id, h: Id)
    requires Consistent(m, k, live, {}, finis) && p in live && h !in k
    requires n.Keys == k.Keys + {h} && n[h].parent == p && forall i :: i in k ==> n[i].parent == m[i].parent
    ensures Consistent(n, k[h := []][p := [h] + k[p]], live + {h}, {}, finis)
  {
    hide Distinct;
    var w := k[h := []][p := [h] + k[p]];
    forall g, c | g in w && c in w[g] ensures c in w && n[c].parent == g && c in live + {h} {
      assert c != h ==> c in k[g];
    }
    forall i | i in live + {h} && n[i].parent != NONE ensures n[i].parent in w && i in w[n[i].parent] {
      assert i != h ==> i in k[m[i].parent];
    }
  }

  /** Linking a new handle keeps the forest consistent exactly when its parent is
    * valid: under a parent already torn down it would be left behind. */
  lemma LinkConsistent(m: Cells, n: Cells, k: Kids, live: set<Id>, finis: seq<Id>, p: Id, h: Id)
    requires Consistent(m, k, live, {}, finis) && p in k && h !in k
    requires n.Keys == k.Keys + {h} && n[h].parent == p && forall i :: i in k ==> n[i].parent == m[i].parent
    ensures Consistent(n, k[h := []][p := [h] + k[p]], live + {h}, {}, finis) <==> p in live
  {
    if p in live {
      LinkKeepsConsistent(m, n, k, live, finis, p, h);
    } else {
      var w := k[h := []][p := [h] + k[p]];
      assert h in w[p];
    }
  }

  // ---- A teardown as a change of state -------------------------------------------------

  /** Everything a teardown changes, as a value. */
  datatype State = State(links: Cells, kids: Kids, live: set<Id>, finis: seq<Id>)

  /** The handles of `order` have been torn down, in that order, and nothing else changed. */
  ghost predicate Torn(s: State, order: seq<Id>, t: State) {
    && SameParents(s.links, t.links)
    && t.finis == s.finis + order
    && t.live == s.live - Elements(order)
    && t.kids == Without(s.kids, Elements(order))
  }

  lemma TornNothing(s: State)
    ensures Torn(s, [], s)
  {
    WithoutNone(s.kids);
    assert Elements([]) == {};
  }

  lemma TornShrinks(s: State, order: seq<Id>, t: State)
    requires Torn(s, order, t)
    ensures t.live <= s.live
  {
  }

  lemma TornTwice(s: State, a: seq<Id>, t: State, b: seq<Id>, u: State)
    requires Torn(s, a, t) && Torn(t, b, u)
    ensures Torn(s, a + b, u)
  {
    WithoutTwice(s.kids, Elements(a), Elements(b));
    assert Elements(a + b) == Elements(a) + Elements(b);
  }

  ghost predicate Good(s: State, limit: nat, busy: set<Id>) {
    && IsForest(s.kids) && Bounded(s.kids, limit) && Lists(s.links, s.kids)
    && Consistent(s.links, s.kids, s.live, busy, s.finis)
  }

  /** Where the loop stands after i children: the head of the list is the next
    * child, valid and not being torn down already. */
  lemma LoopHead(s: State, limit: nat, busy: set<Id>, h: Id, i: nat, t: State)
    requires Good(s, limit, busy) && Good(t, limit, busy) && h in busy && h in s.kids && i <= |s.kids[h]|
    requires forall b :: b in busy ==> b <= h
    requires Torn(s, PostAll(s.kids, limit, h, s.kids[h][..i]), t)
    ensures t.kids[h] == s.kids[h][i..]
    ensures h in t.links && t.links[h].first == (if i < |s.kids[h]| then s.kids[h][i] else NONE)
    ensures i < |s.kids[h]| ==> var c := s.kids[h][i];
      c in s.kids && c in t.kids && h < c && c in t.live && Post(t.kids, limit, c) == Post(s.kids, limit, c)
  {
    ChildrenLeft(s.kids, limit, h, i);
    assert IsList(t.links, h, t.kids[h]);
    if i < |s.kids[h]| {
      ChildKnown(s.kids, h, i);
      NextChild(s.kids, limit, h, i);
      assert t.kids[h][0] in t.kids[h];
    }
  }

  lemma LoopStep(s: State, limit: nat, h: Id, i: nat, t: State, u: State)
    requires IsForest(s.kids) && Bounded(s.kids, limit) && h in s.kids && i < |s.kids[h]| && s.kids[h][i] in s.kids
    requires Torn(s, PostAll(s.kids, limit, h, s.kids[h][..i]), t)
    requires Torn(t, Post(s.kids, limit, s.kids[h][i]), u)
    ensures Torn(s, PostAll(s.kids, limit, h, s.kids[h][..i + 1]), u)
  {
    assert s.kids[h][..i + 1][..i] == s.kids[h][..i];
    TornTwice(s, PostAll(s.kids, limit, h, s.kids[h][..i]), t, Post(s.kids, limit, s.kids[h][i]), u);
  }

  lemma DropUnlisted(k: Kids, h: Id)
    requires h in k && k[h] == [] && forall g :: g in k ==> h !in k[g]
    ensures Without(k, {h}) == k
  {
    forall g | g in k ensures Without(k, {h})[g] == k[g] {
      MinusNone(k[g], {h});
    }
  }

  lemma DropListed(k: Kids, h: Id, p: Id)
    requires h in k && k[h] == [] && p in k && p != h && forall g :: g in k && g != p ==> h !in k[g]
    ensures Without(k, {h}) == k[p := Minus(k[p], {h})]
  {
    forall g | g in k && g != p ensures Without(k, {h})[g] == k[g] {
      MinusNone(k[g], {h});
    }
  }

  /** When every child is torn down: h is in no list but its parent's. */
  lemma AllChildrenDone(s: State, limit: nat, busy: set<Id>, h: Id, t: State)
    requires Good(s, limit, busy) && Good(t, limit, busy + {h}) && h in s.live && h in s.kids
    requires Torn(s.(live := s.live - {h}), PostAll(s.kids, limit, h, s.kids[h]), t)
    ensures h in t.kids && t.kids[h] == []
    ensures h in t.links && forall g :: g in t.kids && g != t.links[h].parent ==> h !in t.kids[g]
    ensures var p := t.links[h].parent; p != NONE ==> p in t.kids && p != h && h in t.kids[p]
  {
    ChildrenLeft(s.kids, limit, h, |s.kids[h]|);
    assert s.kids[h][..|s.kids[h]|] == s.kids[h];
    var p := s.links[h].parent;
    if p != NONE {
      PostAllMembers(s.kids, limit, h, s.kids[h]);
      assert GoodList(s.kids, p);
      MinusMembers(s.kids[p], Elements(PostAll(s.kids, limit, h, s.kids[h])));
    }
  }

  function DropFrom(k: Kids, p: int, h: Id): Kids {
    if p in k then k[p := Minus(k[p], {h})] else k
  }

  /** Leaving the parent's list, if there is one, drops h from every list. */
  lemma LeaveParent(s: State, limit: nat, busy: set<Id>, h: Id, t: State)
    requires Good(s, limit, busy) && Good(t, limit, busy + {h}) && h in s.live && h in s.kids
    requires Torn(s.(live := s.live - {h}), PostAll(s.kids, limit, h, s.kids[h]), t)
    ensures h in t.links
    ensures Without(t.kids, {h}) == DropFrom(t.kids, t.links[h].parent, h)
  {
    AllChildrenDone(s, limit, busy, h, t);
    var p := t.links[h].parent;
    if p in t.kids {
      DropListed(t.kids, h, p);
    } else {
      DropUnlisted(t.kids, h);
    }
  }

  /** h's own teardown completes the order. */
  lemma Finished(s: State, done: seq<Id>, h: Id, t: State, u: State)
    requires h in s.live && Torn(s.(live := s.live - {h}), done, t)
    requires u.finis == t.finis + [h] && u.live == t.live && SameParents(t.links, u.links)
    requires u.kids == Without(t.kids, {h})
    ensures Torn(s, done + [h], u)
  {
    WithoutTwice(s.kids, Elements(done), {h});
    assert Elements(done + [h]) == Elements(done) + {h};
  }

  lemma NoChildYet(k: Kids, limit: nat, h: Id)
    requires IsForest(k) && Bounded(k, limit) && h in k
    ensures PostAll(k, limit, h, k[h][..0]) == []
  {
  }

  lemma FinishedGood(s: State, limit: nat, busy: set<Id>, h: Id, u: State)
    requires Good(s, limit, busy) && h in s.live && h in s.kids && forall b :: b in busy ==> b < h
    requires Torn(s, Post(s.kids, limit, h), u)
    ensures Consistent(u.links, u.kids, u.live, busy, u.finis)
  {
    TeardownDrops(s.links, s.kids, limit, s.live, busy, s.finis, h);
    DroppedConsistent(s.links, u.links, s.kids, u.kids, s.live, busy, s.finis, Post(s.kids, limit, h));
  }

  lemma Conclude(s: State, limit: nat, busy: set<Id>, h: Id, t: State, u: State)
    requires Good(s, limit, busy) && h in s.live && h in s.kids && forall b :: b in busy ==> b < h
    requires Torn(s.(live := s.live - {h}), PostAll(s.kids, limit, h, s.kids[h]), t)
    requires h in t.links && Without(t.kids, {h}) == DropFrom(t.kids, t.links[h].parent, h)
    requires u.finis == t.finis + [h] && u.live == t.live && SameParents(t.links, u.links)
    requires u.kids == DropFrom(t.kids, t.links[h].parent, h)
    ensures Torn(s, Post(s.kids, limit, h), u)
    ensures Consistent(u.links, u.kids, u.live, busy, u.finis)
  {
    var done := PostAll(s.kids, limit, h, s.kids[h]);
    Finished(s, done, h, t, u);
    assert Post(s.kids, limit, h) == done + [h];
    FinishedGood(s, limit, busy, h, u);
  }

  /** Every child of h is torn down, h itself not yet. */
  ghost predicate Finishing(s: State, limit: nat, busy: set<Id>, h: Id, t: State) {
    && Good(s, limit, busy) && h in s.live && h in s.kids && (forall b :: b in busy ==> b < h)
    && Torn(s.(live := s.live - {h}), PostAll(s.kids, limit, h, s.kids[h]), t)
  }

  /** h and its subtree are torn down. */
  ghost predicate TornDown(s: State, limit: nat, h: Id, t: State) {
    IsForest(s.kids) && Bounded(s.kids, limit) && h in s.kids && Torn(s, Post(s.kids, limit, h), t)
  }

  lemma LeavesParent(s: State, limit: nat, busy: set<Id>, h: Id, t: State)
    requires Finishing(s, limit, busy, h, t) && Good(t, limit, busy + {h})
    ensures h in t.links
    ensures var p := t.links[h].parent; p != NONE ==> p in t.kids && h in t.kids[p]
  {
    AllChildrenDone(s, limit, busy, h, t);
  }

  lemma Concludes(s: State, limit: nat, busy: set<Id>, h: Id, t: State, u: State)
    requires Finishing(s, limit, busy, h, t) && Good(t, limit, busy + {h}) && h in t.links
    requires u.finis == t.finis + [h] && u.live == t.live && SameParents(t.links, u.links)
    requires u.kids == DropFrom(t.kids, t.links[h].parent, h)
    requires IsForest(u.kids) && Bounded(u.kids, limit) && Lists(u.links, u.kids)
    ensures TornDown(s, limit, h, u) && Good(u, limit, busy)
  {
    hide Torn, Post, PostAll, Lists, Consistent, SameParents, DropFrom;
    LeaveParent(s, limit, busy, h, t);
    Conclude(s, limit, busy, h, t, u);
  }

  lemma TornDead(s: State, limit: nat, h: Id, t: State)
    requires IsForest(s.kids) && Bounded(s.kids, limit) && h in s.kids
    requires Torn(s, Post(s.kids, limit, h), t)
    ensures h !in t.live
  {
    PostMembers(s.kids, limit, h);
  }

  /** A new handle, not yet in any list. */
  lemma AddKeepsLists(m: Cells, k: Kids, limit: nat, parent: int)
    requires IsForest(k) && Bounded(k, limit) && Lists(m, k)
    ensures IsForest(k[limit := []]) && Bounded(k[limit := []], limit + 1) && limit !in k
    ensures Lists(m[limit := Cell(parent, NONE, NONE, NONE)], k[limit := []])
    ensures forall i :: i in k ==> limit !in k[i]
  {
    var w := k[limit := []];
    var n := m[limit := Cell(parent, NONE, NONE, NONE)];
    assert limit !in k;
    forall h | h in k ensures GoodList(w, h) && limit !in w[h] && IsList(n, h, w[h]) {
      assert GoodList(k, h) && IsList(m, h, k[h]);
      forall c | c in k[h] ensures c in m && c != limit {
        ListInCells(m, h, k[h], c);
      }
      SameList(m, n, h, k[h]);
    }
    assert GoodList(w, limit);
    forall h, g, c | h in w && g in w && c in w[h] && c in w[g] ensures h == g {
      assert c in k[h] && c in k[g];
    }
  }

  lemma AloneConsistent(m: Cells, n: Cells, k: Kids, live: set<Id>, finis: seq<Id>, h: Id)
    requires Consistent(m, k, live, {}, finis) && h !in k
    requires n.Keys == k.Keys + {h} && n[h].parent == NONE && forall i :: i in k ==> n[i].parent == m[i].parent
    ensures Consistent(n, k[h := []], live + {h}, {}, finis)
  {
    var w := k[h := []];
    forall g, c | g in w && c in w[g] ensures c in w && n[c].parent == g && c in live + {h} {
      assert c in k[g];
    }
  }

  lemma LiveIsKnown(s: State, i: Id)
    requires Consistent(s.links, s.kids, s.live, {}, s.finis) && i in s.live
    ensures i in s.kids && s.links.Keys == s.kids.Keys
  {
  }

  // ---- The handles in memory --------------------------------------------------------

  class Handle {
    ghost const id: Id
    var parent: Handle?
    var firstChild: Handle?
    var nextSibling: Handle?
    var prevSibling: Handle?
    /** Cleared by the first teardown. */
    var valid: bool

    constructor (parent: Handle?, ghost id: Id)
      ensures this.parent == parent && this.id == id && valid
      ensures firstChild == null && nextSibling == null && prevSibling == null
    {
      this.parent := parent;
      this.id := id;
      valid := true;
      firstChild, nextSibling, prevSibling := null, null, null;
    }
  }

  ghost function Name(h: Handle?): int {
    if h == null then NONE else h.id
  }

  class Forest {
    ghost var all: set<Handle>
    ghost var at: map<Id, Handle>
    /** What the link fields hold, by name. */
    ghost var links: Cells
    ghost var kids: Kids
    ghost var limit: nat
    /** The valid handles. */
    ghost var live: set<Id>
    /** The type-specific teardowns, in the order they ran. */
    ghost var finis: seq<Id>

    constructor ()
      ensures Valid({}) && all == {} && at == map[] && kids == map[] && finis == []
    {
      all := {};
      at := map[];
      links := map[];
      kids := map[];
      limit := 0;
      live := {};
      finis := [];
    }

    ghost predicate Points(h: Handle?)
      reads `all, `at
    {
      h != null ==> h in all && h.id in at && at[h.id] == h
    }

    ghost predicate KnownAt(i: Id)
      reads `all, `at, `links, `live, all
    {
      i in at ==>
        && at[i] in all && at[i].id == i
        && Points(at[i].parent) && Points(at[i].firstChild)
        && Points(at[i].nextSibling) && Points(at[i].prevSibling)
        && (at[i].valid <==> i in live)
        && i in links
        && links[i] ==
             Cell(Name(at[i].parent), Name(at[i].firstChild), Name(at[i].prevSibling), Name(at[i].nextSibling))
    }

    /** No pointer leaves the forest; `links` and `live` say what the fields hold. */
    ghost predicate Known()
      reads `all, `at, `links, `live, all
    {
      links.Keys == at.Keys && forall i {:trigger KnownAt(i)} :: KnownAt(i)
    }

    /** The pointers spell out the child sequences. */
    ghost predicate Linked()
      reads this, all
    {
      && Known() && kids.Keys == links.Keys
      && IsForest(kids) && Bounded(kids, limit) && Lists(links, kids)
    }

    // One store each.

    method SetFirst(h: Handle, v: Handle?)
      requires Known() && Points(h) && Points(v)
      modifies h`firstChild, this`links
      ensures Known() && h.id in old(links)
      ensures links == WithFirst(old(links), h.id, Name(v))
    {
      assert KnownAt(h.id);
      h.firstChild := v;
      links := links[h.id := links[h.id].(first := Name(v))];
      forall i: Id ensures KnownAt(i) {
        assert old(KnownAt(i));
      }
    }

    method SetPrev(h: Handle, v: Handle?)
      requires Known() && Points(h) && Points(v)
      modifies h`prevSibling, this`links
      ensures Known() && h.id in old(links)
      ensures links == WithPrev(old(links), h.id, Name(v))
    {
      assert KnownAt(h.id);
      h.prevSibling := v;
      links := links[h.id := links[h.id].(prev := Name(v))];
      forall i: Id ensures KnownAt(i) {
        assert old(KnownAt(i));
      }
    }

    method SetNext(h: Handle, v: Handle?)
      requires Known() && Points(h) && Points(v)
      modifies h`nextSibling, this`links
      ensures Known() && h.id in old(links)
      ensures links == WithNext(old(links), h.id, Name(v))
    {
      assert KnownAt(h.id);
      h.nextSibling := v;
      links := links[h.id := links[h.id].(next := Name(v))];
      forall i: Id ensures KnownAt(i) {
        assert old(KnownAt(i));
      }
    }

    method LinkPointers(parent: Handle, child: Handle)
      requires Known() && Points(parent) && Points(child) && parent != child
      modifies all`firstChild, all`prevSibling, all`nextSibling, this`links
      ensures Known()
      ensures var m := old(links);
        && parent.id in m && child.id in m
        && (m[parent.id].first != NONE ==> m[parent.id].first in m)
        && links == LinkedCells(m, parent.id, child.id)
    {
      assert KnownAt(parent.id) && KnownAt(child.id);
      SetPrev(child, null);
      SetNext(child, parent.firstChild);
      if parent.firstChild != null {
        SetPrev(parent.firstChild, child);
      }
      SetFirst(parent, child);
    }

    method UnlinkPointers(parent: Handle, child: Handle)
      requires Known() && Points(parent) && Points(child) && child.prevSibling != child
      modifies all`firstChild, all`prevSibling, all`nextSibling, this`links
      ensures Known()
      ensures var m := old(links);
        Unlinkable(m, parent.id, child.id) && links == UnlinkedCells(m, parent.id, child.id)
    {
      assert KnownAt(parent.id) && KnownAt(child.id);
      if child.prevSibling != null {
        SetNext(child.prevSibling, child.nextSibling);
      } else {
        SetFirst(parent, child.nextSibling);
      }
      assert KnownAt(child.id);
      if child.nextSibling != null {
        SetPrev(child.nextSibling, child.prevSibling);
      }
      SetNext(child, null);
      SetPrev(child, null);
    }

    /** Links a new handle in front of its parent's children. */
    method LinkChild(parent: Handle, child: Handle)
      requires Linked() && Points(parent) && Points(child) && child.parent == parent && parent.id < child.id
      requires forall i :: i in kids ==> child.id !in kids[i]
      modifies this`links, this`kids, all`firstChild, all`prevSibling, all`nextSibling
      ensures Linked() && SameParents(old(links), links)
      ensures kids == old(kids)[parent.id := [child.id] + old(kids)[parent.id]]
    {
      hide IsForest, Lists;
      assert KnownAt(parent.id) && KnownAt(child.id);
      LinkKeepsLists(links, kids, parent.id, child.id);
      LinkSameParents(links, parent.id, child.id);
      LinkForest(kids, parent.id, child.id);
      LinkPointers(parent, child);
      kids := kids[parent.id := [child.id] + kids[parent.id]];
    }

    /** Takes a child out of its parent's list. */
    method UnlinkChild(parent: Handle, child: Handle)
      requires Linked() && Points(parent) && Points(child) && child.id in kids[parent.id]
      modifies this`links, this`kids, all`firstChild, all`prevSibling, all`nextSibling
      ensures Linked() && SameParents(old(links), links)
      ensures kids == old(kids)[parent.id := Minus(old(kids)[parent.id], {child.id})]
    {
      hide IsForest, Lists;
      assert KnownAt(parent.id) && KnownAt(child.id);
      UnlinkKeepsAll(links, kids, parent.id, child.id);
      UnlinkPointers(parent, child);
      kids := kids[parent.id := Minus(kids[parent.id], {child.id})];
    }

    ghost function Now(): State
      reads `links, `kids, `live, `finis
    {
      State(links, kids, live, finis)
    }

    /** Between calls `busy` is empty; during a teardown it holds the handles being
      * torn down further up the stack. */
    ghost predicate Valid(busy: set<Id>)
      reads this, all
    {
      Linked() && Good(Now(), limit, busy)
    }

    /** Children first, then this handle.  A valid handle is torn down with its
      * whole subtree, in post-order, and disappears from its parent's list; an
      * invalid one is left alone. */
    method DestroyLocked(h: Handle, ghost busy: set<Id>)
      requires Valid(busy) && Points(h) && h.id !in busy && forall b :: b in busy ==> b < h.id
      modifies this`links, this`kids, this`live, this`finis, all
      ensures Valid(busy)
      ensures h.id in old(live) ==>
        h.id in old(kids) && Torn(old(Now()), Post(old(kids), limit, h.id), Now())
      ensures h.id !in old(live) ==> Now() == old(Now())
      decreases live
    {
      hide IsForest, Lists, Consistent, Torn, Post, PostAll, SameParents, Valid, Good;
      ValidAt(busy, h.id);
      if !h.valid {
        return;
      }
      ghost var s, id := Now(), h.id;
      Begin(h, busy);
      ghost var s1 := Now();
      ValidAt(busy + {id}, id);
      ghost var i := 0;
      TornNothing(s1);
      NoChildYet(s.kids, limit, id);
      while h.firstChild != null
        invariant i <= |s.kids[id]|
        invariant Valid(busy + {id})
        invariant Torn(s1, PostAll(s.kids, limit, id, s.kids[id][..i]), Now())
        decreases |s.kids[id]| - i
      {
        ValidAt(busy + {id}, id);
        ghost var t := Now();
        LoopHead(s1, limit, busy + {id}, id, i, t);
        TornShrinks(s1, PostAll(s.kids, limit, id, s.kids[id][..i]), t);
        DestroyLocked(h.firstChild, busy + {id});
        LoopStep(s1, limit, id, i, t, Now());
        i := i + 1;
      }
      ValidAt(busy + {id}, id);
      LoopHead(s1, limit, busy + {id}, id, i, Now());
      assert s.kids[id][..i] == s.kids[id];
      Finish(h, s, busy);
    }

    lemma ValidAt(busy: set<Id>, i: Id)
      requires Valid(busy)
      ensures KnownAt(i) && Good(Now(), limit, busy) && IsForest(kids) && Bounded(kids, limit)
      ensures links.Keys == kids.Keys == at.Keys
    {
    }

    /** h is no longer valid, and being torn down. */
    method Begin(h: Handle, ghost busy: set<Id>)
      requires Valid(busy) && Points(h) && h.id in live && h.id !in busy
      modifies h`valid, this`live
      ensures Valid(busy + {h.id}) && Now() == old(Now()).(live := old(live) - {h.id})
    {
      hide IsForest, Lists, Consistent;
      StartConsistent(links, kids, live, busy, finis, h.id);
      h.valid := false;
      live := live - {h.id};
      forall i: Id ensures KnownAt(i) {
        assert old(KnownAt(i));
      }
    }

    /** Tear a handle down now. */
    method HandleDestroy(h: Handle)
      requires Valid({}) && Points(h)
      modifies this`links, this`kids, this`live, this`finis, all
      ensures Valid({}) && !h.valid
      ensures h.id in old(live) ==>
        h.id in old(kids) && Torn(old(Now()), Post(old(kids), limit, h.id), Now())
      ensures h.id !in old(live) ==> Now() == old(Now())
    {
      assert KnownAt(h.id);
      DestroyLocked(h, {});
      assert KnownAt(h.id);
      if h.id in old(live) {
        TornDead(old(Now()), limit, h.id, Now());
      }
    }

    /** A new valid handle without children, in front of its siblings.  The caller
      * has checked that the parent is valid. */
    method Create(parent: Handle?) returns (h: Handle)
      requires Valid({}) && Points(parent) && (parent != null ==> parent.valid)
      modifies this, all`firstChild, all`prevSibling, all`nextSibling
      ensures Valid({}) && fresh(h) && h.parent == parent && h.valid
      ensures Points(h) && h.id !in old(kids)
      ensures live == old(live) + {h.id} && finis == old(finis)
      ensures kids ==
        var k := old(kids)[h.id := []];
        if parent == null then k else k[parent.id := [h.id] + k[parent.id]]
    {
      hide IsForest, Lists, Consistent;
      ghost var s := Now();
      assert parent != null ==> KnownAt(parent.id);
      AddKeepsLists(links, kids, limit, Name(parent));
      h := new Handle(parent, limit);
      Adopt(h);
      if parent != null {
        LinkNew(parent, h, s);
      } else {
        AloneConsistent(s.links, links, s.kids, s.live, s.finis, h.id);
      }
    }

    /** A handle just adopted goes in front of the children of its valid parent. */
    method LinkNew(parent: Handle, h: Handle, ghost s: State)
      requires Linked() && Points(parent) && Points(h) && h.parent == parent && parent.id < h.id
      requires Consistent(s.links, s.kids, s.live, {}, s.finis) && parent.id in s.live && h.id !in s.kids
      requires links == s.links[h.id := Cell(parent.id, NONE, NONE, NONE)] && kids == s.kids[h.id := []]
      requires live == s.live + {h.id} && finis == s.finis
      requires forall i :: i in kids ==> h.id !in kids[i]
      modifies this`links, this`kids, all`firstChild, all`prevSibling, all`nextSibling
      ensures Valid({}) && kids == s.kids[h.id := []][parent.id := [h.id] + s.kids[parent.id]]
    {
      hide IsForest, Lists, Consistent;
      LinkChild(parent, h);
      LiveIsKnown(s, parent.id);
      LinkConsistent(s.links, links, s.kids, s.live, s.finis, parent.id, h.id);
    }

    /** Take a new handle into the forest, not yet linked. */
    ghost method Adopt(h: Handle)
      requires Linked() && h !in all && h.id == limit && Points(h.parent) && h.valid
      requires h.firstChild == null && h.prevSibling == null && h.nextSibling == null
      modifies `all, `at, `links, `live, `kids, `limit
      ensures Linked() && Points(h) && all == old(all) + {h} && limit == old(limit) + 1
      ensures at == old(at)[h.id := h]
      ensures links == old(links)[h.id := Cell(Name(h.parent), NONE, NONE, NONE)]
      ensures kids == old(kids)[h.id := []] && live == old(live) + {h.id} && finis == old(finis)
    {
      hide IsForest, Lists;
      AddKeepsLists(links, kids, limit, Name(h.parent));
      AdoptPointers(h);
      kids := kids[h.id := []];
      limit := limit + 1;
    }

    ghost method AdoptPointers(h: Handle)
      requires Known() && h !in all && h.id !in at && Points(h.parent) && h.valid
      requires h.firstChild == null && h.prevSibling == null && h.nextSibling == null
      modifies `all, `at, `links, `live
      ensures Known() && Points(h) && all == old(all) + {h}
      ensures at == old(at)[h.id := h] && live == old(live) + {h.id}
      ensures links == old(links)[h.id := Cell(Name(h.parent), NONE, NONE, NONE)]
    {
      all := all + {h};
      at := at[h.id := h];
      links := links[h.id := Cell(Name(h.parent), NONE, NONE, NONE)];
      live := live + {h.id};
      forall i: Id ensures KnownAt(i) {
        assert old(KnownAt(i));
      }
    }

    /** h leaves its parent's list, if it has a parent. */
    method LeaveList(h: Handle)
      requires Linked() && Points(h) && h.id in links
      requires links[h.id].parent != NONE ==> links[h.id].parent in kids && h.id in kids[links[h.id].parent]
      modifies this`links, this`kids, all`firstChild, all`prevSibling, all`nextSibling
      ensures Linked() && SameParents(old(links), links)
      ensures kids == DropFrom(old(kids), old(links)[h.id].parent, h.id)
    {
      hide IsForest, Lists;
      assert KnownAt(h.id);
      if h.parent != null {
        UnlinkChild(h.parent, h);
      }
    }

    /** h's own teardown, then leaving the parent's list. */
    method Finish(h: Handle, ghost s: State, ghost busy: set<Id>)
      requires Valid(busy + {h.id}) && Points(h) && Finishing(s, limit, busy, h.id, Now())
      modifies this`links, this`kids, this`finis, all`firstChild, all`prevSibling, all`nextSibling
      ensures Valid(busy) && TornDown(s, limit, h.id, Now())
    {
      hide IsForest, Lists, Consistent, Torn, TornDown, Finishing, SameParents, Good;
      ghost var t := Now();
      ValidAt(busy + {h.id}, h.id);
      LeavesParent(s, limit, busy, h.id, t);
      finis := finis + [h.id];
      LeaveList(h);
      Concludes(s, limit, busy, h.id, t, Now());
    }
  }
}
