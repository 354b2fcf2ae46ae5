/**
 The tree that the flat block rows of one attribute stand for.

 A row points at its parent. Updating a block only forbids making it its own parent, so rows can form
 cycles away from the root; the tree below the root is finite and exact all the same.
 */
module BlockTree {
  import opened Wrappers
  import opened Store

  datatype BlockRow = BlockRow(
    attribute: Option<Id>, parent: Option<Id>, isRoot: bool,
    name: string, order: Option<int>, createdAt: int, capacity: Option<int>)

  type Table = map<Id, BlockRow>

  datatype Tree = Tree(id: Id, children: seq<Tree>)

  // Ancestors

  /** The `k`-th ancestor. */
  function Up(t: Table, v: Id, k: nat): Option<Id>
    decreases k
  {
    if k == 0 then Some(v)
    else if v in t && t[v].parent.Some? then Up(t, t[v].parent.value, k - 1)
    else None
  }

  /** `v` is `u` or has it among its ancestors. */
  ghost predicate Under(t: Table, u: Id, v: Id) {
    exists k: nat :: Up(t, v, k) == Some(u)
  }

  predicate IsTop(t: Table, root: Id) {
    root in t && t[root].parent.None?
  }

  lemma {:induction false} UpSum(t: Table, v: Id, a: nat, b: nat)
    requires Up(t, v, a).Some?
    ensures Up(t, v, a + b) == Up(t, Up(t, v, a).value, b)
    decreases a
  {
    if a > 0 {
      UpSum(t, t[v].parent.value, a - 1, b);
    }
  }

  lemma {:induction false} DepthIsUnique(t: Table, root: Id, v: Id, a: nat, b: nat)
    requires IsTop(t, root) && Up(t, v, a) == Up(t, v, b) == Some(root)
    ensures a == b
  {
    if a < b {
      UpSum(t, v, a, b - a);
    } else if b < a {
      UpSum(t, v, b, a - b);
    }
  }

  /** `v` and its first `n` ancestors. */
  ghost function Chain(t: Table, v: Id, n: nat): set<Id>
    requires Up(t, v, n).Some?
    decreases n
  {
    {v} + if n == 0 then {} else Chain(t, t[v].parent.value, n - 1)
  }

  ghost predicate Within(t: Table, root: Id, w: Id, n: nat) {
    exists m: nat :: m <= n && Up(t, w, m) == Some(root)
  }

  lemma {:induction false} ChainIsShort(t: Table, root: Id, v: Id, n: nat)
    requires IsTop(t, root) && Up(t, v, n) == Some(root)
    ensures Chain(t, v, n) <= t.Keys && |Chain(t, v, n)| == n + 1
    ensures forall w :: w in Chain(t, v, n) ==> Within(t, root, w, n)
    decreases n
  {
    if n == 0 {
      assert Up(t, root, 0) == Some(root);
    } else {
      var rest := Chain(t, t[v].parent.value, n - 1);
      ChainIsShort(t, root, t[v].parent.value, n - 1);
      if v in rest {
        var m: nat :| m <= n - 1 && Up(t, v, m) == Some(root);
        DepthIsUnique(t, root, v, m, n);
      }
      assert Within(t, root, v, n);
      forall w | w in rest ensures Within(t, root, w, n) {
        assert Within(t, root, w, n - 1);
      }
    }
  }

  /** A block that reaches the root does so within the number of rows, whatever cycles there are elsewhere. */
  lemma DepthIsBounded(t: Table, root: Id, v: Id, n: nat)
    requires IsTop(t, root) && Up(t, v, n) == Some(root)
    ensures n < |t|
  {
    ChainIsShort(t, root, v, n);
    SubsetSize(Chain(t, v, n), t.Keys);
  }

  // Siblings

  /** By order, a missing one being 0, then by creation time. */
  predicate NotAfter(a: BlockRow, b: BlockRow) {
    var x, y := a.order.GetOr(0), b.order.GetOr(0);
    x < y || (x == y && a.createdAt <= b.createdAt)
  }

  predicate Tie(a: BlockRow, b: BlockRow) {
    NotAfter(a, b) && NotAfter(b, a)
  }

  predicate Known(t: Table, ids: seq<Id>) {
    forall i :: 0 <= i < |ids| ==> ids[i] in t
  }

  function Insert(t: Table, x: Id, s: seq<Id>): (r: seq<Id>)
    requires x in t && Known(t, s)
    ensures Known(t, r)
  {
    if s == [] || NotAfter(t[x], t[s[0]]) then [x] + s else [s[0]] + Insert(t, x, s[1..])
  }

  /** The stable sort of the standard library. */
  function Sort(t: Table, s: seq<Id>): (r: seq<Id>)
    requires Known(t, s)
    ensures Known(t, r)
  {
    if s == [] then [] else Insert(t, s[0], Sort(t, s[1..]))
  }

  lemma {:induction false} InsertPermutes(t: Table, x: Id, s: seq<Id>)
    requires x in t && Known(t, s)
    ensures multiset(Insert(t, x, s)) == multiset(s) + multiset{x}
  {
    if s != [] && !NotAfter(t[x], t[s[0]]) {
      InsertPermutes(t, x, s[1..]);
      assert s == [s[0]] + s[1..];
    }
  }

  lemma {:induction false} SortPermutes(t: Table, s: seq<Id>)
    requires Known(t, s)
    ensures multiset(Sort(t, s)) == multiset(s)
  {
    if s != [] {
      SortPermutes(t, s[1..]);
      InsertPermutes(t, s[0], Sort(t, s[1..]));
      assert s == [s[0]] + s[1..];
    }
  }

  predicate Sorted(t: Table, s: seq<Id>)
    requires Known(t, s)
  {
    forall i, j :: 0 <= i < j < |s| ==> NotAfter(t[s[i]], t[s[j]])
  }

  /** The ids of `s` that tie with row `b`, in the order of `s`. */
  function Ties(t: Table, s: seq<Id>, b: BlockRow): (r: seq<Id>)
    requires Known(t, s)
  {
    if s == [] then []
    else if Tie(t[s[0]], b) then [s[0]] + Ties(t, s[1..], b)
    else Ties(t, s[1..], b)
  }

  lemma {:induction false} InsertSorts(t: Table, x: Id, s: seq<Id>)
    requires x in t && Known(t, s) && Sorted(t, s)
    ensures Sorted(t, Insert(t, x, s))
  {
    var r := Insert(t, x, s);
    if s == [] || NotAfter(t[x], t[s[0]]) {
      forall i, j | 0 <= i < j < |r| ensures NotAfter(t[r[i]], t[r[j]]) {
        assert i > 0 ==> r[i] == s[i - 1];
        assert r[j] == s[j - 1];
        assert j > 1 ==> NotAfter(t[s[0]], t[s[j - 1]]);
      }
    } else {
      var rest := Insert(t, x, s[1..]);
      InsertSorts(t, x, s[1..]);
      InsertPermutes(t, x, s[1..]);
      forall j | 0 <= j < |rest| ensures NotAfter(t[s[0]], t[rest[j]]) {
        assert rest[j] in multiset(rest);
        if rest[j] != x {
          assert rest[j] in multiset(s[1..]);
          assert rest[j] in s[1..];
        }
      }
    }
  }

  lemma {:induction false} InsertIsStable(t: Table, x: Id, s: seq<Id>, b: BlockRow)
    requires x in t && Known(t, s) && Sorted(t, s)
    ensures Ties(t, Insert(t, x, s), b) == (if Tie(t[x], b) then [x] else []) + Ties(t, s, b)
  {
    if s == [] || NotAfter(t[x], t[s[0]]) {
      assert ([x] + s)[1..] == s;
    } else {
      InsertIsStable(t, x, s[1..], b);
      assert ([s[0]] + Insert(t, x, s[1..]))[1..] == Insert(t, x, s[1..]);
    }
  }

  /** What makes it the stable sort: the rows are in order, and rows that tie keep their order. */
  lemma {:induction false} SortIsStable(t: Table, s: seq<Id>, b: BlockRow)
    requires Known(t, s)
    ensures Sorted(t, Sort(t, s)) && Ties(t, Sort(t, s), b) == Ties(t, s, b)
  {
    if s != [] {
      SortIsStable(t, s[1..], b);
      InsertSorts(t, s[0], Sort(t, s[1..]));
      InsertIsStable(t, s[0], Sort(t, s[1..]), b);
    }
  }

  // The tree

  lemma TwiceMeansTwo(s: seq<Id>, i: nat, j: nat)
    requires i < j < |s| && s[i] == s[j]
    ensures multiset(s)[s[i]] >= 2
  {
    assert s == s[..i] + [s[i]] + s[i + 1..j] + [s[j]] + s[j + 1..];
  }

  lemma {:induction false} OnceMeansOne(s: seq<Id>, x: Id)
    requires Distinct(s)
    ensures multiset(s)[x] <= 1
  {
    if s != [] {
      assert s == [s[0]] + s[1..];
      OnceMeansOne(s[1..], x);
      if x == s[0] {
        assert x !in s[1..];
      }
    }
  }

  /** `order` lists the rows once each, as a query returns them. */
  predicate Enumerates(t: Table, order: seq<Id>) {
    Known(t, order) && multiset(order) == multiset(t.Keys)
  }

  lemma EnumeratesAll(t: Table, order: seq<Id>)
    ensures Enumerates(t, order) <==> Known(t, order) && Distinct(order) && forall b :: b in t ==> b in order
  {
    if Enumerates(t, order) {
      forall b | b in t ensures b in order {
        assert b in multiset(order);
      }
      forall i, j | 0 <= i < j < |order| ensures order[i] != order[j] {
        if order[i] == order[j] {
          TwiceMeansTwo(order, i, j);
        }
      }
    } else if Known(t, order) && Distinct(order) && forall b :: b in t ==> b in order {
      forall b ensures multiset(order)[b] == multiset(t.Keys)[b] {
        OnceMeansOne(order, b);
        assert b in multiset(order) <==> b in order;
      }
    }
  }

  /** The rows whose parent is `u`, in row order. */
  function Children(t: Table, order: seq<Id>, u: Id): (r: seq<Id>)
    requires Known(t, order)
    ensures forall i :: 0 <= i < |r| ==> r[i] in t && t[r[i]].parent == Some(u)
  {
    if order == [] then []
    else
      var last := |order| - 1;
      var rest := Children(t, order[..last], u);
      if t[order[last]].parent == Some(u) then rest + [order[last]] else rest
  }

  lemma {:induction false} ChildrenAre(t: Table, order: seq<Id>, u: Id)
    requires Known(t, order)
    ensures forall c :: c in Children(t, order, u) <==> c in order && t[c].parent == Some(u)
    ensures Distinct(order) ==> Distinct(Children(t, order, u))
  {
    if order != [] {
      var last := |order| - 1;
      ChildrenAre(t, order[..last], u);
      assert order == order[..last] + [order[last]];
    }
  }

  lemma ChildGoesUp(t: Table, root: Id, u: Id, n: nat, c: Id)
    requires Up(t, u, n) == Some(root) && c in t && t[c].parent == Some(u)
    ensures Up(t, c, n + 1) == Some(root)
  {
  }

  function SortedChildren(t: Table, order: seq<Id>, u: Id): (r: seq<Id>)
    requires Known(t, order)
    ensures forall i :: 0 <= i < |r| ==> r[i] in t && t[r[i]].parent == Some(u)
  {
    var children := Children(t, order, u);
    var r := Sort(t, children);
    assert forall i :: 0 <= i < |r| ==> r[i] in multiset(children) by {
      SortPermutes(t, children);
      assert forall i :: 0 <= i < |r| ==> r[i] in multiset(r);
    }
    r
  }

  /** Every node of the tree has the sorted children of its row below it. */
  predicate Builds(t: Table, order: seq<Id>, tree: Tree)
    requires Known(t, order)
  {
    var ids := SortedChildren(t, order, tree.id);
    && |tree.children| == |ids|
    && forall i :: 0 <= i < |ids| ==> tree.children[i].id == ids[i] && Builds(t, order, tree.children[i])
  }

  /** The tree below `u`, which is `n` steps below the root. */
  function Subtree(t: Table, order: seq<Id>, root: Id, u: Id, n: nat): (tree: Tree)
    requires IsTop(t, root) && Known(t, order) && Up(t, u, n) == Some(root)
    ensures tree.id == u && Builds(t, order, tree)
    decreases |t| - n
  {
    DepthIsBounded(t, root, u, n);
    var ids := SortedChildren(t, order, u);
    Tree(u, seq(|ids|, i requires 0 <= i < |ids| =>
      (ChildGoesUp(t, root, u, n, ids[i]); Subtree(t, order, root, ids[i], n + 1))))
  }

  /** The tree below a root block. */
  function TreeOf(t: Table, order: seq<Id>, root: Id): (tree: Tree)
    requires IsTop(t, root) && Known(t, order)
    ensures tree.id == root && Builds(t, order, tree)
  {
    Subtree(t, order, root, root, 0)
  }

  /** How often an id occurs in a tree. */
  function Count(tree: Tree, v: Id): nat {
    (if tree.id == v then 1 else 0) + CountAll(tree.children, v)
  }

  function CountAll(trees: seq<Tree>, v: Id): nat {
    if trees == [] then 0 else Count(trees[0], v) + CountAll(trees[1..], v)
  }

  /** Every edge of the tree is a parent pointer, and siblings are in order. */
  predicate Faithful(t: Table, tree: Tree) {
    && tree.id in t
    && (forall i :: 0 <= i < |tree.children| ==>
          Faithful(t, tree.children[i]) && t[tree.children[i].id].parent == Some(tree.id))
    && forall i, j :: 0 <= i < j < |tree.children| ==> NotAfter(t[tree.children[i].id], t[tree.children[j].id])
  }

  lemma {:induction false} CountAllAtMostOne(trees: seq<Tree>, v: Id, at: int)
    requires forall i :: 0 <= i < |trees| ==> Count(trees[i], v) == if i == at then 1 else 0
    ensures CountAll(trees, v) == if 0 <= at < |trees| then 1 else 0
  {
    if trees != [] {
      forall i | 0 <= i < |trees[1..]| ensures Count(trees[1..][i], v) == if i == at - 1 then 1 else 0 {
        assert trees[1..][i] == trees[i + 1];
      }
      CountAllAtMostOne(trees[1..], v, at - 1);
      assert Count(trees[0], v) == if 0 == at then 1 else 0;
    }
  }

  /** What is under a child is under the parent, and strictly so. */
  lemma UnderChild(t: Table, root: Id, u: Id, n: nat, c: Id, v: Id)
    requires IsTop(t, root) && Up(t, u, n) == Some(root) && c in t && t[c].parent == Some(u) && Under(t, c, v)
    ensures Under(t, u, v) && v != u
  {
    var k: nat :| Up(t, v, k) == Some(c);
    UpSum(t, v, k, 1);
    assert Up(t, c, 1) == Some(u);
    UpSum(t, v, k + 1, n);
    if v == u {
      DepthIsUnique(t, root, u, k + 1 + n, n);
    }
  }

  /** Two children of one block have nothing below them in common. */
  lemma ChildrenAreApart(t: Table, root: Id, u: Id, n: nat, c: Id, d: Id, v: Id)
    requires IsTop(t, root) && Up(t, u, n) == Some(root)
    requires c in t && t[c].parent == Some(u) && Under(t, c, v)
    requires d in t && t[d].parent == Some(u) && Under(t, d, v)
    ensures c == d
  {
    var k: nat :| Up(t, v, k) == Some(c);
    var m: nat :| Up(t, v, m) == Some(d);
    ChildGoesUp(t, root, u, n, c);
    ChildGoesUp(t, root, u, n, d);
    UpSum(t, v, k, n + 1);
    UpSum(t, v, m, n + 1);
    DepthIsUnique(t, root, v, k + n + 1, m + n + 1);
  }

  /** What is strictly under a block is under one of its children. */
  lemma ChildBetween(t: Table, order: seq<Id>, u: Id, v: Id) returns (c: Id)
    requires Enumerates(t, order) && Under(t, u, v) && v != u
    ensures c in Children(t, order, u) && Under(t, c, v)
  {
    var k: nat :| Up(t, v, k) == Some(u);
    c := Below(t, v, u, k);
    ChildrenAre(t, order, u);
    EnumeratesAll(t, order);
  }

  lemma {:induction false} Below(t: Table, v: Id, u: Id, k: nat) returns (c: Id)
    requires k > 0 && Up(t, v, k) == Some(u)
    ensures Under(t, c, v) && c in t && t[c].parent == Some(u)
    decreases k
  {
    if k == 1 {
      c := v;
      assert Up(t, v, 0) == Some(v);
    } else {
      c := Below(t, t[v].parent.value, u, k - 1);
      var m: nat :| Up(t, t[v].parent.value, m) == Some(c);
      assert Up(t, v, m + 1) == Some(c);
    }
  }

  lemma SortedChildrenOnce(t: Table, order: seq<Id>, u: Id)
    requires Enumerates(t, order)
    ensures var ids := SortedChildren(t, order, u);
      && Distinct(ids)
      && (forall c :: c in ids <==> c in t && t[c].parent == Some(u))
      && Sorted(t, ids)
  {
    var ids, children := SortedChildren(t, order, u), Children(t, order, u);
    ChildrenAre(t, order, u);
    EnumeratesAll(t, order);
    SortPermutes(t, children);
    forall c ensures c in ids <==> c in children {
      assert c in multiset(ids) <==> c in multiset(children);
    }
    forall i, j | 0 <= i < j < |ids| ensures ids[i] != ids[j] {
      if ids[i] == ids[j] {
        TwiceMeansTwo(ids, i, j);
        OnceMeansOne(children, ids[i]);
      }
    }
    if children != [] {
      SortIsStable(t, children, t[children[0]]);
    }
  }

  /** Exactly what is under a node's block is in its tree, once. */
  lemma {:induction false} TreeCounts(t: Table, order: seq<Id>, root: Id, tree: Tree, n: nat, v: Id)
    requires IsTop(t, root) && Enumerates(t, order) && Up(t, tree.id, n) == Some(root) && Builds(t, order, tree)
    ensures Count(tree, v) == if Under(t, tree.id, v) then 1 else 0
    decreases tree
  {
    var ids := SortedChildren(t, order, tree.id);
    forall i | 0 <= i < |ids| ensures Count(tree.children[i], v) == if Under(t, ids[i], v) then 1 else 0 {
      ChildGoesUp(t, root, tree.id, n, ids[i]);
      TreeCounts(t, order, root, tree.children[i], n + 1, v);
    }
    var at := ChildAbove(t, order, root, tree.id, n, v);
    CountAllAtMostOne(tree.children, v, at);
    assert Up(t, tree.id, 0) == Some(tree.id);
  }

  /** The position of the one child that `v` is under, if `v` is strictly under `u`. */
  lemma ChildAbove(t: Table, order: seq<Id>, root: Id, u: Id, n: nat, v: Id) returns (at: int)
    requires IsTop(t, root) && Enumerates(t, order) && Up(t, u, n) == Some(root)
    ensures var ids := SortedChildren(t, order, u);
      && (0 <= at < |ids| <==> Under(t, u, v) && v != u)
      && forall i :: 0 <= i < |ids| ==> (Under(t, ids[i], v) <==> i == at)
  {
    SortedChildrenOnce(t, order, u);
    var ids := SortedChildren(t, order, u);
    at := -1;
    if Under(t, u, v) && v != u {
      var c := ChildBetween(t, order, u, v);
      at :| 0 <= at < |ids| && ids[at] == c;
      forall i | 0 <= i < |ids| && Under(t, ids[i], v) ensures i == at {
        ChildrenAreApart(t, root, u, n, ids[i], c, v);
      }
    } else {
      forall i | 0 <= i < |ids| ensures !Under(t, ids[i], v) {
        if Under(t, ids[i], v) {
          UnderChild(t, root, u, n, ids[i], v);
        }
      }
    }
  }

  lemma {:induction false} TreeIsFaithful(t: Table, order: seq<Id>, tree: Tree)
    requires Enumerates(t, order) && tree.id in t && Builds(t, order, tree)
    ensures Faithful(t, tree)
  {
    SortedChildrenOnce(t, order, tree.id);
    forall i | 0 <= i < |tree.children| ensures Faithful(t, tree.children[i]) {
      TreeIsFaithful(t, order, tree.children[i]);
    }
  }

  /** The tree holds each block whose parents lead to the root once, under its own parent, siblings in order. */
  lemma TreeIsExact(t: Table, order: seq<Id>, root: Id)
    requires IsTop(t, root) && Enumerates(t, order)
    ensures forall v :: Count(TreeOf(t, order, root), v) == if Under(t, root, v) then 1 else 0
    ensures Faithful(t, TreeOf(t, order, root)) && TreeOf(t, order, root).id == root
  {
    forall v ensures Count(TreeOf(t, order, root), v) == if Under(t, root, v) then 1 else 0 {
      TreeCounts(t, order, root, TreeOf(t, order, root), 0, v);
    }
    TreeIsFaithful(t, order, TreeOf(t, order, root));
  }

  // The order in which the rows are read

  /** Two blocks under one parent, in the tree of `root`. */
  ghost predicate Siblings(t: Table, root: Id, a: Id, b: Id) {
    && a in t && b in t && a != b
    && t[a].parent.Some? && t[a].parent == t[b].parent && Under(t, root, t[a].parent.value)
  }

  /** No two siblings in the tree of `root` tie. */
  ghost predicate NoTies(t: Table, root: Id) {
    forall a, b :: Siblings(t, root, a, b) ==> !Tie(t[a], t[b])
  }

  /** Whatever order the rows come in, the tree is the same. */
  ghost predicate IgnoresRowOrder(t: Table, root: Id)
    requires IsTop(t, root)
  {
    forall o1, o2 :: Enumerates(t, o1) && Enumerates(t, o2) ==> TreeOf(t, o1, root) == TreeOf(t, o2, root)
  }

  lemma SameFirst(t: Table, s1: seq<Id>, s2: seq<Id>)
    requires Known(t, s1) && Known(t, s2) && Sorted(t, s1) && Sorted(t, s2) && s1 != [] && s2 != []
    requires s1[0] in s2 && s2[0] in s1
    requires s1[0] != s2[0] ==> !Tie(t[s1[0]], t[s2[0]])
    ensures s1[0] == s2[0]
  {
    var i :| 0 <= i < |s2| && s2[i] == s1[0];
    var j :| 0 <= j < |s1| && s1[j] == s2[0];
    assert i > 0 ==> NotAfter(t[s2[0]], t[s2[i]]);
    assert j > 0 ==> NotAfter(t[s1[0]], t[s1[j]]);
  }

  ghost predicate SameMembers(s1: seq<Id>, s2: seq<Id>) {
    && Distinct(s1) && Distinct(s2)
    && forall x :: x in s1 <==> x in s2
  }

  lemma SameMembersRest(s1: seq<Id>, s2: seq<Id>)
    requires SameMembers(s1, s2) && s1 != [] && s2 != [] && s1[0] == s2[0]
    ensures SameMembers(s1[1..], s2[1..])
  {
    assert s1 == [s1[0]] + s1[1..] && s2 == [s2[0]] + s2[1..];
    assert s1[0] !in s1[1..] && s2[0] !in s2[1..];
    forall x ensures x in s1[1..] <==> x in s2[1..] {
      assert x in s1[1..] <==> x in s1 && x != s1[0];
      assert x in s2[1..] <==> x in s2 && x != s2[0];
    }
  }

  lemma {:induction false} SortedIsUnique(t: Table, s1: seq<Id>, s2: seq<Id>)
    requires Known(t, s1) && Known(t, s2) && Sorted(t, s1) && Sorted(t, s2) && SameMembers(s1, s2)
    requires forall a, b :: a in s1 && b in s1 && a != b ==> !Tie(t[a], t[b])
    ensures s1 == s2
  {
    assert s1 == [] || s1[0] in s1;
    assert s2 == [] || s2[0] in s2;
    if s1 != [] && s2 != [] {
      SameFirst(t, s1, s2);
      SameMembersRest(s1, s2);
      SortedIsUnique(t, s1[1..], s2[1..]);
      assert s1 == [s1[0]] + s1[1..] && s2 == [s2[0]] + s2[1..];
    }
  }

  lemma SameSortedChildren(t: Table, o1: seq<Id>, o2: seq<Id>, root: Id, u: Id)
    requires Enumerates(t, o1) && Enumerates(t, o2) && NoTies(t, root) && Under(t, root, u)
    ensures SortedChildren(t, o1, u) == SortedChildren(t, o2, u)
  {
    SortedChildrenOnce(t, o1, u);
    SortedChildrenOnce(t, o2, u);
    SortedIsUnique(t, SortedChildren(t, o1, u), SortedChildren(t, o2, u));
  }

  lemma {:induction false} SameTree(t: Table, o1: seq<Id>, o2: seq<Id>, root: Id, tree1: Tree, tree2: Tree)
    requires Enumerates(t, o1) && Enumerates(t, o2) && NoTies(t, root) && Under(t, root, tree1.id)
    requires tree1.id == tree2.id && Builds(t, o1, tree1) && Builds(t, o2, tree2)
    ensures tree1 == tree2
    decreases tree1, 1
  {
    SameSortedChildren(t, o1, o2, root, tree1.id);
    forall i | 0 <= i < |tree1.children| ensures tree1.children[i] == tree2.children[i] {
      SameChild(t, o1, o2, root, tree1, tree2, i);
    }
  }

  lemma {:induction false} SameChild(t: Table, o1: seq<Id>, o2: seq<Id>, root: Id, tree1: Tree, tree2: Tree, i: nat)
    requires Enumerates(t, o1) && Enumerates(t, o2) && NoTies(t, root) && Under(t, root, tree1.id)
    requires tree1.id == tree2.id && Builds(t, o1, tree1) && Builds(t, o2, tree2)
    requires SortedChildren(t, o1, tree1.id) == SortedChildren(t, o2, tree1.id) && i < |tree1.children|
    ensures i < |tree2.children| && tree1.children[i] == tree2.children[i]
    decreases tree1, 0
  {
    StillUnder(t, root, tree1.id, tree1.children[i].id);
    SameTree(t, o1, o2, root, tree1.children[i], tree2.children[i]);
  }

  lemma StillUnder(t: Table, root: Id, u: Id, c: Id)
    requires Under(t, root, u) && c in t && t[c].parent == Some(u)
    ensures Under(t, root, c)
  {
    var k: nat :| Up(t, u, k) == Some(root);
    assert Up(t, c, k + 1) == Some(root);
  }

  lemma {:induction false} OneCounts(trees: seq<Tree>, v: Id) returns (i: nat)
    requires CountAll(trees, v) > 0
    ensures i < |trees| && Count(trees[i], v) > 0
  {
    if Count(trees[0], v) > 0 {
      i := 0;
    } else {
      i := OneCounts(trees[1..], v);
      i := i + 1;
    }
  }

  /** If two row orders give the same tree, they give every block in it its children in the same order. */
  lemma {:induction false} EqualTrees(t: Table, o1: seq<Id>, o2: seq<Id>, tree: Tree, u: Id)
    requires Known(t, o1) && Known(t, o2) && Builds(t, o1, tree) && Builds(t, o2, tree) && Count(tree, u) > 0
    ensures SortedChildren(t, o1, u) == SortedChildren(t, o2, u)
  {
    if tree.id != u {
      var i := OneCounts(tree.children, u);
      EqualTrees(t, o1, o2, tree.children[i], u);
    }
  }

  lemma {:induction false} ListSet(ids: set<Id>) returns (order: seq<Id>)
    ensures forall x :: x in order <==> x in ids
    ensures Distinct(order)
  {
    order := [];
    if ids != {} {
      var x :| x in ids;
      var rest := ListSet(ids - {x});
      order := [x] + rest;
    }
  }

  lemma {:induction false} ChildrenInFront(t: Table, a: Id, b: Id, rest: seq<Id>, u: Id)
    requires a in t && b in t && Known(t, rest) && t[a].parent == t[b].parent == Some(u)
    ensures Children(t, [a, b] + rest, u) == [a, b] + Children(t, rest, u)
  {
    var order := [a, b] + rest;
    if rest == [] {
      assert order[..1] == [a] && [a][..0] == [];
      assert Children(t, [a], u) == [] + [a];
    } else {
      assert order[..|order| - 1] == [a, b] + rest[..|rest| - 1];
      ChildrenInFront(t, a, b, rest[..|rest| - 1], u);
    }
  }

  /** Two orders that list two tied siblings differently, in front. */
  lemma TiesShow(t: Table, a: Id, b: Id, rest: seq<Id>, u: Id)
    requires a in t && b in t && a != b && Known(t, rest) && t[a].parent == t[b].parent == Some(u) && Tie(t[a], t[b])
    ensures SortedChildren(t, [a, b] + rest, u) != SortedChildren(t, [b, a] + rest, u)
  {
    var c1, c2 := Children(t, [a, b] + rest, u), Children(t, [b, a] + rest, u);
    ChildrenInFront(t, a, b, rest, u);
    ChildrenInFront(t, b, a, rest, u);
    SortIsStable(t, c1, t[a]);
    SortIsStable(t, c2, t[a]);
    assert Ties(t, c1, t[a])[0] == a && Ties(t, c2, t[a])[0] == b;
  }

  /** The tree depends on the order of the rows exactly when two siblings in it tie. */
  lemma TreeIgnoresRowOrderExactly(t: Table, root: Id)
    requires IsTop(t, root)
    ensures IgnoresRowOrder(t, root) <==> NoTies(t, root)
  {
    if NoTies(t, root) {
      forall o1, o2 | Enumerates(t, o1) && Enumerates(t, o2) ensures TreeOf(t, o1, root) == TreeOf(t, o2, root) {
        assert Up(t, root, 0) == Some(root);
        SameTree(t, o1, o2, root, TreeOf(t, o1, root), TreeOf(t, o2, root));
      }
    } else {
      var a, b :| Siblings(t, root, a, b) && Tie(t[a], t[b]);
      TiedSiblingsShow(t, root, a, b);
    }
  }

  lemma TiedSiblingsShow(t: Table, root: Id, a: Id, b: Id)
    requires IsTop(t, root) && a in t && b in t && a != b && Tie(t[a], t[b])
    requires t[a].parent.Some? && t[a].parent == t[b].parent && Under(t, root, t[a].parent.value)
    ensures !IgnoresRowOrder(t, root)
  {
    var u := t[a].parent.value;
    var rest := ListSet(t.Keys - {a, b});
    var o1, o2 := [a, b] + rest, [b, a] + rest;
    FrontEnumerates(t, a, b, rest);
    FrontEnumerates(t, b, a, rest);
    TiesShow(t, a, b, rest, u);
    DifferentTrees(t, root, o1, o2, u);
  }

  lemma DifferentTrees(t: Table, root: Id, o1: seq<Id>, o2: seq<Id>, u: Id)
    requires IsTop(t, root) && Enumerates(t, o1) && Enumerates(t, o2) && Under(t, root, u)
    requires SortedChildren(t, o1, u) != SortedChildren(t, o2, u)
    ensures TreeOf(t, o1, root) != TreeOf(t, o2, root)
  {
    if TreeOf(t, o1, root) == TreeOf(t, o2, root) {
      TreeIsExact(t, o1, root);
      EqualTrees(t, o1, o2, TreeOf(t, o1, root), u);
    }
  }

  lemma FrontEnumerates(t: Table, a: Id, b: Id, rest: seq<Id>)
    requires a in t && b in t && a != b
    requires forall x :: x in rest <==> x in t.Keys - {a, b}
    requires Distinct(rest)
    ensures Known(t, rest) && Enumerates(t, [a, b] + rest)
  {
    forall i | 0 <= i < |rest| ensures rest[i] in t {
      assert rest[i] in rest;
    }
    var order := [a, b] + rest;
    forall i, j | 0 <= i < j < |order| ensures order[i] != order[j] {
      assert j >= 2 ==> order[j] == rest[j - 2] && order[j] in rest;
      assert i >= 2 ==> order[i] == rest[i - 2];
    }
    forall x | x in t ensures x in order {
      if x == a {
        assert order[0] == x;
      } else if x == b {
        assert order[1] == x;
      } else {
        assert x in rest;
      }
    }
    EnumeratesAll(t, order);
  }

  // Moving a block

  /** `t` and `t'` differ at most in the row of `b`; a chain that does not meet `b` is the same in both. */
  lemma {:induction false} SameChain(t: Table, t': Table, b: Id, v: Id, k: nat)
    requires t'.Keys == t.Keys && forall c :: c in t && c != b ==> t'[c] == t[c]
    requires forall j: nat :: j < k ==> Up(t, v, j) != Some(b)
    ensures forall j: nat :: j <= k ==> Up(t', v, j) == Up(t, v, j)
    decreases k
  {
    if k > 0 {
      SameChain(t, t', b, v, k - 1);
      LastStep(t, v, k);
      LastStep(t', v, k);
    }
  }

  lemma LastStep(t: Table, v: Id, k: nat)
    requires k > 0
    ensures Up(t, v, k) == if Up(t, v, k - 1).Some? then Up(t, Up(t, v, k - 1).value, 1) else None
    decreases k
  {
    if k > 1 && v in t && t[v].parent.Some? {
      LastStep(t, t[v].parent.value, k - 1);
    }
  }

  /** A chain to the root that starts above `b` does not come back to `b`. */
  lemma ChainAvoids(t: Table, root: Id, b: Id, p: Id, k: nat)
    requires IsTop(t, root) && b in t && t[b].parent == Some(p) && Up(t, p, k) == Some(root)
    ensures forall j: nat :: Up(t, p, j) != Some(b)
  {
    forall j: nat ensures Up(t, p, j) != Some(b) {
      if Up(t, p, j) == Some(b) {
        assert Up(t, b, 1) == Some(p);
        assert Up(t, b, k + 1) == Some(root);
        UpSum(t, p, j, k + 1);
        DepthIsUnique(t, root, p, k, j + k + 1);
      }
    }
  }

  ghost predicate OnCycle(t: Table, b: Id) {
    b in t && t[b].parent.Some? && Under(t, b, t[b].parent.value)
  }

  /**
   A block moved under `p` is in the tree exactly when `p` was in the tree and not below the block:
   otherwise the move cuts the block off, with a cycle when `p` was below it.
   */
  lemma MovedBlockIsInTreeExactly(t: Table, root: Id, b: Id, p: Id, row: BlockRow)
    requires IsTop(t, root) && b in t && b != root && row.parent == Some(p)
    ensures Under(t[b := row], root, b) <==> Under(t, root, p) && !Under(t, b, p)
    ensures OnCycle(t[b := row], b) <==> Under(t, b, p)
  {
    var t' := t[b := row];
    if Under(t', root, b) {
      var k: nat :| Up(t', b, k) == Some(root);
      ChainAvoids(t', root, b, p, k - 1);
      SameChain(t', t, b, p, k - 1);
      assert Up(t, p, k - 1) == Some(root);
      forall j: nat ensures Up(t, p, j) != Some(b) {
        if j > k - 1 {
          UpSum(t, p, k - 1, j - (k - 1));
        }
      }
    }
    if Under(t, root, p) && !Under(t, b, p) {
      var k: nat :| Up(t, p, k) == Some(root);
      assert forall j: nat :: Up(t, p, j) != Some(b);
      SameChain(t, t', b, p, k);
      assert Up(t', b, k + 1) == Some(root);
    }
    if Under(t, b, p) {
      MoveBelowItselfIsACycle(t, b, p, row);
    }
    if OnCycle(t', b) {
      MoveBelowItselfIsACycle(t', b, p, t[b]);
      assert t'[b := t[b]] == t;
    }
  }

  lemma MoveBelowItselfIsACycle(t: Table, b: Id, p: Id, row: BlockRow)
    requires b in t && Under(t, b, p)
    ensures Under(t[b := row], b, p)
  {
    var k: nat :| Up(t, p, k) == Some(b);
    var j := FirstMeeting(t, b, p, k);
    SameChain(t, t[b := row], b, p, j);
    assert Up(t[b := row], p, j) == Some(b);
  }

  lemma {:induction false} FirstMeeting(t: Table, b: Id, p: Id, k: nat) returns (j: nat)
    requires Up(t, p, k) == Some(b)
    ensures Up(t, p, j) == Some(b) && forall i: nat :: i < j ==> Up(t, p, i) != Some(b)
    decreases k
  {
    if i: nat :| i < k && Up(t, p, i) == Some(b) {
      j := FirstMeeting(t, b, p, i);
    } else {
      j := k;
    }
  }
}
