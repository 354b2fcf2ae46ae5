/**
 Building the tree in memory: one object per row, children pushed onto their parents, then sorted in place.
 Both readers, the admin's and the public one, are here; their result is the tree of `BlockTree`.
 */
module BlockTreeBuilder {
  import opened Wrappers
  import opened Values
  import opened Store
  import opened BlockTree

  class Node {
    const id: Id
    const row: BlockRow
    /** Only the public reader counts participants, and not those of the root. */
    const count: Option<nat>
    var children: seq<Node>

    constructor (id: Id, row: BlockRow, count: Option<nat>)
      ensures this.id == id && this.row == row && this.count == count && children == []
    {
      this.id, this.row, this.count := id, row, count;
      children := [];
    }
  }

  /** The objects below `node`, all from `repr`, have the shape of `tree`. */
  ghost predicate Shows(node: Node, tree: Tree, repr: set<Node>)
    reads repr
    decreases tree
  {
    && node in repr
    && node.id == tree.id
    && |node.children| == |tree.children|
    && forall i :: 0 <= i < |tree.children| ==> Shows(node.children[i], tree.children[i], repr)
  }

  type Nodes = map<Id, Node>

  /** Each row has its object, which carries the row. */
  ghost predicate Represents(nodes: Nodes, t: Table) {
    && nodes.Keys == t.Keys
    && forall u :: u in t ==> nodes[u].id == u && nodes[u].row == t[u]
  }

  ghost predicate Present(nodes: Nodes, ids: seq<Id>) {
    forall i :: 0 <= i < |ids| ==> ids[i] in nodes
  }

  ghost function NodesAt(nodes: Nodes, ids: seq<Id>): (r: seq<Node>)
    requires Present(nodes, ids)
    ensures |r| == |ids| && forall i :: 0 <= i < |ids| ==> r[i] == nodes[ids[i]]
  {
    seq(|ids|, i requires 0 <= i < |ids| => nodes[ids[i]])
  }

  /** Sorting objects with the comparator of `sortBlockTree`. */
  function InsertNode(x: Node, s: seq<Node>): seq<Node> {
    if s == [] || NotAfter(x.row, s[0].row) then [x] + s else [s[0]] + InsertNode(x, s[1..])
  }

  function SortNodes(s: seq<Node>): seq<Node> {
    if s == [] then [] else InsertNode(s[0], SortNodes(s[1..]))
  }

  lemma NodesAtCons(nodes: Nodes, x: Id, ids: seq<Id>)
    requires x in nodes && Present(nodes, ids)
    ensures NodesAt(nodes, [x] + ids) == [nodes[x]] + NodesAt(nodes, ids)
  {
  }

  lemma {:induction false} InsertNodeAt(nodes: Nodes, t: Table, x: Id, ids: seq<Id>)
    requires Represents(nodes, t) && x in t && Known(t, ids)
    ensures InsertNode(nodes[x], NodesAt(nodes, ids)) == NodesAt(nodes, Insert(t, x, ids))
  {
    if ids == [] || NotAfter(t[x], t[ids[0]]) {
      NodesAtCons(nodes, x, ids);
    } else {
      InsertNodeAt(nodes, t, x, ids[1..]);
      NodesAtCons(nodes, ids[0], Insert(t, x, ids[1..]));
      assert NodesAt(nodes, ids)[1..] == NodesAt(nodes, ids[1..]);
    }
  }

  lemma {:induction false} SortNodesAt(nodes: Nodes, t: Table, ids: seq<Id>)
    requires Represents(nodes, t) && Known(t, ids)
    ensures SortNodes(NodesAt(nodes, ids)) == NodesAt(nodes, Sort(t, ids))
  {
    if ids != [] {
      SortNodesAt(nodes, t, ids[1..]);
      assert NodesAt(nodes, ids)[1..] == NodesAt(nodes, ids[1..]);
      InsertNodeAt(nodes, t, ids[0], Sort(t, ids[1..]));
    }
  }

  lemma {:induction false} SortedStays(t: Table, s: seq<Id>)
    requires Known(t, s) && Sorted(t, s)
    ensures Sort(t, s) == s
  {
    if s != [] {
      assert forall i, j :: 0 <= i < j < |s[1..]| ==> s[1..][i] == s[i + 1] && s[1..][j] == s[j + 1];
      SortedStays(t, s[1..]);
      assert |s| > 1 ==> NotAfter(t[s[0]], t[s[1]]);
    }
  }

  /** Each block with the ids of the children its object has. */
  type Kids = map<Id, seq<Id>>

  ghost predicate Wired(nodes: Nodes, repr: set<Node>, kids: Kids)
    reads repr
  {
    && kids.Keys == nodes.Keys
    && forall u {:trigger nodes[u]} {:trigger kids[u]} :: u in nodes ==>
         nodes[u] in repr && nodes[u].id == u && Present(nodes, kids[u]) && nodes[u].children == NodesAt(nodes, kids[u])
  }

  /** The blocks of `sorted` have their children in order, the others as they were read. */
  ghost predicate Mixed(flat: Kids, inOrder: Kids, sorted: set<Id>, kids: Kids) {
    && kids.Keys == flat.Keys == inOrder.Keys
    && forall u {:trigger kids[u]} :: u in kids ==> kids[u] == if u in sorted then inOrder[u] else flat[u]
  }

  ghost predicate SortsTo(t: Table, ids: seq<Id>, inOrder: seq<Id>) {
    Known(t, ids) && Known(t, inOrder) && Sort(t, ids) == inOrder == Sort(t, inOrder)
  }

  /** `inOrder` is what sorting makes of either. */
  ghost predicate Sorting(t: Table, flat: Kids, inOrder: Kids) {
    && flat.Keys == inOrder.Keys == t.Keys
    && forall u {:trigger SortsTo(t, flat[u], inOrder[u])} :: u in t ==> SortsTo(t, flat[u], inOrder[u])
  }

  /** Exactly the blocks below `u` are its children. */
  ghost predicate Family(t: Table, inOrder: Kids, u: Id)
    requires u in inOrder
  {
    && (forall i :: 0 <= i < |inOrder[u]| ==> inOrder[u][i] in t && t[inOrder[u][i]].parent == Some(u))
    && forall c :: c in t && t[c].parent == Some(u) ==> c in inOrder[u]
  }

  ghost predicate Families(t: Table, inOrder: Kids) {
    inOrder.Keys == t.Keys && forall u {:trigger Family(t, inOrder, u)} :: u in t ==> Family(t, inOrder, u)
  }

  lemma {:induction false} WiredShows(nodes: Nodes, repr: set<Node>, t: Table, order: seq<Id>, kids: Kids, tree: Tree)
    requires Known(t, order) && nodes.Keys == t.Keys && Wired(nodes, repr, kids)
    requires Builds(t, order, tree) && tree.id in t
    requires forall v {:trigger kids[v]} :: v in t && Under(t, tree.id, v) ==> kids[v] == SortedChildren(t, order, v)
    ensures Shows(nodes[tree.id], tree, repr)
    decreases tree, 1
  {
    assert Up(t, tree.id, 0) == Some(tree.id);
    forall i | 0 <= i < |tree.children| ensures Shows(nodes[tree.id].children[i], tree.children[i], repr) {
      ChildShows(nodes, repr, t, order, kids, tree, i);
    }
    assert |NodesAt(nodes, kids[tree.id])| == |tree.children|;
  }

  lemma {:induction false} ChildShows(nodes: Nodes, repr: set<Node>, t: Table, order: seq<Id>, kids: Kids, tree: Tree,
                                      i: nat)
    requires Known(t, order) && nodes.Keys == t.Keys && Wired(nodes, repr, kids)
    requires Builds(t, order, tree) && tree.id in t
    requires forall v {:trigger kids[v]} :: v in t && Under(t, tree.id, v) ==> kids[v] == SortedChildren(t, order, v)
    requires kids[tree.id] == SortedChildren(t, order, tree.id) && i < |tree.children|
    ensures i < |nodes[tree.id].children| && Shows(nodes[tree.id].children[i], tree.children[i], repr)
    decreases tree, 0
  {
    var c := SortedChildren(t, order, tree.id)[i];
    forall v | v in t && Under(t, c, v) ensures kids[v] == SortedChildren(t, order, v) {
      UnderParent(t, tree.id, c, v);
    }
    WiredShows(nodes, repr, t, order, kids, tree.children[i]);
    assert nodes[tree.id].children == NodesAt(nodes, kids[tree.id]);
  }

  lemma UnderParent(t: Table, u: Id, c: Id, v: Id)
    requires c in t && t[c].parent == Some(u) && Under(t, c, v)
    ensures Under(t, u, v)
  {
    var k: nat :| Up(t, v, k) == Some(c);
    UpSum(t, v, k, 1);
    assert Up(t, c, 1) == Some(u);
  }

  /** The array sort of one block's children. */
  method SortChildren(node: Node, ghost nodes: Nodes, ghost repr: set<Node>, ghost kids: Kids, ghost ids: seq<Id>)
    requires Wired(nodes, repr, kids) && node.id in nodes && node == nodes[node.id]
    requires Present(nodes, ids) && SortNodes(NodesAt(nodes, kids[node.id])) == NodesAt(nodes, ids)
    modifies node
    ensures Wired(nodes, repr, kids[node.id := ids])
  {
    node.children := SortNodes(node.children);
  }

  lemma SortingNodes(nodes: Nodes, t: Table, flat: Kids, inOrder: Kids, sorted: set<Id>, kids: Kids, u: Id)
    requires Represents(nodes, t) && Sorting(t, flat, inOrder) && Mixed(flat, inOrder, sorted, kids) && u in t
    requires u in inOrder
    ensures Present(nodes, kids[u]) && Present(nodes, inOrder[u])
    ensures SortNodes(NodesAt(nodes, kids[u])) == NodesAt(nodes, inOrder[u])
  {
    assert SortsTo(t, flat[u], inOrder[u]);
    SortNodesAt(nodes, t, kids[u]);
  }

  /** Everything under `u` is in the set. */
  ghost predicate Covers(t: Table, u: Id, sorted: set<Id>) {
    forall v :: v in t && Under(t, u, v) ==> v in sorted
  }

  /** Nothing but blocks under `u` has been added. */
  ghost predicate AddsBelow(t: Table, u: Id, before: set<Id>, sorted: set<Id>) {
    forall v :: v in sorted ==> v in before || (v in t && Under(t, u, v))
  }

  lemma AddsBelowChild(t: Table, u: Id, c: Id, before: set<Id>, done: set<Id>, sorted: set<Id>)
    requires c in t && t[c].parent == Some(u) && AddsBelow(t, u, before, done) && AddsBelow(t, c, done, sorted)
    ensures AddsBelow(t, u, before, sorted)
  {
    forall v | v in sorted && v !in before ensures v in t && Under(t, u, v) {
      if v !in done {
        UnderParent(t, u, c, v);
      }
    }
  }

  ghost predicate CoversFirst(t: Table, ids: seq<Id>, n: nat, sorted: set<Id>)
    requires n <= |ids|
  {
    forall i :: 0 <= i < n ==> Covers(t, ids[i], sorted)
  }

  lemma CoversNext(t: Table, ids: seq<Id>, i: nat, done: set<Id>, sorted: set<Id>)
    requires i < |ids| && CoversFirst(t, ids, i, done) && done <= sorted && Covers(t, ids[i], sorted)
    ensures CoversFirst(t, ids, i + 1, sorted)
  {
    forall j | 0 <= j <= i ensures Covers(t, ids[j], sorted) {
      assert j < i ==> Covers(t, ids[j], done);
    }
  }

  lemma AllUnder(t: Table, inOrder: Kids, u: Id, sorted: set<Id>)
    requires Families(t, inOrder) && u in t && u in sorted && CoversFirst(t, inOrder[u], |inOrder[u]|, sorted)
    ensures Covers(t, u, sorted)
  {
    assert Family(t, inOrder, u);
    forall v | v in t && Under(t, u, v) ensures v in sorted {
      if v != u {
        var k: nat :| Up(t, v, k) == Some(u);
        var c := Below(t, v, u, k);
        assert c in inOrder[u];
      }
    }
  }

  lemma MixedMore(flat: Kids, inOrder: Kids, sorted: set<Id>, kids: Kids, u: Id)
    requires Mixed(flat, inOrder, sorted, kids) && u in kids
    ensures Mixed(flat, inOrder, sorted + {u}, kids[u := inOrder[u]])
  {
  }

  /** `sortBlockTree`: sorts the children of a block, then those of its children. */
  method SortBlockTree(node: Node, ghost nodes: Nodes, ghost repr: set<Node>, ghost t: Table, ghost root: Id,
                       ghost n: nat,
                       ghost flat: Kids, ghost inOrder: Kids, ghost before: set<Id>, ghost kids: Kids)
    returns (ghost sorted: set<Id>, ghost kids': Kids)
    requires Represents(nodes, t) && Sorting(t, flat, inOrder) && Families(t, inOrder)
    requires Wired(nodes, repr, kids) && Mixed(flat, inOrder, before, kids)
    requires IsTop(t, root) && node.id in nodes && node == nodes[node.id] && Up(t, node.id, n) == Some(root)
    modifies repr
    ensures Wired(nodes, repr, kids') && Mixed(flat, inOrder, sorted, kids') && before <= sorted
    ensures Covers(t, node.id, sorted) && AddsBelow(t, node.id, before, sorted)
    decreases |t| - n, 0
  {
    DepthIsBounded(t, root, node.id, n);
    SortingNodes(nodes, t, flat, inOrder, before, kids, node.id);
    MixedMore(flat, inOrder, before, kids, node.id);
    ghost var ids := inOrder[node.id];
    SortChildren(node, nodes, repr, kids, ids);
    sorted, kids' := before + {node.id}, kids[node.id := ids];
    assert Up(t, node.id, 0) == Some(node.id);
    var i := 0;
    while i < |node.children|
      invariant 0 <= i <= |ids| && node.children == NodesAt(nodes, ids)
      invariant Wired(nodes, repr, kids') && Mixed(flat, inOrder, sorted, kids') && before + {node.id} <= sorted
      invariant CoversFirst(t, ids, i, sorted) && AddsBelow(t, node.id, before, sorted)
    {
      ghost var done := sorted;
      sorted, kids' := SortChild(node.children[i], nodes, repr, t, root, n, flat, inOrder, done, kids', node.id, i);
      CoversNext(t, ids, i, done, sorted);
      ChildOf(t, inOrder, node.id, i);
      AddsBelowChild(t, node.id, ids[i], before, done, sorted);
      i := i + 1;
    }
    AllUnder(t, inOrder, node.id, sorted);
  }

  lemma ChildOf(t: Table, inOrder: Kids, u: Id, i: nat)
    requires Families(t, inOrder) && u in t && i < |inOrder[u]|
    ensures inOrder[u][i] in t && t[inOrder[u][i]].parent == Some(u)
  {
    assert Family(t, inOrder, u);
  }

  lemma ChildKnown(nodes: Nodes, t: Table, root: Id, n: nat, inOrder: Kids, u: Id, i: nat)
    requires Represents(nodes, t) && Families(t, inOrder) && Up(t, u, n) == Some(root)
    requires u in t && i < |inOrder[u]|
    ensures var c := inOrder[u][i];
      c in nodes && nodes[c].id == c && Up(t, c, n + 1) == Some(root)
  {
    assert Family(t, inOrder, u);
    ChildGoesUp(t, root, u, n, inOrder[u][i]);
  }

  /** The recursive call for the `i`-th child of `u`, whose own children are sorted and stay so. */
  method SortChild(child: Node, ghost nodes: Nodes, ghost repr: set<Node>, ghost t: Table, ghost root: Id, ghost n: nat,
                   ghost flat: Kids, ghost inOrder: Kids, ghost before: set<Id>, ghost kids: Kids, ghost u: Id,
                       ghost i: nat)
    returns (ghost sorted: set<Id>, ghost kids': Kids)
    requires Represents(nodes, t) && Sorting(t, flat, inOrder) && Families(t, inOrder)
    requires Wired(nodes, repr, kids) && Mixed(flat, inOrder, before, kids)
    requires IsTop(t, root) && Up(t, u, n) == Some(root) && n < |t|
    requires u in t && u in before && i < |inOrder[u]| && inOrder[u][i] in nodes && child == nodes[inOrder[u][i]]
    modifies repr
    ensures Wired(nodes, repr, kids') && Mixed(flat, inOrder, sorted, kids') && before <= sorted
    ensures nodes[u].children == NodesAt(nodes, inOrder[u]) && Covers(t, inOrder[u][i], sorted)
    ensures AddsBelow(t, inOrder[u][i], before, sorted)
    decreases |t| - n - 1, 1
  {
    ChildKnown(nodes, t, root, n, inOrder, u, i);
    sorted, kids' := SortBlockTree(child, nodes, repr, t, root, n + 1, flat, inOrder, before, kids);
    assert kids'[u] == inOrder[u];
  }

  /** The last row flagged as a root. */
  function LastRoot(t: Table, order: seq<Id>): (root: Option<Id>)
    requires Known(t, order)
    ensures root.Some? ==> root.value in t && t[root.value].isRoot
    ensures root.None? ==> forall i :: 0 <= i < |order| ==> !t[order[i]].isRoot
  {
    if order == [] then None
    else
      var last := order[|order| - 1];
      if t[last].isRoot then Some(last) else LastRoot(t, order[..|order| - 1])
  }

  /** Pushing an object onto its parent's children, if the parent is among the rows. */
  method Push(nodes: Nodes, ghost repr: set<Node>, ghost kids: Kids, block: Node) returns (ghost kids': Kids)
    requires Wired(nodes, repr, kids) && block.id in nodes && block == nodes[block.id]
    modifies repr
    ensures Wired(nodes, repr, kids')
    ensures forall u {:trigger kids'[u]} :: u in nodes ==>
        kids'[u] == kids[u] + if block.row.parent == Some(u) then [block.id] else []
  {
    kids' := kids;
    if block.row.parent.Some? && block.row.parent.value in nodes {
      var parent := nodes[block.row.parent.value];
      Appended(nodes, kids[parent.id], block.id);
      parent.children := parent.children + [block];
      kids' := kids[parent.id := kids[parent.id] + [block.id]];
    }
  }

  lemma ChildrenNext(t: Table, order: seq<Id>, i: nat, u: Id)
    requires Known(t, order) && i < |order|
    ensures Children(t, order[..i + 1], u) == Children(t, order[..i], u) +
        if t[order[i]].parent == Some(u) then [order[i]] else []
  {
    var next := order[..i + 1];
    assert |next| == i + 1 && next[i] == order[i] && next[..i] == order[..i];
  }

  lemma LastRootNext(t: Table, order: seq<Id>, i: nat)
    requires Known(t, order) && i < |order|
    ensures LastRoot(t, order[..i + 1]) == if t[order[i]].isRoot then Some(order[i]) else LastRoot(t, order[..i])
  {
    var next := order[..i + 1];
    assert |next| == i + 1 && next[i] == order[i] && next[..i] == order[..i];
  }

  /** Every block has the children that come before it in the row order. */
  ghost predicate Flat(t: Table, order: seq<Id>, kids: Kids)
    requires Known(t, order)
  {
    kids.Keys == t.Keys && forall u {:trigger kids[u]} :: u in t ==> kids[u] == Children(t, order, u)
  }

  lemma FlatNext(t: Table, order: seq<Id>, i: nat, kids: Kids, kids': Kids)
    requires Known(t, order) && i < |order| && Flat(t, order[..i], kids) && kids'.Keys == t.Keys
    requires forall u {:trigger kids'[u]} :: u in t ==>
        kids'[u] == kids[u] + if t[order[i]].parent == Some(u) then [order[i]] else []
    ensures Flat(t, order[..i + 1], kids')
  {
    forall u | u in t ensures kids'[u] == Children(t, order[..i + 1], u) {
      ChildrenNext(t, order, i, u);
    }
  }

  /** The second loop: finds the root and pushes every block onto its parent. */
  method Link(nodes: Nodes, ghost repr: set<Node>, ghost t: Table, order: seq<Id>)
    returns (root: Option<Node>, ghost kids: Kids)
    requires Enumerates(t, order) && Represents(nodes, t) && Wired(nodes, repr, map u | u in nodes :: [])
    modifies repr
    ensures Wired(nodes, repr, kids) && Flat(t, order, kids)
    ensures RootIs(nodes, LastRoot(t, order), root)
  {
    root, kids := None, map u | u in nodes :: [];
    for i := 0 to |order|
      invariant Wired(nodes, repr, kids) && Flat(t, order[..i], kids)
      invariant RootIs(nodes, LastRoot(t, order[..i]), root)
    {
      var block := nodes[order[i]];
      LastRootNext(t, order, i);
      if block.row.isRoot {
        root := Some(block);
      }
      ghost var before := kids;
      kids := Push(nodes, repr, kids, block);
      FlatNext(t, order, i, before, kids);
    }
    assert order[..|order|] == order;
  }

  ghost predicate RootIs(nodes: Nodes, id: Option<Id>, root: Option<Node>) {
    if id.Some? then id.value in nodes && root == Some(nodes[id.value]) else root == None
  }

  lemma {:induction false} Appended(nodes: Nodes, ids: seq<Id>, x: Id)
    requires x in nodes && Present(nodes, ids)
    ensures Present(nodes, ids + [x]) && NodesAt(nodes, ids + [x]) == NodesAt(nodes, ids) + [nodes[x]]
  {
  }

  /** What a database query returns: the rows once each, in an order it does not promise. */
  method FindMany(t: Table) returns (order: seq<Id>)
    ensures Enumerates(t, order)
  {
    order := [];
    var rest := t.Keys;
    while rest != {}
      invariant Known(t, order) && rest <= t.Keys && multiset(order) + multiset(rest) == multiset(t.Keys)
      decreases |rest|
    {
      var b :| b in rest;
      order, rest := order + [b], rest - {b};
    }
  }

  lemma SortedChildrenFacts(t: Table, order: seq<Id>, inOrder: Kids, u: Id)
    requires Enumerates(t, order) && u in inOrder && inOrder[u] == SortedChildren(t, order, u)
    ensures SortsTo(t, Children(t, order, u), inOrder[u]) && Family(t, inOrder, u)
  {
    SortedChildrenOnce(t, order, u);
    SortedStays(t, inOrder[u]);
  }

  ghost predicate InOrder(t: Table, order: seq<Id>, inOrder: Kids)
    requires Known(t, order)
  {
    inOrder.Keys == t.Keys && forall u {:trigger inOrder[u]} :: u in t ==> inOrder[u] == SortedChildren(t, order, u)
  }

  lemma InOrderSorts(t: Table, order: seq<Id>, flat: Kids, inOrder: Kids)
    requires Enumerates(t, order) && Flat(t, order, flat) && InOrder(t, order, inOrder)
    ensures Sorting(t, flat, inOrder)
  {
    forall u | u in t ensures SortsTo(t, flat[u], inOrder[u]) {
      SortedChildrenFacts(t, order, inOrder, u);
    }
  }

  lemma InOrderFamilies(t: Table, order: seq<Id>, inOrder: Kids)
    requires Enumerates(t, order) && InOrder(t, order, inOrder)
    ensures Families(t, inOrder)
  {
    forall u | u in t ensures Family(t, inOrder, u) {
      SortedChildrenFacts(t, order, inOrder, u);
    }
  }

  lemma SortedKids(t: Table, order: seq<Id>) returns (inOrder: Kids)
    requires Known(t, order)
    ensures InOrder(t, order, inOrder)
  {
    inOrder := map u | u in t :: SortedChildren(t, order, u);
  }

  /** The first loop: one object per row, with the number of holders when values are given to count in. */
  method MakeNodes(t: Table, order: seq<Id>, values: Option<map<RowKey, Value>>)
    returns (nodes: Nodes, ghost repr: set<Node>)
    requires Enumerates(t, order)
    ensures fresh(repr) && Represents(nodes, t) && Wired(nodes, repr, map u | u in nodes :: [])
    ensures forall node :: node in repr ==>
        node.id in t && node.row == t[node.id] && node.count == CountFor(t, values, node.id)
  {
    nodes, repr := map[], {};
    for i := 0 to |order|
      invariant fresh(repr) && nodes.Keys == set b | b in order[..i]
      invariant forall u :: u in nodes ==>
          u in t && nodes[u].id == u && nodes[u].row == t[u] && nodes[u] in repr && nodes[u].children == []
      invariant forall node :: node in repr ==>
          node.id in t && node.row == t[node.id] && node.count == CountFor(t, values, node.id)
    {
      var b := order[i];
      var node := new Node(b, t[b], CountFor(t, values, b));
      nodes := nodes[b := node];
      repr := repr + {node};
    }
    EnumeratesAll(t, order);
  }

  function CountFor(t: Table, values: Option<map<RowKey, Value>>, b: Id): Option<nat>
    requires b in t
  {
    if values.None? || t[b].isRoot then None else Some(CountHolders(values.value, b))
  }

  /** Both readers, once the rows have their objects: link, then sort from the root. */
  method BuildTree(nodes: Nodes, ghost repr: set<Node>, ghost t: Table, order: seq<Id>) returns (root: Option<Node>)
    requires Enumerates(t, order) && Represents(nodes, t) && Wired(nodes, repr, map u | u in nodes :: [])
    requires forall u :: u in t && t[u].isRoot ==> t[u].parent.None?
    modifies repr
    ensures ShowsTree(root, t, order, repr)
  {
    ghost var flat;
    root, flat := Link(nodes, repr, t, order);
    if root.Some? {
      ghost var inOrder := SortedKids(t, order);
      InOrderSorts(t, order, flat, inOrder);
      InOrderFamilies(t, order, inOrder);
      ghost var sorted, kids := SortBlockTree(root.value, nodes, repr, t, root.value.id, 0, flat, inOrder, {}, flat);
      WiredShows(nodes, repr, t, order, kids, TreeOf(t, order, root.value.id));
    }
  }

  /** What both readers answer: nothing without a root row, else objects in the shape of the tree of the rows. */
  ghost predicate ShowsTree(root: Option<Node>, t: Table, order: seq<Id>, repr: set<Node>)
    reads repr
  {
    && Enumerates(t, order)
    && match LastRoot(t, order)
       case None => root == None
       case Some(top) => root.Some? && IsTop(t, top) && Shows(root.value, TreeOf(t, order, top), repr)
  }
}
