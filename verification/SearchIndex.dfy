/**
 The search index in memory: nodes relinked in place, each method proved to do to
 the linked nodes what `AaTree` does to the tree they form.
 */
module SearchIndex {
  import opened Common
  import opened HostOrder
  import opened HostNames
  import opened HostTree
  import opened AaTree

  // The shared sentinel `empty`, whose level is 0, is the null reference here.

  class SearchNode {
    const data: HostPart
    var level: nat
    var left: SearchNode?
    var right: SearchNode?

    constructor (data: HostPart)
      ensures this.data == data && level == 1 && left == null && right == null
    {
      this.data, level, left, right := data, 1, null, null;
    }
  }

  type Index = Tree<SearchNode>

  ghost function Nodes(t: Index): set<SearchNode> {
    if t.Empty? then {} else Nodes(t.left) + {t.at} + Nodes(t.right)
  }

  /** The nodes linked from `n` form the tree `t`, no node twice. */
  ghost predicate Forms(n: SearchNode?, t: Index)
    reads Nodes(t)
  {
    if t.Empty? then n == null
    else
      && n == t.at && t.at.level == t.level && t.at.data.labels == t.key
      && Forms(t.at.left, t.left) && Forms(t.at.right, t.right)
      && t.at !in Nodes(t.left) && t.at !in Nodes(t.right) && Nodes(t.left) !! Nodes(t.right)
  }

  /** Every node's host hangs off `root`. */
  ghost predicate Rooted(root: HostPart, t: Index) {
    t.Node? ==> Chained(root, t.at.data) && t.at.data != root && Rooted(root, t.left) && Rooted(root, t.right)
  }

  function LevelOf(n: SearchNode?): nat
    reads n
  {
    if n == null then 0 else n.level
  }

  /** `urldb_search_skew` */
  method SkewNode(root: SearchNode, ghost t: Index) returns (r: SearchNode)
    requires Forms(root, t) && t.level >= 1
    modifies Nodes(t)
    ensures Forms(r, Skew(t)) && Nodes(Skew(t)) == Nodes(t)
  {
    r := root;
    if LevelOf(root.left) == root.level {
      var temp := root.left;
      root.left := temp.right;
      temp.right := root;
      r := temp;
    }
  }

  /** `urldb_search_split` */
  method SplitNode(root: SearchNode, ghost t: Index) returns (r: SearchNode)
    requires Forms(root, t) && t.level >= 1
    modifies Nodes(t)
    ensures Forms(r, Split(t)) && Nodes(Split(t)) == Nodes(t)
  {
    r := root;
    assert Forms(root.right, t.right);
    assert root.right != null ==> Forms(root.right.right, t.right.right);
    var rightRight := if root.right == null then null else root.right.right;
    if LevelOf(rightRight) == root.level {
      var temp := root.right;
      assert t.right.Node? && t.right.right.Node? && Split(t) != t;
      root.right := temp.left;
      temp.left := root;
      r := temp;
      r.level := r.level + 1;
    }
  }

  lemma {:induction false} InsertNodes(t: Index, n: SearchNode)
    ensures Nodes(Insert(t, n.data.labels, n)) <= Nodes(t) + {n}
  {
    hide CompareLabels;
    if t.Node? {
      InsertNodes(t.left, n);
      InsertNodes(t.right, n);
    }
  }

  /** Relinking and then rotating, as both arms of the insertion do. */
  method Rebalance(node: SearchNode, ghost t: Index) returns (r: SearchNode)
    requires Forms(node, t) && t.level >= 1
    modifies Nodes(t)
    ensures Forms(r, Split(Skew(t))) && Nodes(Split(Skew(t))) == Nodes(t)
  {
    r := SkewNode(node, t);
    r := SplitNode(r, Skew(t));
  }

  /** `urldb_search_insert_internal` */
  method InsertInternal(root: HostPart, node: SearchNode?, n: SearchNode, ghost t: Index, ghost nodes: set<SearchNode>)
    returns (r: SearchNode)
    requires Forms(node, t) && Balanced(t) && Rooted(root, t) && nodes == Nodes(t)
    requires n !in Nodes(t) && n.level == 1 && n.left == null && n.right == null
    requires Chained(root, n.data) && n.data != root
    modifies nodes, n
    ensures Forms(r, Insert(t, n.data.labels, n))
    decreases t
  {
    hide CompareLabels;
    hide Skew;
    hide Split;
    hide Chained;
    InsertNodes(t, n);
    if node == null {
      r := n;
    } else {
      assert Forms(node.left, t.left) && Forms(node.right, t.right);
      assert n !in Nodes(t.left) && n !in Nodes(t.right);
      var c := MatchHost(root, node.data, n.data);
      if c > 0 {
        assert Balanced(t.left) && Rooted(root, t.left);
        InsertNodes(t.left, n);
        var l := InsertInternal(root, node.left, n, t.left, Nodes(t.left));
        ghost var l' := Insert(t.left, n.data.labels, n);
        assert node !in Nodes(l') && Nodes(l') !! Nodes(t.right);
        assert Forms(l, l') && Forms(node.right, t.right);
        node.left := l;
        assert Forms(node.left, l') && Forms(node.right, t.right);
        r := Rebalance(node, t.(left := l'));
      } else if c < 0 {
        assert Balanced(t.right) && Rooted(root, t.right);
        InsertNodes(t.right, n);
        var l := InsertInternal(root, node.right, n, t.right, Nodes(t.right));
        ghost var r' := Insert(t.right, n.data.labels, n);
        assert node !in Nodes(r') && Nodes(t.left) !! Nodes(r');
        assert Forms(l, r') && Forms(node.left, t.left);
        node.right := l;
        assert Forms(node.left, t.left) && Forms(node.right, r');
        r := Rebalance(node, t.(right := r'));
      } else {
        r := node;
      }
    }
  }

  /** Every item of the order is a node of the tree, kept under its host's labels. */
  lemma {:induction false} ItemsAreNodes(n: SearchNode?, t: Index)
    requires Forms(n, t)
    ensures forall x :: x in InOrder(t) ==> x.at in Nodes(t) && x.key == x.at.data.labels
  {
    if t.Node? {
      ItemsAreNodes(t.at.left, t.left);
      ItemsAreNodes(t.at.right, t.right);
    }
  }

  /** `urldb_search_insert` */
  method InsertData(root: HostPart, tree: SearchNode?, data: HostPart, ghost t: Index, ghost nodes: set<SearchNode>)
    returns (r: SearchNode, ghost n: SearchNode)
    requires Forms(tree, t) && Balanced(t) && Rooted(root, t) && nodes == Nodes(t)
    requires Chained(root, data) && data != root
    modifies nodes
    ensures fresh(n) && n.data == data && Forms(r, Insert(t, data.labels, n))
  {
    hide Insert;
    hide Balanced;
    hide Chained;
    var new_ := new SearchNode(data);
    n := new_;
    r := InsertInternal(root, tree, new_, t, nodes);
  }

  lemma RebalancedRooted(root: HostPart, t: Index)
    ensures Rooted(root, t) ==> Rooted(root, Split(Skew(t)))
  {
    hide Chained;
    SkewedRooted(root, t);
    SplitRooted(root, Skew(t));
  }

  lemma SkewedRooted(root: HostPart, t: Index)
    ensures Rooted(root, t) ==> Rooted(root, Skew(t))
  {
    hide Chained;
    if t.Node? && t.left.Node? && t.left.level == t.level {
      var l := t.left;
      var below := t.(left := l.right);
      assert Rooted(root, t) ==> Rooted(root, l) && Rooted(root, below);
    }
  }

  lemma SplitRooted(root: HostPart, t: Index)
    ensures Rooted(root, t) ==> Rooted(root, Split(t))
  {
    hide Chained;
    if t.Node? && t.right.Node? {
      var r := t.right;
      var below := t.(right := r.left);
      assert Rooted(root, t) ==> Rooted(root, r) && Rooted(root, below);
    }
  }

  lemma {:induction false} InsertRooted(root: HostPart, t: Index, n: SearchNode)
    requires Rooted(root, t) && Chained(root, n.data) && n.data != root
    ensures Rooted(root, Insert(t, n.data.labels, n))
  {
    hide CompareLabels;
    hide Chained;
    hide Skew;
    hide Split;
    if t.Node? {
      InsertRooted(root, t.left, n);
      InsertRooted(root, t.right, n);
      var l, r := Insert(t.left, n.data.labels, n), Insert(t.right, n.data.labels, n);
      RebalancedRooted(root, t.(left := l));
      RebalancedRooted(root, t.(right := r));
    }
  }

  /** What a host leads to: a name by all its labels, an address by the first alone. */
  function LookupHost<N>(inet: Inet, t: Tree<N>, host: string): Option<N> {
    if IsIpAddress(inet, host) then LookupFirst(t, host) else Lookup(t, SplitDots(host))
  }

  /** `urldb_search_find` */
  method Find(inet: Inet, root: HostPart, node: SearchNode?, host: string, ghost t: Index, ghost nodes: set<SearchNode>)
    returns (r: Option<SearchNode>)
    requires Forms(node, t) && Rooted(root, t) && Nodes(t) <= nodes
    ensures r == LookupHost(inet, t, host)
    decreases t
  {
    hide CompareLabels;
    if node == null {
      return None;
    }
    var c := MatchString(inet, root, node.data, host);
    if c > 0 {
      r := Find(inet, root, node.left, host, t.left, nodes);
    } else if c < 0 {
      r := Find(inet, root, node.right, host, t.right, nodes);
    } else {
      r := Some(node);
    }
  }
}
