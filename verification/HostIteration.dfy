/** The pages of all hosts that start with a prefix, one after the other, as long as the callback wants more. */
module HostIteration {
  import opened HostOrder
  import opened HostNames
  import opened HostTree
  import opened AaTree
  import opened SearchIndex
  import P = PathTree
  import W = PathWalks

  type Page = P.PathData

  /** The top of each host's paths, and what is below it. */
  type Tops = map<HostPart, Page>
  type Paths = map<HostPart, P.Forest>

  ghost predicate Known(nodes: set<SearchNode>, tops: Tops, paths: Paths) {
    forall n :: n in nodes ==> n.data in tops && n.data in paths
  }

  /** The paths of every host can be walked. */
  ghost predicate Walkable(nodes: set<SearchNode>, tops: Tops, paths: Paths, pages: set<Page>)
    reads pages
  {
    && Known(nodes, tops, paths)
    && (forall n :: n in nodes ==> tops[n.data] in pages && P.Nodes(paths[n.data]) <= pages)
    && (forall n :: n in nodes ==> W.Tree(tops[n.data], paths[n.data]))
  }

  /** The pages of a host, of which it may have none. */
  ghost function PagesOf(n: SearchNode, tops: Tops, paths: Paths): seq<Page>
    requires n.data in tops && n.data in paths
  {
    if paths[n.data].Nil? then [] else W.LeavesBelow(tops[n.data], paths[n.data])
  }

  ghost function AllPages(ns: seq<SearchNode>, tops: Tops, paths: Paths): seq<Page>
    requires forall n :: n in ns ==> n.data in tops && n.data in paths
  {
    if ns == [] then [] else PagesOf(ns[0], tops, paths) + AllPages(ns[1..], tops, paths)
  }

  lemma {:induction false} PagesOfParts(a: seq<SearchNode>, b: seq<SearchNode>, tops: Tops, paths: Paths)
    requires forall n :: n in a + b ==> n.data in tops && n.data in paths
    ensures forall n :: n in a || n in b ==> n in a + b
    ensures AllPages(a + b, tops, paths) == AllPages(a, tops, paths) + AllPages(b, tops, paths)
  {
    hide PagesOf;
    assert forall n :: n in a || n in b ==> n in a + b;
    if a == [] {
      assert a + b == b;
    } else {
      assert (a + b)[0] == a[0] && (a + b)[1..] == a[1..] + b;
      PagesOfParts(a[1..], b, tops, paths);
    }
  }

  lemma {:induction false} VisitedAreNodes(t: Index, pre: Labels)
    requires pre != []
    ensures forall n :: n in Visited(t, pre) ==> n in Nodes(t)
  {
    hide PrefixCompare;
    if t.Node? {
      VisitedAreNodes(t.left, pre);
      VisitedAreNodes(t.right, pre);
    }
  }

  // ----- a callback that may refuse to go on -----

  /** Of all there is, what has been shown: everything and all accepted, or as far as the first that was refused. */
  ghost predicate Shown(whole: seq<Page>, more: Page -> bool, all: bool, seen: seq<Page>) {
    && seen <= whole
    && (all ==> seen == whole && forall i :: 0 <= i < |seen| ==> more(seen[i]))
    && (!all ==> seen != [] && !more(seen[|seen| - 1]) && forall i :: 0 <= i < |seen| - 1 ==> more(seen[i]))
  }

  lemma ShownThen(a: seq<Page>, b: seq<Page>, more: Page -> bool, all: bool, s: seq<Page>, t: seq<Page>)
    requires Shown(a, more, true, s) && Shown(b, more, all, t)
    ensures Shown(a + b, more, all, s + t)
  {
  }

  lemma ShownNoFurther(a: seq<Page>, b: seq<Page>, more: Page -> bool, s: seq<Page>)
    requires Shown(a, more, false, s)
    ensures Shown(a + b, more, false, s)
  {
  }

  /** The pages of one host, if it has any. */
  method IterateHost(n: SearchNode, tops: Tops, more: Page -> bool, ghost paths: Paths) returns (all: bool, seen: seq<Page>)
    requires n.data in tops && n.data in paths && W.Tree(tops[n.data], paths[n.data])
    ensures Shown(PagesOf(n, tops, paths), more, all, seen)
  {
    all, seen := true, [];
    if tops[n.data].children != null {
      all, seen := W.IterateEntries(tops[n.data], more, paths[n.data]);
    }
  }

  /** `urldb_iterate_partial_host` */
  method IteratePartialHost(inet: Inet, root: HostPart, node: SearchNode?, prefix: string, tops: Tops, more: Page -> bool,
                            ghost t: Index, ghost nodes: set<SearchNode>, ghost paths: Paths, ghost pages: set<Page>)
    returns (all: bool, seen: seq<Page>)
    requires Forms(node, t) && Rooted(root, t) && Nodes(t) <= nodes && Walkable(nodes, tops, paths, pages)
    ensures var hosts := Visited(t, HostLabels(inet, prefix));
            (forall n :: n in hosts ==> n.data in tops && n.data in paths)
            && Shown(AllPages(hosts, tops, paths), more, all, seen)
    decreases t
  {
    hide CompareLabels;
    hide PrefixCompare;
    hide Shown;
    hide PagesOf;
    hide Rooted;
    hide HostLabels;
    hide Walkable;
    KnownNodes(nodes, tops, paths, pages);
    ghost var pre := HostLabels(inet, prefix);
    VisitedAreNodes(t, pre);
    if node == null {
      NothingShown(more);
      return true, [];
    }
    RootedParts(root, t);
    assert Forms(node.left, t.left) && Forms(node.right, t.right);
    var c := MatchPrefix(inet, root, node.data, prefix);
    if c > 0 {
      all, seen := IteratePartialHost(inet, root, node.left, prefix, tops, more, t.left, nodes, paths, pages);
    } else if c < 0 {
      all, seen := IteratePartialHost(inet, root, node.right, prefix, tops, more, t.right, nodes, paths, pages);
    } else {
      ghost var l, r := Visited(t.left, pre), Visited(t.right, pre);
      PagesOfParts(l + [node], r, tops, paths);
      PagesOfParts(l, [node], tops, paths);
      OnePage(node, tops, paths);
      ghost var before, here, after := AllPages(l, tops, paths), PagesOf(node, tops, paths), AllPages(r, tops, paths);
      all, seen := IteratePartialHost(inet, root, node.left, prefix, tops, more, t.left, nodes, paths, pages);
      if !all {
        ShownNoFurther(before, here, more, seen);
        ShownNoFurther(before + here, after, more, seen);
        return;
      }
      var rest;
      HostIsWalkable(node, nodes, tops, paths, pages);
      all, rest := IterateHost(node, tops, more, paths);
      ShownThen(before, here, more, all, seen, rest);
      seen := seen + rest;
      if !all {
        ShownNoFurther(before + here, after, more, seen);
        return;
      }
      all, rest := IteratePartialHost(inet, root, node.right, prefix, tops, more, t.right, nodes, paths, pages);
      ShownThen(before + here, after, more, all, seen, rest);
      seen := seen + rest;
    }
  }

  lemma KnownNodes(nodes: set<SearchNode>, tops: Tops, paths: Paths, pages: set<Page>)
    requires Walkable(nodes, tops, paths, pages)
    ensures Known(nodes, tops, paths)
  {
  }

  lemma HostIsWalkable(n: SearchNode, nodes: set<SearchNode>, tops: Tops, paths: Paths, pages: set<Page>)
    requires n in nodes && Walkable(nodes, tops, paths, pages)
    ensures n.data in tops && n.data in paths && W.Tree(tops[n.data], paths[n.data])
  {
  }

  lemma RootedParts(root: HostPart, t: Index)
    requires Rooted(root, t) && t.Node?
    ensures Chained(root, t.at.data) && t.at.data != root && Rooted(root, t.left) && Rooted(root, t.right)
  {
  }

  lemma NothingShown(more: Page -> bool)
    ensures Shown([], more, true, [])
  {
  }

  lemma OnePage(n: SearchNode, tops: Tops, paths: Paths)
    requires n.data in tops && n.data in paths
    ensures AllPages([n], tops, paths) == PagesOf(n, tops, paths)
  {
    assert AllPages([n][1..], tops, paths) == [];
  }
}
