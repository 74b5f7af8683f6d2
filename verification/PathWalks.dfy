/**
 Walks over a path tree that keep no stack: they go down by `children`, along
 by `next` and back up by `parent` until they return to where they began.
 */
module PathWalks {
  import opened Common
  import opened HostPaths
  import opened PathTree

  // ----- what the walks must see -----

  /** The nodes without children, in the order they are met. */
  ghost function Leaves(f: Forest): seq<PathData> {
    if f.Nil? then [] else if f.kids.Nil? then [f.node] + Leaves(f.next) else Leaves(f.kids) + Leaves(f.next)
  }

  ghost function LeavesBelow(top: PathData, kids: Forest): seq<PathData> {
    if kids.Nil? then [top] else Leaves(kids)
  }

  ghost function Size(f: Forest): nat {
    if f.Nil? then 0 else 1 + Size(f.kids) + Size(f.next)
  }

  /** The pointers a walk follows are those of the forest. */
  ghost predicate Walkable(f: Forest)
    reads Nodes(f)
  {
    f.Cons? ==>
      && f.node.next == Head(f.next) && f.node.children == Head(f.kids)
      && Walkable(f.kids) && Walkable(f.next)
  }

  lemma {:induction false} HeldIsWalkable(f: Forest, prev: PathData?)
    requires Distinct(f) && Held(f, prev)
    ensures Walkable(f)
  {
    if f.Cons? {
      HeldParts(f, prev);
      HeldIsWalkable(f.kids, null);
      HeldIsWalkable(f.next, f.node);
    }
  }

  /** The tree of a host can be walked. */
  lemma HostCanBeWalked(h: Paths)
    requires h.Valid()
    ensures Tree(h.root, h.kids) && Distinct(h.kids) && Ordered(h.kids) && Filed(h.kids)
  {
    HeldParts(Cons(h.root, h.kids, Nil), null);
    HeldIsWalkable(h.kids, null);
  }

  /** The tree a walk is over: `kids` below `top`. Nothing is known of what `top` itself is linked to. */
  ghost predicate Tree(top: PathData, kids: Forest)
    reads top, Nodes(kids)
  {
    top !in Nodes(kids) && Parented(kids, top) && Walkable(kids) && top.children == Head(kids)
  }

  // ----- where a walk has got to -----

  /** The place of a node below the top: what is below it, what follows it, and the place of its parent. */
  datatype Place = Top | Down(node: PathData, kids: Forest, next: Forest, up: Place)

  ghost function NodeAt(z: Place, top: PathData): PathData {
    if z.Top? then top else z.node
  }

  ghost function BelowOf(z: Place, tree: Forest): Forest {
    if z.Top? then tree else z.kids
  }

  /** The place of the first child, and that of the next sibling. */
  ghost function Inside(z: Place, tree: Forest): Place
    requires BelowOf(z, tree).Cons?
  {
    var k := BelowOf(z, tree);
    Down(k.node, k.kids, k.next, z)
  }

  ghost function Beside(z: Place): Place
    requires z.Down? && z.next.Cons?
  {
    Down(z.next.node, z.next.kids, z.next.next, z.up)
  }

  ghost predicate TailOf(c: Forest, f: Forest) {
    c == f || (f.Cons? && TailOf(c, f.next))
  }

  ghost predicate Within(z: Place, tree: Forest) {
    z.Down? ==> TailOf(Cons(z.node, z.kids, z.next), BelowOf(z.up, tree)) && Within(z.up, tree)
  }

  lemma {:induction false} TailOfTail(c: Forest, f: Forest)
    requires TailOf(c, f) && c.Cons?
    ensures TailOf(c.next, f)
  {
    if c != f {
      TailOfTail(c, f.next);
    } else {
      assert TailOf(c.next, f.next);
    }
  }

  lemma {:induction false} TailHolds(c: Forest, f: Forest, parent: PathData)
    requires TailOf(c, f) && Walkable(f) && Parented(f, parent)
    ensures Walkable(c) && Parented(c, parent) && Nodes(c) <= Nodes(f)
  {
    if c != f {
      TailHolds(c, f.next, parent);
    }
  }

  /** What a walk reads at a place: the pointers lead where the shape of the tree says. */
  lemma {:induction false} PointersAt(z: Place, top: PathData, tree: Forest)
    requires Tree(top, tree) && Within(z, tree)
    ensures NodeAt(z, top).children == if BelowOf(z, tree).Nil? then null else BelowOf(z, tree).node
    ensures z.Down? ==> z.node != top && z.node in Nodes(tree)
    ensures z.Down? ==> z.node.next == (if z.next.Nil? then null else z.next.node)
    ensures z.Down? ==> z.node.parent == NodeAt(z.up, top)
    ensures Walkable(BelowOf(z, tree)) && Parented(BelowOf(z, tree), NodeAt(z, top)) && Nodes(BelowOf(z, tree)) <= Nodes(tree)
  {
    if z.Down? {
      PointersAt(z.up, top, tree);
      TailHolds(Cons(z.node, z.kids, z.next), BelowOf(z.up, tree), NodeAt(z.up, top));
    }
  }

  lemma MovesStayWithin(z: Place, tree: Forest)
    requires Within(z, tree)
    ensures BelowOf(z, tree).Cons? ==> Within(Inside(z, tree), tree)
    ensures z.Down? && z.next.Cons? ==> Within(Beside(z), tree)
  {
    if BelowOf(z, tree).Cons? {
      var k := BelowOf(z, tree);
      assert Cons(k.node, k.kids, k.next) == k;
    }
    if z.Down? && z.next.Cons? {
      TailOfTail(Cons(z.node, z.kids, z.next), BelowOf(z.up, tree));
      assert Cons(z.next.node, z.next.kids, z.next.next) == z.next;
    }
  }

  /** How much is left once the current node and all below it are done. */
  ghost function NodesToCome(z: Place): nat {
    if z.Top? then 0 else Size(z.next) + NodesToCome(z.up)
  }

  ghost function Work(z: Place, tree: Forest): nat {
    1 + Size(BelowOf(z, tree)) + NodesToCome(z)
  }

  lemma MovesMakeProgress(z: Place, tree: Forest)
    ensures BelowOf(z, tree).Cons? ==> Work(Inside(z, tree), tree) < Work(z, tree)
    ensures z.Down? && z.next.Cons? ==> Work(Beside(z), tree) == NodesToCome(z)
    ensures z.Down? && z.next.Nil? ==> NodesToCome(z) == NodesToCome(z.up)
  {
  }

  // ----- leaves, counted or handed to a callback -----

  /** What is still to come once the current node and all below it are done. */
  ghost function LeavesToCome(z: Place): seq<PathData> {
    if z.Top? then [] else Leaves(z.next) + LeavesToCome(z.up)
  }

  /** The state of a walk: what it has seen, what is below the current node and what is to come make up the whole. */
  ghost predicate Walking(z: Place, top: PathData, tree: Forest, seen: seq<PathData>) {
    && Within(z, tree)
    && seen + (LeavesBelow(NodeAt(z, top), BelowOf(z, tree)) + LeavesToCome(z)) == LeavesBelow(top, tree)
  }

  /** Between a leaf and the node after it: what is to come does not change on the way up. */
  ghost predicate Rising(z: Place, top: PathData, tree: Forest, seen: seq<PathData>, left: nat) {
    Within(z, tree) && seen + LeavesToCome(z) == LeavesBelow(top, tree) && NodesToCome(z) == left
  }

  lemma StepDown(z: Place, top: PathData, tree: Forest, seen: seq<PathData>)
    requires Walking(z, top, tree, seen) && BelowOf(z, tree).Cons?
    ensures Walking(Inside(z, tree), top, tree, seen) && Work(Inside(z, tree), tree) < Work(z, tree)
  {
    var k := BelowOf(z, tree);
    MovesStayWithin(z, tree);
    MovesMakeProgress(z, tree);
    assert LeavesBelow(NodeAt(z, top), k) == LeavesBelow(k.node, k.kids) + Leaves(k.next);
  }

  lemma StartRising(z: Place, top: PathData, tree: Forest, seen: seq<PathData>)
    requires Walking(z, top, tree, seen) && BelowOf(z, tree).Nil?
    ensures Rising(z, top, tree, seen + [NodeAt(z, top)], NodesToCome(z))
    ensures seen + [NodeAt(z, top)] <= LeavesBelow(top, tree) && NodesToCome(z) < Work(z, tree)
  {
    assert seen + ([NodeAt(z, top)] + LeavesToCome(z)) == (seen + [NodeAt(z, top)]) + LeavesToCome(z);
  }

  lemma Rise(z: Place, top: PathData, tree: Forest, seen: seq<PathData>, left: nat)
    requires Rising(z, top, tree, seen, left)
    ensures z.Top? ==> seen == LeavesBelow(top, tree)
    ensures z.Down? && z.next.Nil? ==> Rising(z.up, top, tree, seen, left)
    ensures z.Down? && z.next.Cons? ==> Walking(Beside(z), top, tree, seen) && Work(Beside(z), tree) == left
  {
    MovesStayWithin(z, tree);
    MovesMakeProgress(z, tree);
    if z.Down? && z.next.Cons? {
      var w := Beside(z);
      assert LeavesToCome(z) == LeavesBelow(w.node, w.kids) + LeavesToCome(w);
    }
  }

  /** Whether the page at a leaf is worth writing down. */
  predicate Kept(n: PathData, expiry: int)
    reads n
  {
    n.persistent || (n.lastVisit > expiry && n.visits > 0)
  }

  /** `keep` holds just those of the nodes that are worth writing down. */
  ghost predicate Keeps(keep: set<PathData>, top: PathData, tree: Forest, expiry: int)
    reads top, Nodes(tree)
  {
    forall n :: n in Nodes(tree) + {top} ==>
      (n in keep <==> n.persistent || (n.lastVisit > expiry && n.visits > 0))
  }

  ghost function KeptOf(leaves: seq<PathData>, keep: set<PathData>): seq<PathData> {
    if leaves == [] then []
    else KeptOf(leaves[..|leaves| - 1], keep) + (if leaves[|leaves| - 1] in keep then [leaves[|leaves| - 1]] else [])
  }

  ghost function NumberKept(leaves: seq<PathData>, keep: set<PathData>): (n: nat)
    ensures n == |KeptOf(leaves, keep)|
  {
    if leaves == [] then 0
    else NumberKept(leaves[..|leaves| - 1], keep) + (if leaves[|leaves| - 1] in keep then 1 else 0)
  }

  lemma OneMoreKept(seen: seq<PathData>, p: PathData, keep: set<PathData>)
    ensures NumberKept(seen + [p], keep) == NumberKept(seen, keep) + (if p in keep then 1 else 0)
  {
    assert (seen + [p])[..|seen + [p]| - 1] == seen;
  }

  lemma {:induction false} LeafIsNode(f: Forest, n: PathData)
    ensures n in Leaves(f) ==> n in Nodes(f)
  {
    if f.Cons? {
      LeafIsNode(f.kids, n);
      LeafIsNode(f.next, n);
    }
  }

  lemma WorthKeeping(p: PathData, top: PathData, tree: Forest, seen: seq<PathData>, keep: set<PathData>, expiry: int)
    requires Keeps(keep, top, tree, expiry) && seen + [p] <= LeavesBelow(top, tree)
    ensures p in keep <==> Kept(p, expiry)
  {
    assert LeavesBelow(top, tree)[|seen|] == (seen + [p])[|seen|] == p;
    LeafIsNode(tree, p);
  }

  lemma Here(p: PathData, z: Place, top: PathData, tree: Forest, seen: seq<PathData>)
    requires Walking(z, top, tree, seen) && Tree(top, tree) && p == NodeAt(z, top)
    ensures p.children == if BelowOf(z, tree).Nil? then null else BelowOf(z, tree).node
    ensures BelowOf(z, tree).Cons? ==> NodeAt(Inside(z, tree), top) == BelowOf(z, tree).node
  {
    PointersAt(z, top, tree);
  }

  lemma Above(p: PathData, z: Place, top: PathData, tree: Forest, seen: seq<PathData>, left: nat)
    requires Rising(z, top, tree, seen, left) && Tree(top, tree) && p == NodeAt(z, top)
    ensures p == top <==> z.Top?
    ensures z.Top? ==> seen == LeavesBelow(top, tree)
    ensures z.Down? && z.next.Nil? ==> p.next == null && p.parent == NodeAt(z.up, top) && Rising(z.up, top, tree, seen, left)
    ensures z.Down? && z.next.Cons? ==>
      && p.next == NodeAt(Beside(z), top) != top
      && Walking(Beside(z), top, tree, seen) && Work(Beside(z), tree) == left
  {
    PointersAt(z, top, tree);
    Rise(z, top, tree, seen, left);
    if z.Down? && z.next.Cons? {
      PointersAt(Beside(z), top, tree);
    }
  }

  /** The number of leaves worth keeping. */
  method CountUrls(top: PathData, expiry: int, count0: nat, ghost tree: Forest, ghost keep: set<PathData>) returns (count: nat)
    requires Tree(top, tree) && Keeps(keep, top, tree, expiry)
    ensures count == count0 + NumberKept(LeavesBelow(top, tree), keep)
  {
    count := count0;
    var p: PathData := top;
    ghost var z, seen: seq<PathData> := Top, [];
    assert Walking(z, top, tree, seen) && NumberKept(seen, keep) == 0 && p == NodeAt(z, top);
    hide *;
    while true
      invariant Walking(z, top, tree, seen) && p == NodeAt(z, top)
      invariant Tree(top, tree) && Keeps(keep, top, tree, expiry)
      invariant count == count0 + NumberKept(seen, keep)
      decreases Work(z, tree)
    {
      Here(p, z, top, tree, seen);
      if p.children != null {
        StepDown(z, top, tree, seen);
        p, z := p.children, Inside(z, tree);
      } else {
        OneMoreKept(seen, p, keep);
        StartRising(z, top, tree, seen);
        WorthKeeping(p, top, tree, seen, keep, expiry);
        if Kept(p, expiry) {
          count := count + 1;
        }
        seen := seen + [p];
        ghost var left := NodesToCome(z);
        while p != top
          invariant Rising(z, top, tree, seen, left) && p == NodeAt(z, top)
          invariant Tree(top, tree) && Keeps(keep, top, tree, expiry)
          decreases z
        {
          Above(p, z, top, tree, seen, left);
          if p.next != null {
            p, z := p.next, Beside(z);
            break;
          }
          p, z := p.parent, z.up;
        }
        if p == top {
          Above(p, z, top, tree, seen, left);
          break;
        }
      }
    }
  }

  /** Each leaf in order is handed to the callback, until the callback declines. */
  method IterateEntries(top: PathData, more: PathData -> bool, ghost tree: Forest) returns (all: bool, seen: seq<PathData>)
    requires Tree(top, tree)
    ensures seen <= LeavesBelow(top, tree)
    ensures all ==> seen == LeavesBelow(top, tree) && forall i :: 0 <= i < |seen| ==> more(seen[i])
    ensures !all ==> seen != [] && !more(seen[|seen| - 1]) && forall i :: 0 <= i < |seen| - 1 ==> more(seen[i])
  {
    seen := [];
    var p: PathData := top;
    ghost var z := Top;
    assert Walking(z, top, tree, seen) && p == NodeAt(z, top);
    hide *;
    while true
      invariant Walking(z, top, tree, seen) && p == NodeAt(z, top) && Tree(top, tree)
      invariant forall i :: 0 <= i < |seen| ==> more(seen[i])
      decreases Work(z, tree)
    {
      Here(p, z, top, tree, seen);
      if p.children != null {
        StepDown(z, top, tree, seen);
        p, z := p.children, Inside(z, tree);
      } else {
        StartRising(z, top, tree, seen);
        seen := seen + [p];
        if !more(p) {
          return false, seen;
        }
        ghost var left := NodesToCome(z);
        while p != top
          invariant Rising(z, top, tree, seen, left) && p == NodeAt(z, top) && Tree(top, tree)
          decreases z
        {
          Above(p, z, top, tree, seen, left);
          if p.next != null {
            p, z := p.next, Beside(z);
            break;
          }
          p, z := p.parent, z.up;
        }
        if p == top {
          Above(p, z, top, tree, seen, left);
          break;
        }
      }
    }
    all := true;
  }

  lemma {:induction false} KeptOfConcat(a: seq<PathData>, b: seq<PathData>, keep: set<PathData>)
    ensures KeptOf(a + b, keep) == KeptOf(a, keep) + KeptOf(b, keep)
  {
    if b == [] {
      assert a + b == a;
    } else {
      assert (a + b)[..|a + b| - 1] == a + b[..|b| - 1];
      KeptOfConcat(a, b[..|b| - 1], keep);
    }
  }

  // ----- freeing a path tree -----

  ghost function Postorder(f: Forest): seq<PathData> {
    if f.Nil? then [] else Postorder(f.kids) + [f.node] + Postorder(f.next)
  }

  /** What is still to be freed once the current node has been. */
  ghost function ToFree(z: Place, top: PathData): seq<PathData> {
    if z.Top? then [] else Postorder(z.next) + [NodeAt(z.up, top)] + ToFree(z.up, top)
  }

  ghost predicate NoneTwice(s: seq<PathData>) {
    forall i, j :: 0 <= i < j < |s| ==> s[i] != s[j]
  }

  lemma {:induction false} PostorderNodes(f: Forest)
    ensures forall i :: 0 <= i < |Postorder(f)| ==> Postorder(f)[i] in Nodes(f)
  {
    if f.Cons? {
      PostorderNodes(f.kids);
      PostorderNodes(f.next);
    }
  }

  lemma {:induction false} NodesInPostorder(f: Forest, n: PathData)
    requires n in Nodes(f)
    ensures n in Postorder(f)
  {
    if n in Nodes(f.kids) {
      NodesInPostorder(f.kids, n);
    } else if n != f.node {
      NodesInPostorder(f.next, n);
    }
  }

  lemma {:induction false} PostorderNoneTwice(f: Forest)
    requires Distinct(f)
    ensures NoneTwice(Postorder(f))
  {
    if f.Cons? {
      PostorderNoneTwice(f.kids);
      PostorderNoneTwice(f.next);
      PostorderNodes(f.kids);
      PostorderNodes(f.next);
      forall i, j | 0 <= i < |Postorder(f.kids)| && 0 <= j < |Postorder(f.next)|
        ensures Postorder(f.kids)[i] != Postorder(f.next)[j]
      {
        assert Postorder(f.kids)[i] in Nodes(f.kids) && Postorder(f.next)[j] in Nodes(f.next);
      }
      JoinNoneTwice(Postorder(f.kids), f.node, Postorder(f.next));
    }
  }

  lemma JoinNoneTwice(a: seq<PathData>, n: PathData, b: seq<PathData>)
    requires NoneTwice(a) && NoneTwice(b) && n !in a && n !in b
    requires forall i, j :: 0 <= i < |a| && 0 <= j < |b| ==> a[i] != b[j]
    ensures NoneTwice(a + [n] + b)
  {
    var s := a + [n] + b;
    forall i, j | 0 <= i < j < |s| ensures s[i] != s[j] {
      assert s[i] == if i < |a| then a[i] else if i == |a| then n else b[i - |a| - 1];
      assert s[j] == if j < |a| then a[j] else if j == |a| then n else b[j - |a| - 1];
    }
  }

  /** Children come before their parent. */
  lemma {:induction false} ChildrenFirst(f: Forest, parent: PathData, i: nat)
    requires Distinct(f) && Parented(f, parent) && i < |Postorder(f)|
    ensures var n := Postorder(f)[i];
            n.parent == parent || exists j :: i < j < |Postorder(f)| && Postorder(f)[j] == n.parent
  {
    var k, n, rest := Postorder(f.kids), f.node, Postorder(f.next);
    var whole := Postorder(f);
    assert whole == k + [n] + rest;
    if i < |k| {
      ChildrenFirst(f.kids, f.node, i);
      if k[i].parent == n {
        assert whole[|k|] == whole[i].parent;
      } else {
        var j :| i < j < |k| && k[j] == k[i].parent;
        assert whole[j] == whole[i].parent;
      }
    } else if i > |k| {
      ChildrenFirst(f.next, parent, i - |k| - 1);
      if whole[i].parent != parent {
        var j :| i - |k| - 1 < j < |rest| && rest[j] == rest[i - |k| - 1].parent;
        assert whole[j + |k| + 1] == whole[i].parent;
      }
    }
  }

  lemma Regroup(a: seq<PathData>, b: seq<PathData>, n: PathData, c: seq<PathData>, p: PathData, d: seq<PathData>)
    ensures a + ((b + [n] + c) + [p] + d) == a + (b + [n] + (c + [p] + d))
  {
  }

  lemma Ahead(freed: seq<PathData>, below: seq<PathData>, p: PathData, rest: seq<PathData>)
    requires NoneTwice(freed + (below + [p] + rest))
    ensures p !in freed
  {
    var whole := freed + (below + [p] + rest);
    assert whole[|freed| + |below|] == p;
    assert forall i :: 0 <= i < |freed| ==> whole[i] == freed[i];
  }

  /** `freed` so far, all below the current node, the node, and what is to come make up the whole order. */
  ghost predicate Freeing(z: Place, top: PathData, tree: Forest, freed: seq<PathData>) {
    && Within(z, tree)
    && freed + (Postorder(BelowOf(z, tree)) + [NodeAt(z, top)] + ToFree(z, top)) == Postorder(tree) + [top]
  }

  /** A finished node about to be left: all that is freed, it, and what is to come. */
  ghost predicate Leaving(z: Place, top: PathData, tree: Forest, freed: seq<PathData>, left: nat) {
    && Within(z, tree) && left == NodesToCome(z)
    && freed + ([NodeAt(z, top)] + ToFree(z, top)) == Postorder(tree) + [top]
  }

  lemma FreeDown(z: Place, top: PathData, tree: Forest, freed: seq<PathData>)
    requires Freeing(z, top, tree, freed) && BelowOf(z, tree).Cons?
    ensures Freeing(Inside(z, tree), top, tree, freed) && Work(Inside(z, tree), tree) < Work(z, tree)
  {
    var k := BelowOf(z, tree);
    MovesStayWithin(z, tree);
    MovesMakeProgress(z, tree);
    Regroup(freed, Postorder(k.kids), k.node, Postorder(k.next), NodeAt(z, top), ToFree(z, top));
  }

  lemma StartLeaving(z: Place, top: PathData, tree: Forest, freed: seq<PathData>)
    requires Freeing(z, top, tree, freed) && BelowOf(z, tree).Nil?
    ensures Leaving(z, top, tree, freed, NodesToCome(z)) && NodesToCome(z) < Work(z, tree)
  {
    assert Postorder(BelowOf(z, tree)) + [NodeAt(z, top)] + ToFree(z, top) == [NodeAt(z, top)] + ToFree(z, top);
  }

  lemma LeaveUp(z: Place, top: PathData, tree: Forest, freed: seq<PathData>, left: nat)
    requires Leaving(z, top, tree, freed, left) && z.Down? && z.next.Nil?
    ensures Leaving(z.up, top, tree, freed + [z.node], left)
  {
    MovesMakeProgress(z, tree);
    assert ToFree(z, top) == [NodeAt(z.up, top)] + ToFree(z.up, top);
    assert freed + ([z.node] + ToFree(z, top)) == (freed + [z.node]) + ToFree(z, top);
  }

  lemma LeaveBeside(z: Place, top: PathData, tree: Forest, freed: seq<PathData>, left: nat)
    requires Leaving(z, top, tree, freed, left) && z.Down? && z.next.Cons?
    ensures Freeing(Beside(z), top, tree, freed + [z.node]) && Work(Beside(z), tree) == left
  {
    var k := z.next;
    MovesStayWithin(z, tree);
    MovesMakeProgress(z, tree);
    assert freed + ([z.node] + ToFree(z, top)) == (freed + [z.node]) + ToFree(z, top);
    Regroup(freed + [z.node], Postorder(k.kids), k.node, Postorder(k.next), NodeAt(z.up, top), ToFree(z.up, top));
  }

  /** A node not yet freed may be read, and leads to its children. */
  lemma ReadToFree(p: PathData, z: Place, top: PathData, tree: Forest, freed: seq<PathData>)
    requires Freeing(z, top, tree, freed) && Tree(top, tree) && p == NodeAt(z, top) && NoneTwice(Postorder(tree) + [top])
    ensures p !in freed
    ensures p.children == if BelowOf(z, tree).Nil? then null else BelowOf(z, tree).node
    ensures BelowOf(z, tree).Cons? ==> NodeAt(Inside(z, tree), top) == BelowOf(z, tree).node
  {
    Ahead(freed, Postorder(BelowOf(z, tree)), p, ToFree(z, top));
    PointersAt(z, top, tree);
  }

  /** So may a finished node about to be left. */
  lemma ReadToLeave(p: PathData, z: Place, top: PathData, tree: Forest, freed: seq<PathData>, left: nat)
    requires Leaving(z, top, tree, freed, left) && Tree(top, tree) && p == NodeAt(z, top) && NoneTwice(Postorder(tree) + [top])
    ensures p !in freed && (p == top <==> z.Top?)
    ensures z.Top? ==> freed + [p] == Postorder(tree) + [top]
    ensures z.Down? && z.next.Nil? ==>
      p.next == null && p.parent == NodeAt(z.up, top) && Leaving(z.up, top, tree, freed + [p], left)
    ensures z.Down? && z.next.Cons? ==>
      && p.next == NodeAt(Beside(z), top) != top
      && Freeing(Beside(z), top, tree, freed + [p]) && Work(Beside(z), tree) == left
  {
    assert [] + [p] + ToFree(z, top) == [p] + ToFree(z, top);
    Ahead(freed, [], p, ToFree(z, top));
    PointersAt(z, top, tree);
    if z.Down? && z.next.Nil? {
      LeaveUp(z, top, tree, freed, left);
    } else if z.Down? {
      MovesStayWithin(z, tree);
      PointersAt(Beside(z), top, tree);
      LeaveBeside(z, top, tree, freed, left);
    }
  }

  /**
   Every node of the tree and the top itself is freed exactly once, children
   before their parent; no node is read once freed.
   */
  method DestroyPathTree(top: PathData, ghost tree: Forest) returns (freed: seq<PathData>)
    requires Tree(top, tree) && Distinct(tree)
    ensures freed == Postorder(tree) + [top] && NoneTwice(freed)
  {
    WholeOrderOnce(top, tree);
    freed := [];
    var p: PathData := top;
    ghost var z := Top;
    assert Freeing(z, top, tree, freed) && p == NodeAt(z, top);
    hide *;
    while true
      invariant Freeing(z, top, tree, freed) && p == NodeAt(z, top) && Tree(top, tree)
      decreases Work(z, tree)
    {
      ReadToFree(p, z, top, tree, freed);
      assert p !in freed;
      if p.children != null {
        FreeDown(z, top, tree, freed);
        p, z := p.children, Inside(z, tree);
      } else {
        var q := p;
        StartLeaving(z, top, tree, freed);
        ghost var left := NodesToCome(z);
        while p != top
          invariant Leaving(z, top, tree, freed, left) && p == NodeAt(z, top) && q == p && Tree(top, tree)
          decreases z
        {
          ReadToLeave(p, z, top, tree, freed, left);
          assert p !in freed;
          if p.next != null {
            p, z := p.next, Beside(z);
            break;
          }
          p, z := p.parent, z.up;
          freed := freed + [q];
          q := p;
        }
        if p == top {
          ReadToLeave(p, z, top, tree, freed, left);
        }
        freed := freed + [q];
        if p == top {
          break;
        }
      }
    }
  }

  lemma WholeOrderOnce(top: PathData, tree: Forest)
    requires Tree(top, tree) && Distinct(tree)
    ensures NoneTwice(Postorder(tree) + [top])
  {
    PostorderNodes(tree);
    PostorderNoneTwice(tree);
    JoinNoneTwice(Postorder(tree), top, []);
    assert Postorder(tree) + [top] + [] == Postorder(tree) + [top];
  }
}
