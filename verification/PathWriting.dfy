/**
 Saving a host: every page worth keeping is written under the path that leads
 to its leaf, the path being kept in one buffer that grows and shrinks with
 the walk.
 */
module PathWriting {
  import opened Common
  import opened HostPaths
  import opened PathTree
  import opened PathWalks

  /** What is written for a leaf: the path spelt for it, and the leaf whose other fields are printed with it. */
  datatype Spelling = Spelling(leaf: PathData, path: string)

  ghost function LineFor(n: PathData, path: string, keep: set<PathData>): seq<Spelling> {
    if n in keep then [Spelling(n, path)] else []
  }

  /** The spellings for a node and all below it, `prefix` being what is spelt before its segment. */
  ghost function SpeltBelow(n: PathData, kids: Forest, prefix: string, keep: set<PathData>): seq<Spelling>
    decreases kids, 1
  {
    if kids.Nil? then LineFor(n, prefix + n.segment, keep) else Spelt(kids, prefix + n.segment + "/", keep)
  }

  ghost function Spelt(f: Forest, prefix: string, keep: set<PathData>): seq<Spelling>
    decreases f, 0
  {
    if f.Nil? then [] else SpeltBelow(f.node, f.kids, prefix, keep) + Spelt(f.next, prefix, keep)
  }

  // ----- what the spellings say -----

  /** The spelling of a leaf of a forest. */
  ghost function SpellingOf(f: Forest, n: PathData, prefix: string): Spelling
    requires n in Nodes(f)
  {
    Spelling(n, prefix + Join(PathTo(f, n)))
  }

  /** A node's spelling seen from the forest and from the part of it the node is in. */
  lemma SpellingInside(f: Forest, n: PathData, prefix: string)
    requires Distinct(f) && n in Nodes(f)
    ensures n == f.node ==> SpellingOf(f, n, prefix) == Spelling(n, prefix + n.segment)
    ensures n in Nodes(f.kids) ==> SpellingOf(f, n, prefix) == SpellingOf(f.kids, n, prefix + f.node.segment + "/")
    ensures n in Nodes(f.next) ==> SpellingOf(f, n, prefix) == SpellingOf(f.next, n, prefix)
  {
    if n in Nodes(f.kids) {
      assert PathTo(f, n)[1..] == PathTo(f.kids, n);
    }
  }

  /** As many spellings as leaves worth keeping. */
  lemma {:induction false} OnePerLeaf(f: Forest, prefix: string, keep: set<PathData>)
    ensures |Spelt(f, prefix, keep)| == |KeptOf(Leaves(f), keep)|
  {
    if f.Cons? {
      OnePerLeaf(f.next, prefix, keep);
      OnePerLeaf(f.kids, prefix + f.node.segment + "/", keep);
      KeptOfConcat(if f.kids.Nil? then [f.node] else Leaves(f.kids), Leaves(f.next), keep);
    }
  }

  /** Each spelling is that of the leaf in the same position, and is the path that leads to it. */
  lemma {:induction false} SpeltInOrder(f: Forest, prefix: string, keep: set<PathData>, i: nat)
    requires Distinct(f) && i < |Spelt(f, prefix, keep)|
    ensures i < |KeptOf(Leaves(f), keep)| && KeptOf(Leaves(f), keep)[i] in Nodes(f)
    ensures Spelt(f, prefix, keep)[i] == SpellingOf(f, KeptOf(Leaves(f), keep)[i], prefix)
  {
    OnePerLeaf(f, prefix, keep);
    var n, longer := KeptOf(Leaves(f), keep)[i], prefix + f.node.segment + "/";
    KeptOfConcat(if f.kids.Nil? then [f.node] else Leaves(f.kids), Leaves(f.next), keep);
    OnePerLeaf(f.kids, longer, keep);
    var k := |SpeltBelow(f.node, f.kids, prefix, keep)|;
    if i >= k {
      SpeltInOrder(f.next, prefix, keep, i - k);
    } else if f.kids.Cons? {
      SpeltInOrder(f.kids, longer, keep, i);
    }
    hide SpellingOf;
    SpellingInside(f, n, prefix);
  }

  /** Reading a written path back under the leaf's scheme and port leads to the very leaf it was written for. */
  lemma SpeltPathFindsItsLeaf(top: PathData, f: Forest, keep: set<PathData>, i: nat)
    requires f.Cons? && Distinct(f) && Ordered(f) && Filed(f) && top.segment == ""
    requires i < |SpeltBelow(top, f, "", keep)|
    ensures i < |KeptOf(Leaves(f), keep)|
    ensures var s := SpeltBelow(top, f, "", keep)[i];
            && s.leaf == KeptOf(Leaves(f), keep)[i]
            && FindExact(f, Segments(s.path), s.leaf.scheme, s.leaf.port) == Some(s.leaf)
  {
    assert "" + top.segment + "/" == "/";
    SpeltInOrder(f, "/", keep, i);
    WrittenPathFinds(f, KeptOf(Leaves(f), keep)[i]);
  }

  /** The number announced before the entries of a host is the number of entries written. */
  lemma AnnouncedCountIsExact(top: PathData, f: Forest, keep: set<PathData>)
    ensures |SpeltBelow(top, f, "", keep)| == NumberKept(LeavesBelow(top, f), keep)
  {
    if f.Nil? {
      OneMoreKept([], top, keep);
      assert [] + [top] == [top];
    } else {
      OnePerLeaf(f, "" + top.segment + "/", keep);
    }
  }

  // ----- the walk that writes -----

  /** What is spelt before the segment of the current node. */
  ghost function Prefix(z: Place, top: PathData): string {
    if z.Top? then "" else Prefix(z.up, top) + NodeAt(z.up, top).segment + "/"
  }

  ghost function SpeltToCome(z: Place, top: PathData, keep: set<PathData>): seq<Spelling> {
    if z.Top? then [] else Spelt(z.next, Prefix(z, top), keep) + SpeltToCome(z.up, top, keep)
  }

  /** As `Walking`, with the buffer holding what is spelt before the current node. */
  ghost predicate Writing(z: Place, top: PathData, tree: Forest, buf: string, done: seq<Spelling>, keep: set<PathData>) {
    && Within(z, tree) && buf == Prefix(z, top)
    && done + (SpeltBelow(NodeAt(z, top), BelowOf(z, tree), buf, keep) + SpeltToCome(z, top, keep))
       == SpeltBelow(top, tree, "", keep)
  }

  /** As `Rising`, with the buffer holding what is spelt up to and including the current node. */
  ghost predicate Returning(z: Place, top: PathData, tree: Forest, buf: string, done: seq<Spelling>, keep: set<PathData>, left: nat) {
    && Within(z, tree) && NodesToCome(z) == left && buf == Prefix(z, top) + NodeAt(z, top).segment
    && done + SpeltToCome(z, top, keep) == SpeltBelow(top, tree, "", keep)
  }

  lemma WriteDown(z: Place, top: PathData, tree: Forest, buf: string, done: seq<Spelling>, keep: set<PathData>)
    requires Writing(z, top, tree, buf, done, keep) && BelowOf(z, tree).Cons?
    ensures Writing(Inside(z, tree), top, tree, buf + NodeAt(z, top).segment + "/", done, keep)
    ensures Work(Inside(z, tree), tree) < Work(z, tree)
  {
    var k, longer := BelowOf(z, tree), buf + NodeAt(z, top).segment + "/";
    MovesStayWithin(z, tree);
    MovesMakeProgress(z, tree);
    assert SpeltBelow(NodeAt(z, top), k, buf, keep) == SpeltBelow(k.node, k.kids, longer, keep) + Spelt(k.next, longer, keep);
  }

  lemma StartReturning(z: Place, top: PathData, tree: Forest, buf: string, done: seq<Spelling>, keep: set<PathData>)
    requires Writing(z, top, tree, buf, done, keep) && BelowOf(z, tree).Nil?
    ensures
      var n := NodeAt(z, top);
      Returning(z, top, tree, buf + n.segment, done + LineFor(n, buf + n.segment, keep), keep, NodesToCome(z))
    ensures NodesToCome(z) < Work(z, tree)
  {
    var line := LineFor(NodeAt(z, top), buf + NodeAt(z, top).segment, keep);
    assert done + (line + SpeltToCome(z, top, keep)) == (done + line) + SpeltToCome(z, top, keep);
  }

  lemma Return(z: Place, top: PathData, tree: Forest, buf: string, done: seq<Spelling>, keep: set<PathData>, left: nat)
    requires Returning(z, top, tree, buf, done, keep, left)
    ensures z.Top? ==> done == SpeltBelow(top, tree, "", keep)
    ensures |NodeAt(z, top).segment| <= |buf|
    ensures
      var shorter := buf[..|buf| - |NodeAt(z, top).segment|];
      && (z.Down? && z.next.Nil? ==>
            |shorter| > 0 && Returning(z.up, top, tree, shorter[..|shorter| - 1], done, keep, left))
      && (z.Down? && z.next.Cons? ==>
            Writing(Beside(z), top, tree, shorter, done, keep) && Work(Beside(z), tree) == left)
  {
    MovesStayWithin(z, tree);
    MovesMakeProgress(z, tree);
    var shorter := buf[..|buf| - |NodeAt(z, top).segment|];
    assert shorter == Prefix(z, top);
    if z.Down? && z.next.Nil? {
      assert shorter[..|shorter| - 1] == Prefix(z.up, top) + NodeAt(z.up, top).segment;
    } else if z.Down? {
      var w := Beside(z);
      assert SpeltToCome(z, top, keep) == SpeltBelow(w.node, w.kids, shorter, keep) + SpeltToCome(w, top, keep);
    }
  }

  /** A leaf worth keeping lies in the tree. */
  lemma WritingAt(z: Place, top: PathData, tree: Forest, buf: string, done: seq<Spelling>, keep: set<PathData>, expiry: int)
    requires Writing(z, top, tree, buf, done, keep) && Tree(top, tree) && Keeps(keep, top, tree, expiry)
    ensures var p := NodeAt(z, top);
            && p.children == (if BelowOf(z, tree).Nil? then null else BelowOf(z, tree).node)
            && (p in keep <==> Kept(p, expiry))
    ensures BelowOf(z, tree).Cons? ==> NodeAt(Inside(z, tree), top) == BelowOf(z, tree).node
  {
    PointersAt(z, top, tree);
  }

  lemma ReturningAt(z: Place, top: PathData, tree: Forest, buf: string, done: seq<Spelling>, keep: set<PathData>, left: nat)
    requires Returning(z, top, tree, buf, done, keep, left) && Tree(top, tree)
    ensures
      var p := NodeAt(z, top);
      && (p == top <==> z.Top?)
      && (z.Down? && z.next.Nil? ==> p.next == null && p.parent == NodeAt(z.up, top))
      && (z.Down? && z.next.Cons? ==> p.next == NodeAt(Beside(z), top) != top)
  {
    PointersAt(z, top, tree);
    if z.Down? && z.next.Cons? {
      MovesStayWithin(z, tree);
      PointersAt(Beside(z), top, tree);
    }
  }

  lemma LineIsAdded(lines: seq<Spelling>, n: PathData, path: string, keep: set<PathData>)
    ensures lines + LineFor(n, path, keep) == if n in keep then lines + [Spelling(n, path)] else lines
  {
  }

  /** Every leaf worth keeping is written, in order, under the path that leads to it. */
  method WritePaths(top: PathData, expiry: int, ghost tree: Forest, ghost keep: set<PathData>) returns (lines: seq<Spelling>)
    requires Tree(top, tree) && Keeps(keep, top, tree, expiry)
    ensures lines == SpeltBelow(top, tree, "", keep)
  {
    lines := [];
    var p: PathData, buf := top, "";
    ghost var z := Top;
    assert Writing(z, top, tree, buf, lines, keep) && p == NodeAt(z, top);
    hide *;
    while true
      invariant Writing(z, top, tree, buf, lines, keep) && p == NodeAt(z, top)
      invariant Tree(top, tree) && Keeps(keep, top, tree, expiry)
      decreases Work(z, tree)
    {
      WritingAt(z, top, tree, buf, lines, keep, expiry);
      if p.children != null {
        WriteDown(z, top, tree, buf, lines, keep);
        buf := buf + p.segment + "/";
        p, z := p.children, Inside(z, tree);
      } else {
        StartReturning(z, top, tree, buf, lines, keep);
        ghost var left := NodesToCome(z);
        buf := buf + p.segment;
        LineIsAdded(lines, p, buf, keep);
        if Kept(p, expiry) {
          lines := lines + [Spelling(p, buf)];
        }
        while p != top
          invariant Returning(z, top, tree, buf, lines, keep, left) && p == NodeAt(z, top)
          invariant Tree(top, tree) && Keeps(keep, top, tree, expiry)
          decreases z
        {
          Return(z, top, tree, buf, lines, keep, left);
          ReturningAt(z, top, tree, buf, lines, keep, left);
          buf := buf[..|buf| - |p.segment|];
          if p.next != null {
            p, z := p.next, Beside(z);
            break;
          }
          buf := buf[..|buf| - 1];
          p, z := p.parent, z.up;
        }
        if p == top {
          ReturningAt(z, top, tree, buf, lines, keep, left);
          Return(z, top, tree, buf, lines, keep, left);
          break;
        }
      }
    }
  }
}
