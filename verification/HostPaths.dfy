/**
 The path tree of one host: adding paths, looking them up.
 */
module HostPaths {
  import opened Common
  import opened PathTree

  /** The whole tree is held by the heap, and so are the children at any place in it. */
  lemma {:induction false} HeldAt(f: Forest, prev: PathData?, at: seq<string>, scheme: nat, port: nat)
    requires Distinct(f) && Held(f, prev) && at != [] && KidsAt(f, at, scheme, port).Some?
    ensures FindExact(f, at, scheme, port).Some?
    ensures
      var k, p := KidsAt(f, at, scheme, port).value, FindExact(f, at, scheme, port).value;
      Distinct(k) && Held(k, null) && p in Nodes(f) && p.children == Head(k) && p.last == LastNode(k)
    decreases f
  {
    FoundWithKids(f, at, scheme, port);
    HeldParts(f, prev);
    hide Held;
    if SameKey(f.node, at[0], scheme, port) {
      if |at| > 1 {
        HeldAt(f.kids, null, at[1..], scheme, port);
      }
    } else {
      HeldAt(f.next, f.node, at, scheme, port);
    }
  }

  /** The pointers of the whole tree, sentinel included, after a node is added. */
  lemma WholeLink(root: PathData, f: Forest, at: seq<string>, parent: PathData, d: PathData, n: PathData)
    requires root !in Nodes(f) && Distinct(f) && d !in Nodes(f) && d != root && n in Nodes(f) + {root, d}
    requires if at == [] then parent == root else FindExact(f, at, d.scheme, d.port) == Some(parent)
    ensures KidsAt(f, at, d.scheme, d.port).Some?
    ensures Nodes(Insert(f, at, d)) == Nodes(f) + {d}
    ensures LinkOf(Cons(root, Insert(f, at, d), Nil), null, n)
         == var k := KidsAt(f, at, d.scheme, d.port).value;
            var b, a := Before(k, d.segment, null), After(k, d.segment);
            if n == d then Link(a, b, null, null) else Spliced(LinkOf(Cons(root, f, Nil), null, n), n, d, b, a, parent)
  {
    if at == [] {
      InsertSiblingNodes(f, d);
      ChildLink(Cons(root, f, Nil), null, d, n);
    } else {
      FoundWithKids(f, at, d.scheme, d.port);
      InsertNodes(f, at, d);
      var k := KidsAt(f, at, d.scheme, d.port).value;
      SiblingsAreNodes(k);
      NeighboursAreSiblings(k, d.segment, null);
      if n != root {
        InsertLink(f, null, at, d, n);
      }
    }
  }

  /** What is found below the node at `at` is what is found along the longer path. */
  lemma {:induction false} FindBelow(f: Forest, at: seq<string>, rest: seq<string>, scheme: nat, port: nat)
    requires KidsAt(f, at, scheme, port).Some? && rest != []
    ensures FindExact(f, at + rest, scheme, port) == FindExact(KidsAt(f, at, scheme, port).value, rest, scheme, port)
    decreases f
  {
    if at == [] {
      assert at + rest == rest;
    } else if SameKey(f.node, at[0], scheme, port) {
      assert at + rest == [at[0]] + (at[1..] + rest);
      FindBelow(f.kids, at[1..], rest, scheme, port);
    } else {
      FindBelow(f.next, at, rest, scheme, port);
    }
  }

  /** A segment that is not found is no sibling's. */
  lemma {:induction false} NotFoundIsNew(f: Forest, segment: string, scheme: nat, port: nat)
    requires FindExact(f, [segment], scheme, port) == None
    ensures forall m :: m in Siblings(f) ==> !SameKey(m, segment, scheme, port)
  {
    if f.Cons? {
      NotFoundIsNew(f.next, segment, scheme, port);
    }
  }

  /** The search results of two trees agree but for one path, which the second resolves to `d`. */
  ghost predicate FindsAlso(f: Forest, g: Forest, path: seq<string>, scheme: nat, port: nat, d: PathData) {
    && (FindExact(f, path, scheme, port) == None || FindExact(f, path, scheme, port) == Some(d))
    && forall t: seq<string>, s: nat, p: nat ::
      FindExact(g, t, s, p) == if t == path && s == scheme && p == port then Some(d) else FindExact(f, t, s, p)
  }

  /** The search results of two trees agree but for paths leading to `path` that the first did not have. */
  ghost predicate FindsMore(f: Forest, g: Forest, path: seq<string>, scheme: nat, port: nat) {
    forall t: seq<string>, s: nat, p: nat ::
      FindExact(g, t, s, p) == FindExact(f, t, s, p)
      || (FindExact(f, t, s, p) == None && s == scheme && p == port && t <= path)
  }

  lemma SplitOnce(s: string)
    ensures var d := FirstSlash(s);
      SplitSlashes(s) == if d == |s| then [s] else [s[..d]] + SplitSlashes(s[d + 1..])
  {
    hide FirstSlash;
  }

  lemma FirstSegment(s: string, slash: nat, rest: seq<string>)
    requires slash == FirstSlash(s)
    requires rest == if slash == |s| then [] else SplitSlashes(s[slash + 1..])
    ensures SplitSlashes(s) == [s[..slash]] + rest
  {
    hide FirstSlash;
    hide SplitSlashes;
    SplitOnce(s);
    if slash == |s| {
      assert s[..slash] == s;
    }
  }

  lemma Reassociate(at: seq<string>, s: string, rest: seq<string>)
    ensures at + ([s] + rest) == (at + [s]) + rest
    ensures at + [s] <= at + ([s] + rest)
  {
    assert at + ([s] + rest) == (at + [s]) + rest;
  }

  lemma FindsStep(f: Forest, g: Forest, h: Forest, part: seq<string>, path: seq<string>, scheme: nat, port: nat, d: PathData)
    requires FindsMore(f, g, path, scheme, port) && FindsAlso(g, h, part, scheme, port, d) && part <= path
    ensures FindsMore(f, h, path, scheme, port)
  {
  }

  // ----- where nodes are filed -----

  /** No segment holds a slash, and children were reached over the scheme and port of their parent. */
  ghost predicate Filed(f: Forest) {
    f.Cons? ==>
      && '/' !in f.node.segment
      && (forall m :: m in Siblings(f.kids) ==> m.scheme == f.node.scheme && m.port == f.node.port)
      && Filed(f.kids) && Filed(f.next)
  }

  lemma {:induction false} InsertKeepsFiled(f: Forest, at: seq<string>, d: PathData)
    requires Filed(f) && KidsAt(f, at, d.scheme, d.port).Some? && '/' !in d.segment
    ensures Filed(Insert(f, at, d))
    decreases f
  {
    hide StrCmp;
    InsertNodes(f, at, d);
    if at == [] {
      if f.Cons? && StrCmp(f.node.segment, d.segment) <= 0 {
        InsertKeepsFiled(f.next, at, d);
      }
    } else if SameKey(f.node, at[0], d.scheme, d.port) {
      InsertSiblingNodes(f.kids, d);
      InsertNodes(f.kids, at[1..], d);
      InsertKeepsFiled(f.kids, at[1..], d);
    } else {
      InsertKeepsFiled(f.next, at, d);
    }
  }

  lemma {:induction false} SitesAgree(f: Forest, scheme: nat, port: nat)
    requires Filed(f) && forall m :: m in Siblings(f) ==> m.scheme == scheme && m.port == port
    ensures forall n :: n in Nodes(f) ==> n.scheme == scheme && n.port == port
  {
    if f.Cons? {
      SitesAgree(f.kids, scheme, port);
      SitesAgree(f.next, scheme, port);
    }
  }

  /** The sibling a node is below, or is. */
  lemma {:induction false} FirstOnTheWay(f: Forest, n: PathData) returns (m: PathData)
    requires Filed(f) && n in Nodes(f)
    ensures m in Siblings(f) && SameKey(m, PathTo(f, n)[0], n.scheme, n.port)
  {
    if n == f.node {
      m := f.node;
    } else if n in Nodes(f.kids) {
      SitesAgree(f.kids, f.node.scheme, f.node.port);
      m := f.node;
    } else {
      m := FirstOnTheWay(f.next, n);
    }
  }

  /** Every node is found by its own path under its own scheme and port. */
  lemma {:induction false} OwnPathFinds(f: Forest, n: PathData)
    requires Distinct(f) && Ordered(f) && Filed(f) && n in Nodes(f)
    ensures FindExact(f, PathTo(f, n), n.scheme, n.port) == Some(n)
  {
    if n == f.node {
    } else if n in Nodes(f.kids) {
      SitesAgree(f.kids, f.node.scheme, f.node.port);
      OwnPathFinds(f.kids, n);
      assert PathTo(f, n)[1..] == PathTo(f.kids, n);
    } else {
      var m := FirstOnTheWay(f.next, n);
      OwnPathFinds(f.next, n);
    }
  }

  /** Segments joined by slashes are split back into the same segments. */
  function Join(segs: seq<string>): string
    requires segs != []
  {
    if |segs| == 1 then segs[0] else segs[0] + "/" + Join(segs[1..])
  }

  lemma {:induction false} SplitJoin(segs: seq<string>)
    requires segs != [] && forall i :: 0 <= i < |segs| ==> '/' !in segs[i]
    ensures SplitSlashes(Join(segs)) == segs
  {
    var s := Join(segs);
    if |segs| == 1 {
      SlashFreeHead(segs[0], "");
      assert segs[0] + "" == segs[0];
    } else {
      var tail := "/" + Join(segs[1..]);
      SlashFreeHead(segs[0], tail);
      assert s == segs[0] + tail;
      assert s[|segs[0]| + 1..] == Join(segs[1..]);
      SplitJoin(segs[1..]);
    }
  }

  lemma {:induction false} SlashFreeHead(a: string, tail: string)
    requires '/' !in a && (tail == "" || tail[0] == '/')
    ensures FirstSlash(a + tail) == |a|
  {
    if a != [] {
      assert (a + tail)[1..] == a[1..] + tail;
      SlashFreeHead(a[1..], tail);
    } else {
      assert a + tail == tail;
    }
  }

  lemma {:induction false} PathsAreSlashFree(f: Forest, n: PathData)
    requires Filed(f) && n in Nodes(f)
    ensures forall i :: 0 <= i < |PathTo(f, n)| ==> '/' !in PathTo(f, n)[i]
  {
    if n == f.node {
    } else if n in Nodes(f.kids) {
      PathsAreSlashFree(f.kids, n);
    } else {
      PathsAreSlashFree(f.next, n);
    }
  }

  /** The path written for a node is split into the segments that lead to it, and so finds it. */
  lemma WrittenPathFinds(f: Forest, n: PathData)
    requires Distinct(f) && Ordered(f) && Filed(f) && n in Nodes(f)
    ensures FindExact(f, Segments("/" + Join(PathTo(f, n))), n.scheme, n.port) == Some(n)
  {
    PathsAreSlashFree(f, n);
    SplitJoin(PathTo(f, n));
    assert ("/" + Join(PathTo(f, n)))[1..] == Join(PathTo(f, n));
    OwnPathFinds(f, n);
  }

  // ----- the search as the program makes it -----

  /** Whether `strncmp` over the length of the segment sought sees no difference. */
  predicate Begins(n: PathData, segment: string, scheme: nat, port: nat) {
    segment <= n.segment && n.scheme == scheme && n.port == port
  }

  /** At each level the first node whose segment begins with the one sought, and no other, is descended into. */
  ghost function MatchFirst(f: Forest, segs: seq<string>, scheme: nat, port: nat): Option<PathData>
    decreases f
  {
    if f.Nil? || segs == [] then None
    else if Begins(f.node, segs[0], scheme, port) then
      if |segs| == 1 then Some(f.node) else MatchFirst(f.kids, segs[1..], scheme, port)
    else MatchFirst(f.next, segs, scheme, port)
  }

  /** The order of siblings makes the prefix comparison find every path that is there. */
  lemma {:induction false} MatchFindsWhatIsThere(f: Forest, segs: seq<string>, scheme: nat, port: nat)
    requires Ordered(f) && FindExact(f, segs, scheme, port).Some?
    ensures MatchFirst(f, segs, scheme, port) == FindExact(f, segs, scheme, port)
    decreases f
  {
    if SameKey(f.node, segs[0], scheme, port) {
      if |segs| > 1 {
        MatchFindsWhatIsThere(f.kids, segs[1..], scheme, port);
      }
    } else {
      MatchFindsWhatIsThere(f.next, segs, scheme, port);
      var x := FirstWithKey(f.next, segs, scheme, port);
      StrCmpZero(f.node.segment, x.segment);
      StrCmpAntisymmetric(f.node.segment, x.segment);
      if Begins(f.node, segs[0], scheme, port) {
        PrefixSortsFirst(segs[0], f.node.segment);
        assert false;
      }
    }
  }

  /** An exact search that succeeds meets a sibling with the first key. */
  lemma {:induction false} FirstWithKey(f: Forest, segs: seq<string>, scheme: nat, port: nat) returns (x: PathData)
    requires FindExact(f, segs, scheme, port).Some?
    ensures x in Siblings(f) && SameKey(x, segs[0], scheme, port)
  {
    if SameKey(f.node, segs[0], scheme, port) {
      x := f.node;
    } else {
      x := FirstWithKey(f.next, segs, scheme, port);
    }
  }

  /** The segments on the way to a node. */
  ghost function PathTo(f: Forest, n: PathData): (segs: seq<string>)
    requires n in Nodes(f)
    ensures segs != []
  {
    if n == f.node then [f.node.segment]
    else if n in Nodes(f.kids) then [f.node.segment] + PathTo(f.kids, n)
    else PathTo(f.next, n)
  }

  /** What the prefix comparison finds lies at a path each of whose segments begins with the one sought. */
  lemma {:induction false} MatchIsAnExtension(f: Forest, segs: seq<string>, scheme: nat, port: nat)
    requires Distinct(f) && MatchFirst(f, segs, scheme, port).Some?
    ensures
      var n := MatchFirst(f, segs, scheme, port).value;
      n in Nodes(f) && |PathTo(f, n)| == |segs| && forall i :: 0 <= i < |segs| ==> segs[i] <= PathTo(f, n)[i]
    decreases f
  {
    if Begins(f.node, segs[0], scheme, port) {
      if |segs| > 1 {
        MatchIsAnExtension(f.kids, segs[1..], scheme, port);
      }
    } else {
      MatchIsAnExtension(f.next, segs, scheme, port);
    }
  }

  /** What the prefix comparison finds is what was asked for exactly when the node found spells the path sought. */
  lemma {:induction false} MatchIsExactWhenSpelled(f: Forest, segs: seq<string>, scheme: nat, port: nat)
    requires Distinct(f) && Ordered(f) && MatchFirst(f, segs, scheme, port).Some?
    ensures
      var n := MatchFirst(f, segs, scheme, port).value;
      n in Nodes(f) && (FindExact(f, segs, scheme, port) == Some(n) <==> PathTo(f, n) == segs)
    decreases f
  {
    MatchIsAnExtension(f, segs, scheme, port);
    if SameKey(f.node, segs[0], scheme, port) {
      if |segs| > 1 {
        MatchIsAnExtension(f.kids, segs[1..], scheme, port);
        MatchIsExactWhenSpelled(f.kids, segs[1..], scheme, port);
      }
      assert segs == [segs[0]] + segs[1..];
    } else if Begins(f.node, segs[0], scheme, port) {
      if |segs| > 1 {
        MatchIsAnExtension(f.kids, segs[1..], scheme, port);
      }
      assert PathTo(f, MatchFirst(f, segs, scheme, port).value)[0] == f.node.segment;
      if FindExact(f, segs, scheme, port).Some? {
        MatchFindsWhatIsThere(f, segs, scheme, port);
        FoundSpells(f, segs, scheme, port);
      }
    } else {
      MatchIsAnExtension(f.next, segs, scheme, port);
      MatchIsExactWhenSpelled(f.next, segs, scheme, port);
    }
  }

  lemma {:induction false} FoundSpells(f: Forest, segs: seq<string>, scheme: nat, port: nat)
    requires Distinct(f) && FindExact(f, segs, scheme, port).Some?
    ensures FindExact(f, segs, scheme, port).value in Nodes(f)
    ensures PathTo(f, FindExact(f, segs, scheme, port).value) == segs
    decreases f
  {
    if SameKey(f.node, segs[0], scheme, port) {
      if |segs| > 1 {
        FoundSpells(f.kids, segs[1..], scheme, port);
      }
    } else {
      FoundSpells(f.next, segs, scheme, port);
    }
  }

  // ----- when it goes wrong -----

  /** Of the siblings that begin with a segment, under a scheme and port, `x` comes first by `strcmp`. */
  ghost predicate LeastBeginning(f: Forest, x: PathData, segment: string, scheme: nat, port: nat) {
    && x in Siblings(f) && Begins(x, segment, scheme, port)
    && forall m :: m in Siblings(f) && Begins(m, segment, scheme, port) ==> StrCmp(x.segment, m.segment) <= 0
  }

  ghost function KidsOf(f: Forest, x: PathData): Forest
    requires x in Siblings(f)
  {
    if f.node == x then f.kids else KidsOf(f.next, x)
  }

  /** Going down from each of the nodes to the least of its children that begins so, and never back. */
  ghost predicate Descends(f: Forest, segs: seq<string>, scheme: nat, port: nat, way: seq<PathData>)
    decreases |segs|
  {
    && segs != [] && |way| == |segs| && LeastBeginning(f, way[0], segs[0], scheme, port)
    && (|segs| > 1 ==> Descends(KidsOf(f, way[0]), segs[1..], scheme, port, way[1..]))
  }

  /** In order, the first sibling that begins so is the least. */
  lemma FirstIsLeast(f: Forest, segment: string, scheme: nat, port: nat, x: PathData)
    requires Ordered(f) && f.Cons? && Begins(f.node, segment, scheme, port)
    ensures LeastBeginning(f, x, segment, scheme, port) <==> x == f.node
  {
    StrCmpZero(f.node.segment, f.node.segment);
    if LeastBeginning(f, x, segment, scheme, port) && x in Siblings(f.next) {
      StrCmpAntisymmetric(f.node.segment, x.segment);
      StrCmpZero(f.node.segment, x.segment);
    }
  }

  lemma LaterIsLeast(f: Forest, segment: string, scheme: nat, port: nat, x: PathData)
    requires f.Cons? && !Begins(f.node, segment, scheme, port)
    ensures LeastBeginning(f, x, segment, scheme, port) <==> LeastBeginning(f.next, x, segment, scheme, port)
    ensures LeastBeginning(f, x, segment, scheme, port) ==> x != f.node
  {
  }

  /** The search finds the node at the end of that descent. */
  lemma {:induction false} DescentIsFound(f: Forest, segs: seq<string>, scheme: nat, port: nat, way: seq<PathData>)
    requires Ordered(f) && Descends(f, segs, scheme, port, way)
    ensures MatchFirst(f, segs, scheme, port) == Some(way[|way| - 1])
    decreases f
  {
    hide LeastBeginning;
    hide Begins;
    InSiblings(f, way[0], segs[0], scheme, port);
    if Begins(f.node, segs[0], scheme, port) {
      FirstIsLeast(f, segs[0], scheme, port, way[0]);
      if |segs| > 1 {
        DescentIsFound(f.kids, segs[1..], scheme, port, way[1..]);
      }
    } else {
      LaterIsLeast(f, segs[0], scheme, port, way[0]);
      InSiblings(f.next, way[0], segs[0], scheme, port);
      DescentIsFound(f.next, segs, scheme, port, way);
    }
  }

  lemma InSiblings(f: Forest, x: PathData, segment: string, scheme: nat, port: nat)
    requires LeastBeginning(f, x, segment, scheme, port)
    ensures f.Cons? && x in Siblings(f)
  {
  }

  /** And finds nothing else. */
  lemma {:induction false} FoundIsDescent(f: Forest, segs: seq<string>, scheme: nat, port: nat) returns (way: seq<PathData>)
    requires Ordered(f) && MatchFirst(f, segs, scheme, port).Some?
    ensures Descends(f, segs, scheme, port, way)
    decreases f
  {
    hide LeastBeginning;
    hide Begins;
    if Begins(f.node, segs[0], scheme, port) {
      FirstIsLeast(f, segs[0], scheme, port, f.node);
      way := [f.node];
      if |segs| > 1 {
        var rest := FoundIsDescent(f.kids, segs[1..], scheme, port);
        way := [f.node] + rest;
        assert way[1..] == rest;
      }
    } else {
      way := FoundIsDescent(f.next, segs, scheme, port);
      LaterIsLeast(f, segs[0], scheme, port, way[0]);
      InSiblings(f.next, way[0], segs[0], scheme, port);
    }
  }

  /**
   A node is found exactly if the descent runs to its end. It is the wrong one
   exactly if moreover the path is not known; it spells another path then.
   */
  lemma MatchGoesWrongExactly(f: Forest, segs: seq<string>, scheme: nat, port: nat)
    requires Distinct(f) && Ordered(f)
    ensures MatchFirst(f, segs, scheme, port).Some? <==> (exists way :: Descends(f, segs, scheme, port, way))
    ensures MatchFirst(f, segs, scheme, port) != FindExact(f, segs, scheme, port) <==>
            FindExact(f, segs, scheme, port).None? && (exists way :: Descends(f, segs, scheme, port, way))
    ensures match MatchFirst(f, segs, scheme, port)
            case None => true
            case Some(n) => n in Nodes(f) && (FindExact(f, segs, scheme, port).None? <==> PathTo(f, n) != segs)
  {
    hide Descends;
    if way :| Descends(f, segs, scheme, port, way) {
      DescentIsFound(f, segs, scheme, port, way);
    }
    if MatchFirst(f, segs, scheme, port).Some? {
      var way := FoundIsDescent(f, segs, scheme, port);
      MatchIsExactWhenSpelled(f, segs, scheme, port);
    }
    if FindExact(f, segs, scheme, port).Some? {
      MatchFindsWhatIsThere(f, segs, scheme, port);
    }
  }

  /** A host where only one path was added answers for a shorter one too. */
  lemma MatchInventsPaths(n: PathData)
    requires n.segment == "ab"
    ensures FindExact(Cons(n, Nil, Nil), ["a"], n.scheme, n.port) == None
    ensures MatchFirst(Cons(n, Nil, Nil), ["a"], n.scheme, n.port) == Some(n)
  {
    assert "a" <= "ab";
  }

  ghost function LinkIn(n: PathData): Link
    reads n
  {
    Link(n.next, n.prev, n.children, n.last)
  }

  lemma {:induction false} NotBelowItself(f: Forest, at: seq<string>, scheme: nat, port: nat)
    requires Distinct(f) && at != [] && FindExact(f, at, scheme, port).Some?
    ensures KidsAt(f, at, scheme, port).Some?
    ensures FindExact(f, at, scheme, port).value !in Nodes(KidsAt(f, at, scheme, port).value)
    decreases f
  {
    FoundWithKids(f, at, scheme, port);
    if SameKey(f.node, at[0], scheme, port) {
      if |at| > 1 {
        NotBelowItself(f.kids, at[1..], scheme, port);
      }
    } else {
      NotBelowItself(f.next, at, scheme, port);
    }
  }

  lemma WholeLinks(root: PathData, f: Forest, at: seq<string>, parent: PathData, d: PathData)
    requires root !in Nodes(f) && Distinct(f) && d !in Nodes(f) && d != root
    requires if at == [] then parent == root else FindExact(f, at, d.scheme, d.port) == Some(parent)
    ensures KidsAt(f, at, d.scheme, d.port).Some?
    ensures Nodes(Cons(root, Insert(f, at, d), Nil)) == Nodes(f) + {root, d}
    ensures
      var k := KidsAt(f, at, d.scheme, d.port).value;
      var b, a := Before(k, d.segment, null), After(k, d.segment);
      && LinkOf(Cons(root, Insert(f, at, d), Nil), null, d) == Link(a, b, null, null)
      && forall n :: n in Nodes(Cons(root, f, Nil)) ==>
           LinkOf(Cons(root, Insert(f, at, d), Nil), null, n) == Spliced(LinkOf(Cons(root, f, Nil), null, n), n, d, b, a, parent)
  {
    WholeLink(root, f, at, parent, d, d);
    assert Nodes(Cons(root, f, Nil)) == Nodes(f) + {root};
    hide *;
    forall n | n in Nodes(Cons(root, f, Nil))
      ensures n in Nodes(Cons(root, Insert(f, at, d), Nil))
      ensures
        var k := KidsAt(f, at, d.scheme, d.port).value;
        var b, a := Before(k, d.segment, null), After(k, d.segment);
        LinkOf(Cons(root, Insert(f, at, d), Nil), null, n) == Spliced(LinkOf(Cons(root, f, Nil), null, n), n, d, b, a, parent)
    {
      WholeLink(root, f, at, parent, d, n);
    }
  }

  class Paths {
    /** The sentinel, and the shape of the tree below it. */
    const root: PathData
    ghost var kids: Forest
    ghost var nodes: set<PathData>

    ghost predicate Valid()
      reads this, nodes
    {
      && nodes == Nodes(Cons(root, kids, Nil)) && root !in Nodes(kids) && Distinct(kids) && Parented(kids, root)
      && Ordered(kids) && Filed(kids)
      && Held(Cons(root, kids, Nil), null)
    }

    /** `parent` is where `at` leads, and `k` are its children. */
    ghost predicate Leads(at: seq<string>, scheme: nat, port: nat, parent: PathData)
      reads this
    {
      if at == [] then parent == root else FindExact(kids, at, scheme, port) == Some(parent)
    }

    ghost function Children(at: seq<string>, scheme: nat, port: nat): Forest
      reads this
    {
      match KidsAt(kids, at, scheme, port) case Some(k) => k case None => Nil
    }

    lemma WholeNodes(f: Forest)
      ensures Nodes(Cons(root, f, Nil)) == {root} + Nodes(f)
    {
    }

    lemma ParentHolds(at: seq<string>, scheme: nat, port: nat, parent: PathData)
      requires Valid() && Leads(at, scheme, port, parent)
      ensures KidsAt(kids, at, scheme, port).Some?
      ensures var k := Children(at, scheme, port);
              Distinct(k) && Held(k, null) && parent.children == Head(k) && parent.last == LastNode(k) && Nodes(k) <= Nodes(kids)
      ensures parent in Nodes(kids) + {root}
    {
      HeldParts(Cons(root, kids, Nil), null);
      if at != [] {
        FoundWithKids(kids, at, scheme, port);
        HeldAt(kids, null, at, scheme, port);
      }
    }

    /** A node is not among its own children. */
    lemma ParentApart(at: seq<string>, scheme: nat, port: nat, parent: PathData)
      requires Valid() && Leads(at, scheme, port, parent)
      ensures parent !in Nodes(Children(at, scheme, port))
    {
      if at != [] {
        NotBelowItself(kids, at, scheme, port);
      }
    }

    constructor ()
      ensures Valid() && kids == Nil && fresh(root)
    {
      root := new PathData.Root();
      kids, nodes := Nil, {root};
    }

    /** The sequence of assignments that links `d` in between `b` and `a`. */
    static method SpliceIn(ghost nodes: set<PathData>, d: PathData, a: PathData?, ghost b: PathData?, parent: PathData)
      requires d !in nodes && parent in nodes && a != parent && b != parent && (a == null || a != b)
      requires a != null ==> a in nodes && a.prev == b
      requires b != null ==> b in nodes
      requires (a == null ==> parent.last == b) && (parent.children == null <==> b == null && a == null)
      requires d.children == d.last == null
      modifies nodes`next, nodes`prev, nodes`children, nodes`last, d`next, d`prev
      ensures LinkIn(d) == Link(a, b, null, null)
      ensures forall n :: n in nodes ==> LinkIn(n) == Spliced(old(LinkIn(n)), n, d, b, a, parent)
    {
      var e := a;
      if e != null {
        d.prev := e.prev;
        d.next := e;
        if e.prev != null {
          e.prev.next := d;
        } else {
          parent.children := d;
        }
        e.prev := d;
      } else if parent.children == null {
        d.prev, d.next := null, null;
        parent.children, parent.last := d, d;
      } else {
        d.next := null;
        d.prev := parent.last;
        parent.last.next := d;
        parent.last := d;
      }
    }

    /** The first child that sorts after the segment, and the child before it. */
    static method FindPlace(ghost k: Forest, parent: PathData, segment: string)
      returns (e: PathData?, ghost before: PathData?)
      requires Distinct(k) && Held(k, null) && parent.children == Head(k)
      ensures e == After(k, segment) && before == Before(k, segment, null)
      ensures e != null ==> e.prev == before
      ensures e == null ==> before == LastNode(k)
      ensures e == null || e != before
      ensures e == null && before == null <==> parent.children == null
    {
      ghost var rest := k;
      before := null;
      e := parent.children;
      while e != null && StrCmp(e.segment, segment) <= 0
        invariant Distinct(rest) && Held(rest, before) && before !in Nodes(rest)
        invariant e == Head(rest)
        invariant After(rest, segment) == After(k, segment)
        invariant Before(rest, segment, before) == Before(k, segment, null)
        invariant if rest.Nil? then before == LastNode(k) else LastNode(rest) == LastNode(k)
        decreases rest
      {
        hide StrCmp;
        HeldParts(rest, before);
        hide Held;
        rest, before, e := rest.next, e, e.next;
      }
      if rest.Cons? {
        HeldParts(rest, before);
      }
    }

    /** A new child of `parent`, spliced in where it sorts. */
    static method NewChild(ghost nodes: set<PathData>, ghost k: Forest, scheme: nat, port: nat, segment: string, parent: PathData)
      returns (d: PathData)
      requires Distinct(k) && Held(k, null) && parent.children == Head(k) && parent.last == LastNode(k)
      requires Siblings(k) <= nodes && parent in nodes && parent !in Siblings(k)
      modifies nodes`next, nodes`prev, nodes`children, nodes`last
      ensures fresh(d) && SameKey(d, segment, scheme, port) && d.parent == parent
      ensures LinkIn(d) == Link(After(k, segment), Before(k, segment, null), null, null)
      ensures forall n :: n in nodes ==>
                LinkIn(n) == Spliced(old(LinkIn(n)), n, d, Before(k, segment, null), After(k, segment), parent)
    {
      NeighboursAreSiblings(k, segment, null);
      var e, before := FindPlace(k, parent, segment);
      d := new PathData(scheme, port, segment, parent);
      SpliceIn(nodes, d, e, before, parent);
    }

    /** The tree with a childless node added below `parent`; the new node is spliced in by relinking its neighbours. */
    method AddPathNode(ghost at: seq<string>, scheme: nat, port: nat, segment: string, parent: PathData)
      returns (d: PathData)
      requires Valid() && Leads(at, scheme, port, parent)
      requires forall m :: m in Siblings(Children(at, scheme, port)) ==> !SameKey(m, segment, scheme, port)
      requires '/' !in segment
      modifies this`kids, this`nodes, nodes`next, nodes`prev, nodes`children, nodes`last
      ensures Valid() && fresh(d) && SameKey(d, segment, scheme, port)
      ensures kids == Insert(old(kids), at, d) && nodes == old(nodes) + {d}
    {
      hide Nodes;
      hide Distinct;
      hide Parented;
      hide Ordered;
      hide Filed;
      hide Insert;
      hide Siblings;
      hide LinkOf;
      hide Spliced;
      hide FindExact;
      hide KidsAt;
      ghost var k := Children(at, scheme, port);
      WholeNodes(kids);
      ParentHolds(at, scheme, port, parent);
      ParentApart(at, scheme, port, parent);
      SiblingsAreNodes(k);
      d := NewChild(nodes, k, scheme, port, segment, parent);
      Added(kids, at, parent, d);
      HeldAgain(kids, at, parent, d);
      WholeNodes(Insert(kids, at, d));
      kids, nodes := Insert(kids, at, d), nodes + {d};
    }

    lemma HeldAgain(f: Forest, at: seq<string>, parent: PathData, d: PathData)
      requires root !in Nodes(f) && Distinct(f) && d !in Nodes(f) && d != root
      requires if at == [] then parent == root else FindExact(f, at, d.scheme, d.port) == Some(parent)
      requires KidsAt(f, at, d.scheme, d.port).Some?
      requires
        var k := KidsAt(f, at, d.scheme, d.port).value;
        var b, a := Before(k, d.segment, null), After(k, d.segment);
        && LinkIn(d) == Link(a, b, null, null)
        && forall n :: n in Nodes(Cons(root, f, Nil)) ==>
             LinkIn(n) == Spliced(LinkOf(Cons(root, f, Nil), null, n), n, d, b, a, parent)
      ensures Held(Cons(root, Insert(f, at, d), Nil), null)
    {
      WholeLinks(root, f, at, parent, d);
      assert Nodes(Cons(root, f, Nil)) == Nodes(f) + {root};
      hide StrCmp;
      hide Insert;
      hide KidsAt;
      hide FindExact;
      hide LinkOf;
      hide Before;
      hide After;
      hide Distinct;
    }

    lemma MatchAdded(segs: seq<string>, scheme: nat, port: nat)
      requires Valid() && FindExact(kids, segs, scheme, port).Some?
      ensures MatchFirst(kids, segs, scheme, port) == FindExact(kids, segs, scheme, port)
    {
      MatchFindsWhatIsThere(kids, segs, scheme, port);
    }

    lemma Added(f: Forest, at: seq<string>, parent: PathData, d: PathData)
      requires root !in Nodes(f) && Distinct(f) && Parented(f, root) && Ordered(f) && Filed(f) && d !in Nodes(f)
      requires if at == [] then parent == root else FindExact(f, at, d.scheme, d.port) == Some(parent)
      requires KidsAt(f, at, d.scheme, d.port).Some? && NewKey(KidsAt(f, at, d.scheme, d.port).value, d)
      requires d.parent == parent && '/' !in d.segment
      ensures var g := Insert(f, at, d);
              Nodes(g) == Nodes(f) + {d} && Distinct(g) && Parented(g, root) && Ordered(g) && Filed(g)
    {
      InsertKeepsFiled(f, at, d);
      InsertNodes(f, at, d);
      InsertKeepsShape(f, at, d, root);
    }

    /** The child with this key, if there is one. */
    static method FindChild(ghost k: Forest, parent: PathData, segment: string, scheme: nat, port: nat) returns (e: PathData?)
      requires Distinct(k) && Held(k, null) && parent.children == Head(k)
      ensures FindExact(k, [segment], scheme, port) == if e == null then None else Some(e)
    {
      ghost var rest, before := k, null;
      e := parent.children;
      while e != null && !SameKey(e, segment, scheme, port)
        invariant Distinct(rest) && Held(rest, before)
        invariant e == Head(rest)
        invariant FindExact(rest, [segment], scheme, port) == FindExact(k, [segment], scheme, port)
        decreases rest
      {
        HeldParts(rest, before);
        rest, before, e := rest.next, e, e.next;
      }
    }

    /** The child with this key, added if it was not there. */
    method EnsureChild(ghost at: seq<string>, scheme: nat, port: nat, segment: string, parent: PathData)
      returns (d: PathData)
      requires Valid() && Leads(at, scheme, port, parent) && '/' !in segment
      modifies this`kids, this`nodes, nodes`next, nodes`prev, nodes`children, nodes`last
      ensures Valid() && old(nodes) <= nodes && fresh(nodes - old(nodes))
      ensures FindsAlso(old(kids), kids, at + [segment], scheme, port, d)
      ensures FindExact(kids, at + [segment], scheme, port) == Some(d) && Leads(at + [segment], scheme, port, d)
    {
      ghost var k := Children(at, scheme, port);
      ParentHolds(at, scheme, port, parent);
      FindBelow(kids, at, [segment], scheme, port);
      var e := FindChild(k, parent, segment, scheme, port);
      if e != null {
        d := e;
      } else {
        NotFoundIsNew(k, segment, scheme, port);
        ghost var was := kids;
        d := AddPathNode(at, scheme, port, segment, parent);
        forall t: seq<string>, s: nat, p: nat
          ensures FindExact(kids, t, s, p)
               == if t == at + [segment] && s == scheme && p == port then Some(d) else FindExact(was, t, s, p)
        {
          InsertFinds(was, at, d, t, s, p);
        }
      }
    }

    /** The leaf of a path, every node on the way to it added where missing. Nothing else can be found anew or lost. */
    method AddPath(path: string, scheme: nat, port: nat) returns (d: PathData)
      requires Valid()
      modifies this`kids, this`nodes, nodes`next, nodes`prev, nodes`children, nodes`last
      ensures Valid() && old(nodes) <= nodes && fresh(nodes - old(nodes))
      ensures FindExact(kids, Segments(path), scheme, port) == Some(d)
      ensures FindsMore(old(kids), kids, Segments(path), scheme, port)
      ensures MatchFirst(kids, Segments(path), scheme, port) == Some(d)
    {
      var segment := if path != [] && path[0] == '/' then path[1..] else path;
      ghost var at := [];
      d := root;
      assert Leads(at, scheme, port, d) && FindsMore(kids, kids, Segments(path), scheme, port);
      assert at + SplitSlashes(segment) == Segments(path);
      hide *;
      while true
        invariant Valid() && Leads(at, scheme, port, d)
        invariant old(nodes) <= nodes && fresh(nodes - old(nodes))
        invariant at + SplitSlashes(segment) == Segments(path)
        invariant FindsMore(old(kids), kids, Segments(path), scheme, port)
        decreases |segment|
      {
        var slash := FirstSlash(segment);
        ghost var was := kids;
        d := EnsureChild(at, scheme, port, segment[..slash], d);
        ghost var later := if slash == |segment| then [] else SplitSlashes(segment[slash + 1..]);
        FirstSegment(segment, slash, later);
        Reassociate(at, segment[..slash], later);
        FindsStep(old(kids), was, kids, at + [segment[..slash]], Segments(path), scheme, port, d);
        at := at + [segment[..slash]];
        assert later == [] ==> at + later == at;
        if slash == |segment| {
          MatchAdded(Segments(path), scheme, port);
          return;
        }
        segment := segment[slash + 1..];
      }
    }

    /** The program's search: every path that is there is found. */
    method MatchPath(path: string, scheme: nat, port: nat) returns (r: PathData?)
      requires Valid() && path != [] && path[0] == '/'
      ensures MatchFirst(kids, Segments(path), scheme, port) == if r == null then None else Some(r)
      ensures FindExact(kids, Segments(path), scheme, port).Some? ==> FindExact(kids, Segments(path), scheme, port) == Some(r)
    {
      HeldParts(Cons(root, kids, Nil), null);
      ghost var rest, before := kids, null;
      var p := root.children;
      var tail := path[1..];
      ghost var segs := Segments(path);
      while p != null
        invariant Distinct(rest) && Held(rest, before)
        invariant p == Head(rest) && segs == SplitSlashes(tail)
        invariant MatchFirst(rest, segs, scheme, port) == MatchFirst(kids, Segments(path), scheme, port)
        decreases rest
      {
        HeldParts(rest, before);
        var slash := FirstSlash(tail);
        if tail[..slash] <= p.segment && p.scheme == scheme && p.port == port {
          if slash == |tail| {
            assert tail[..slash] == tail;
            r := p;
            break;
          }
          rest, before, p := rest.kids, null, p.children;
          tail := tail[slash + 1..];
          segs := segs[1..];
        } else {
          assert tail[..slash] == segs[0] by {
            assert tail[..|tail|] == tail;
          }
          rest, before, p := rest.next, p, p.next;
        }
      }
      if p == null {
        r := null;
      }
      if FindExact(kids, Segments(path), scheme, port).Some? {
        MatchFindsWhatIsThere(kids, Segments(path), scheme, port);
      }
    }
  }
}
