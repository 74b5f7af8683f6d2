/**
 The paths known on a host: a tree of path segments whose siblings are kept in
 order in a doubly linked list.
 */
module PathTree {
  import opened Common

  // The shape of what is linked together is a `Forest`: a node, the forest of its
  // children and the forest of its later siblings.

  class PathData {
    const segment: string
    const scheme: nat
    const port: nat
    const parent: PathData?

    var next: PathData?
    var prev: PathData?
    var children: PathData?
    var last: PathData?

    /** What decides whether a leaf is worth saving. */
    var persistent: bool
    var visits: nat
    var lastVisit: int

    /** The sentinel above the first segments. */
    constructor Root()
      ensures parent == null && next == prev == children == last == null
    {
      segment, scheme, port, parent := "", 0, 0, null;
      next, prev, children, last := null, null, null, null;
      persistent, visits, lastVisit := false, 0, 0;
    }

    constructor (scheme: nat, port: nat, segment: string, parent: PathData)
      ensures this.scheme == scheme && this.port == port && this.segment == segment && this.parent == parent
      ensures next == prev == children == last == null
    {
      this.segment, this.scheme, this.port, this.parent := segment, scheme, port, parent;
      next, prev, children, last := null, null, null, null;
      persistent, visits, lastVisit := false, 0, 0;
    }
  }

  datatype Forest = Nil | Cons(node: PathData, kids: Forest, next: Forest)

  function Head(f: Forest): PathData? {
    if f.Nil? then null else f.node
  }

  function LastNode(f: Forest): (n: PathData?)
    ensures n == null <==> f.Nil?
  {
    if f.Nil? then null else if f.next.Nil? then f.node else LastNode(f.next)
  }

  ghost function Nodes(f: Forest): set<PathData> {
    if f.Nil? then {} else {f.node} + Nodes(f.kids) + Nodes(f.next)
  }

  ghost function Siblings(f: Forest): set<PathData> {
    if f.Nil? then {} else {f.node} + Siblings(f.next)
  }

  // ----- what the pointers of a forest must be -----

  datatype Link = Link(next: PathData?, prev: PathData?, children: PathData?, last: PathData?)

  /** No node appears twice. */
  ghost predicate Distinct(f: Forest) {
    f.Cons? ==>
      && f.node !in Nodes(f.kids) && f.node !in Nodes(f.next) && Nodes(f.kids) !! Nodes(f.next)
      && Distinct(f.kids) && Distinct(f.next)
  }

  /** Every node names the node it is a child of. */
  ghost predicate Parented(f: Forest, parent: PathData) {
    f.Cons? ==> f.node.parent == parent && Parented(f.kids, f.node) && Parented(f.next, parent)
  }

  /** The pointers node `n` must hold, `prev` being the sibling before the first of the forest. */
  ghost function LinkOf(f: Forest, prev: PathData?, n: PathData): Link
    requires n in Nodes(f)
  {
    if n == f.node then Link(Head(f.next), prev, Head(f.kids), LastNode(f.kids))
    else if n in Nodes(f.kids) then LinkOf(f.kids, null, n)
    else LinkOf(f.next, f.node, n)
  }

  /** The heap holds the pointers of the forest. */
  ghost predicate Held(f: Forest, prev: PathData?)
    reads Nodes(f)
  {
    forall n :: n in Nodes(f) ==> Link(n.next, n.prev, n.children, n.last) == LinkOf(f, prev, n)
  }

  /** A forest is held by the heap part by part. */
  lemma HeldParts(f: Forest, prev: PathData?)
    requires f.Cons? && Distinct(f) && Held(f, prev)
    ensures Held(f.next, f.node) && Held(f.kids, null)
    ensures f.node.next == Head(f.next) && f.node.prev == prev
    ensures f.node.children == Head(f.kids) && f.node.last == LastNode(f.kids)
  {
    assert f.node in Nodes(f) && Link(f.node.next, f.node.prev, f.node.children, f.node.last) == LinkOf(f, prev, f.node);
    forall n | n in Nodes(f.next) ensures Link(n.next, n.prev, n.children, n.last) == LinkOf(f.next, f.node, n) {
      assert n in Nodes(f);
    }
    forall n | n in Nodes(f.kids) ensures Link(n.next, n.prev, n.children, n.last) == LinkOf(f.kids, null, n) {
      assert n in Nodes(f);
    }
  }

  // ----- the order of siblings -----

  /** The sign of `strcmp(a, b)`. */
  function StrCmp(a: string, b: string): (r: int)
    ensures -1 <= r <= 1
  {
    if a == [] then (if b == [] then 0 else -1)
    else if b == [] then 1
    else if a[0] < b[0] then -1
    else if a[0] > b[0] then 1
    else StrCmp(a[1..], b[1..])
  }

  lemma {:induction false} StrCmpZero(a: string, b: string)
    ensures StrCmp(a, b) == 0 <==> a == b
  {
    if a != [] && b != [] {
      StrCmpZero(a[1..], b[1..]);
      assert a == [a[0]] + a[1..] && b == [b[0]] + b[1..];
    }
  }

  /** Where two strings part: at the end of the one, or at characters of which its is the lesser. */
  ghost predicate PartsAt(a: string, b: string, k: nat) {
    && k <= |a| && k <= |b| && a[..k] == b[..k]
    && if k == |a| then k < |b| else k < |b| && a[k] < b[k]
  }

  /** One string comes before another exactly if it is the lesser where they part. */
  lemma {:induction false} StrCmpLess(a: string, b: string)
    ensures StrCmp(a, b) < 0 <==> exists k: nat :: PartsAt(a, b, k)
  {
    if a == [] || b == [] || a[0] != b[0] {
      if b != [] && (a == [] || a[0] < b[0]) {
        assert PartsAt(a, b, 0);
      }
      if k: nat :| PartsAt(a, b, k) {
        FirstAlike(a, b, k);
      }
    } else {
      StrCmpLess(a[1..], b[1..]);
      if k: nat :| PartsAt(a, b, k) {
        TailPartsAt(a, b, k);
      }
      if j: nat :| PartsAt(a[1..], b[1..], j) {
        HeadPartsAt(a, b, j);
      }
    }
  }

  lemma FirstAlike(a: string, b: string, k: nat)
    requires PartsAt(a, b, k)
    ensures k > 0 ==> a[0] == b[0]
  {
    if k > 0 {
      assert a[..k][0] == b[..k][0];
    }
  }

  lemma TailPartsAt(a: string, b: string, k: nat)
    requires a != [] && b != [] && a[0] == b[0] && PartsAt(a, b, k)
    ensures k > 0 && PartsAt(a[1..], b[1..], k - 1)
  {
    assert a[1..][..k - 1] == a[..k][1..] && b[1..][..k - 1] == b[..k][1..];
  }

  lemma HeadPartsAt(a: string, b: string, j: nat)
    requires a != [] && b != [] && a[0] == b[0] && PartsAt(a[1..], b[1..], j)
    ensures PartsAt(a, b, j + 1)
  {
    assert a[..j + 1] == [a[0]] + a[1..][..j] && b[..j + 1] == [b[0]] + b[1..][..j];
  }

  lemma {:induction false} StrCmpTransitive(a: string, b: string, c: string)
    requires StrCmp(a, b) <= 0 && StrCmp(b, c) <= 0
    ensures StrCmp(a, c) <= 0
  {
    if a != [] && b != [] && c != [] && a[0] == b[0] == c[0] {
      StrCmpTransitive(a[1..], b[1..], c[1..]);
    }
  }

  lemma {:induction false} StrCmpAntisymmetric(a: string, b: string)
    ensures StrCmp(a, b) == -StrCmp(b, a)
  {
    if a != [] && b != [] {
      StrCmpAntisymmetric(a[1..], b[1..]);
    }
  }

  /** A string sorts no later than any string it begins. */
  lemma {:induction false} PrefixSortsFirst(a: string, b: string)
    requires a <= b
    ensures StrCmp(a, b) <= 0
  {
    if a != [] {
      assert a[1..] <= b[1..];
      PrefixSortsFirst(a[1..], b[1..]);
    }
  }

  predicate SameKey(n: PathData, segment: string, scheme: nat, port: nat) {
    n.segment == segment && n.scheme == scheme && n.port == port
  }

  /** Siblings are in segment order, and no two agree in segment, scheme and port; at every level. */
  ghost predicate Ordered(f: Forest) {
    f.Cons? ==>
      && (forall m :: m in Siblings(f.next) ==>
            StrCmp(f.node.segment, m.segment) <= 0 && !SameKey(m, f.node.segment, f.node.scheme, f.node.port))
      && Ordered(f.kids) && Ordered(f.next)
  }

  // ----- looking a path up, exactly -----

  /** The node reached by matching segment, scheme and port exactly at each level. */
  ghost function FindExact(f: Forest, segs: seq<string>, scheme: nat, port: nat): Option<PathData>
    decreases f
  {
    if f.Nil? || segs == [] then None
    else if SameKey(f.node, segs[0], scheme, port) then
      if |segs| == 1 then Some(f.node) else FindExact(f.kids, segs[1..], scheme, port)
    else FindExact(f.next, segs, scheme, port)
  }

  // ----- strings and segments -----

  function SplitSlashes(s: string): (segs: seq<string>)
    ensures segs != []
    decreases |s|
  {
    var d := FirstSlash(s);
    if d == |s| then [s] else [s[..d]] + SplitSlashes(s[d + 1..])
  }

  /** The segments of an absolute path. */
  function Segments(path: string): (segs: seq<string>)
    ensures segs != []
  {
    SplitSlashes(if path != [] && path[0] == '/' then path[1..] else path)
  }

  // ----- adding a node among its siblings -----

  /** The list of siblings with a childless `d` in its place. */
  ghost function InsertSibling(f: Forest, d: PathData): (r: Forest)
    ensures r.Cons?
  {
    if f.Nil? || StrCmp(f.node.segment, d.segment) > 0 then Cons(d, Nil, f)
    else f.(next := InsertSibling(f.next, d))
  }

  /** The first sibling that sorts after a segment, and the one before it. */
  ghost function After(f: Forest, segment: string): PathData? {
    if f.Nil? || StrCmp(f.node.segment, segment) > 0 then Head(f) else After(f.next, segment)
  }

  ghost function Before(f: Forest, segment: string, prev: PathData?): PathData? {
    if f.Nil? || StrCmp(f.node.segment, segment) > 0 then prev else Before(f.next, segment, f.node)
  }

  lemma {:induction false} NeighboursAreSiblings(f: Forest, segment: string, prev: PathData?)
    ensures After(f, segment) != null ==> After(f, segment) in Siblings(f)
    ensures Before(f, segment, prev) == prev || Before(f, segment, prev) in Siblings(f)
  {
    hide StrCmp;
    if f.Cons? {
      NeighboursAreSiblings(f.next, segment, f.node);
    }
  }

  lemma {:induction false} SiblingsAreNodes(f: Forest)
    ensures Siblings(f) <= Nodes(f)
  {
    if f.Cons? {
      SiblingsAreNodes(f.next);
    }
  }

  lemma {:induction false} InsertSiblingNodes(f: Forest, d: PathData)
    ensures Nodes(InsertSibling(f, d)) == Nodes(f) + {d}
    ensures Siblings(InsertSibling(f, d)) == Siblings(f) + {d}
  {
    hide StrCmp;
    if f.Cons? {
      InsertSiblingNodes(f.next, d);
    }
  }

  /** What becomes of the pointers of `n` when `d` goes between `b` and `a` under `p`. */
  ghost function Spliced(l: Link, n: PathData, d: PathData, b: PathData?, a: PathData?, p: PathData?): Link {
    Link(if n == b then d else l.next,
         if n == a then d else l.prev,
         if n == p && b == null then d else l.children,
         if n == p && a == null then d else l.last)
  }

  /** The new list begins with the new node exactly when nothing precedes it, and ends with it exactly when nothing follows. */
  lemma {:induction false} EndsOfInsertion(f: Forest, d: PathData, prev: PathData?)
    requires Distinct(f) && prev !in Nodes(f)
    ensures Head(InsertSibling(f, d)) == if Before(f, d.segment, prev) == prev then d else Head(f)
    ensures LastNode(InsertSibling(f, d)) == if After(f, d.segment) == null then d else LastNode(f)
  {
    hide StrCmp;
    if f.Cons? && StrCmp(f.node.segment, d.segment) <= 0 {
      SiblingsAreNodes(f.next);
      NeighboursAreSiblings(f.next, d.segment, f.node);
      EndsOfInsertion(f.next, d, f.node);
    }
  }

  lemma {:induction false} NewNodeLink(f: Forest, d: PathData, prev: PathData?)
    requires Distinct(f) && d !in Nodes(f)
    ensures d in Nodes(InsertSibling(f, d))
    ensures LinkOf(InsertSibling(f, d), prev, d) == Link(After(f, d.segment), Before(f, d.segment, prev), null, null)
  {
    InsertSiblingNodes(f, d);
    hide StrCmp;
    if f.Cons? && StrCmp(f.node.segment, d.segment) <= 0 {
      InsertSiblingNodes(f.next, d);
      NewNodeLink(f.next, d, f.node);
    }
  }

  /** Among its siblings, the new node is spliced between its neighbours and nothing else changes. */
  lemma {:induction false} SiblingLink(f: Forest, d: PathData, prev: PathData?, n: PathData)
    requires Distinct(f) && d !in Nodes(f) && prev !in Nodes(f) && n in Nodes(f)
    ensures n in Nodes(InsertSibling(f, d))
    ensures LinkOf(InsertSibling(f, d), prev, n)
         == Spliced(LinkOf(f, prev, n), n, d, Before(f, d.segment, prev), After(f, d.segment), null)
  {
    InsertSiblingNodes(f, d);
    hide StrCmp;
    if StrCmp(f.node.segment, d.segment) <= 0 {
      InsertSiblingNodes(f.next, d);
      SiblingsAreNodes(f.next);
      NeighboursAreSiblings(f.next, d.segment, f.node);
      EndsOfInsertion(f.next, d, f.node);
      if n in Nodes(f.next) {
        SiblingLink(f.next, d, f.node, n);
      }
    }
  }

  // ----- adding a node anywhere in the tree -----

  /** The children of the node reached along `at`; the forest itself for the empty path. */
  ghost function KidsAt(f: Forest, at: seq<string>, scheme: nat, port: nat): Option<Forest>
    decreases f
  {
    if at == [] then Some(f)
    else if f.Nil? then None
    else if SameKey(f.node, at[0], scheme, port) then KidsAt(f.kids, at[1..], scheme, port)
    else KidsAt(f.next, at, scheme, port)
  }

  /** The forest with `d` among the children of the node reached along `at`. */
  ghost function Insert(f: Forest, at: seq<string>, d: PathData): Forest
    decreases f
  {
    if at == [] then InsertSibling(f, d)
    else if f.Nil? then Nil
    else if SameKey(f.node, at[0], d.scheme, d.port) then f.(kids := Insert(f.kids, at[1..], d))
    else f.(next := Insert(f.next, at, d))
  }

  lemma {:induction false} FoundWithKids(f: Forest, at: seq<string>, scheme: nat, port: nat)
    requires at != []
    ensures FindExact(f, at, scheme, port).Some? <==> KidsAt(f, at, scheme, port).Some?
    ensures FindExact(f, at, scheme, port).Some? ==> FindExact(f, at, scheme, port).value in Nodes(f)
    ensures KidsAt(f, at, scheme, port).Some? ==> Nodes(KidsAt(f, at, scheme, port).value) <= Nodes(f)
    decreases f
  {
    if f.Cons? {
      if SameKey(f.node, at[0], scheme, port) {
        if |at| > 1 {
          FoundWithKids(f.kids, at[1..], scheme, port);
        }
      } else {
        FoundWithKids(f.next, at, scheme, port);
      }
    }
  }

  lemma {:induction false} InsertNodes(f: Forest, at: seq<string>, d: PathData)
    requires KidsAt(f, at, d.scheme, d.port).Some?
    ensures Nodes(Insert(f, at, d)) == Nodes(f) + {d}
    ensures at != [] ==> Head(Insert(f, at, d)) == Head(f) && LastNode(Insert(f, at, d)) == LastNode(f)
    ensures at != [] ==> Siblings(Insert(f, at, d)) == Siblings(f)
    decreases f
  {
    if at == [] {
      InsertSiblingNodes(f, d);
    } else if SameKey(f.node, at[0], d.scheme, d.port) {
      InsertNodes(f.kids, at[1..], d);
    } else {
      InsertNodes(f.next, at, d);
    }
  }

  /** A node's pointers when a child is added to the head of the forest. */
  lemma ChildLink(f: Forest, prev: PathData?, d: PathData, n: PathData)
    requires f.Cons? && Distinct(f) && d !in Nodes(f) && prev !in Nodes(f) && n in Nodes(f) + {d}
    ensures n in Nodes(f.(kids := InsertSibling(f.kids, d)))
    ensures LinkOf(f.(kids := InsertSibling(f.kids, d)), prev, n)
         == var b, a := Before(f.kids, d.segment, null), After(f.kids, d.segment);
            if n == d then Link(a, b, null, null) else Spliced(LinkOf(f, prev, n), n, d, b, a, f.node)
  {
    InsertSiblingNodes(f.kids, d);
    NeighboursAreSiblings(f.kids, d.segment, null);
    SiblingsAreNodes(f.kids);
    EndsOfInsertion(f.kids, d, null);
    NewNodeLink(f.kids, d, null);
    hide StrCmp;
    hide Before;
    hide After;
    if n in Nodes(f.kids) {
      SiblingLink(f.kids, d, null, n);
    }
  }

  /** Anywhere in the tree: the pointers of the new node, of its neighbours and of its parent, and no others. */
  lemma {:induction false} InsertLink(f: Forest, prev: PathData?, at: seq<string>, d: PathData, n: PathData)
    requires Distinct(f) && d !in Nodes(f) && prev !in Nodes(f) && n in Nodes(f) + {d}
    requires at != [] && FindExact(f, at, d.scheme, d.port).Some?
    ensures KidsAt(f, at, d.scheme, d.port).Some?
    ensures n in Nodes(Insert(f, at, d))
    ensures LinkOf(Insert(f, at, d), prev, n)
         == var k, p := KidsAt(f, at, d.scheme, d.port).value, FindExact(f, at, d.scheme, d.port).value;
            var b, a := Before(k, d.segment, null), After(k, d.segment);
            if n == d then Link(a, b, null, null) else Spliced(LinkOf(f, prev, n), n, d, b, a, p)
    decreases f
  {
    FoundWithKids(f, at, d.scheme, d.port);
    InsertNodes(f, at, d);
    var k := KidsAt(f, at, d.scheme, d.port).value;
    NeighboursAreSiblings(k, d.segment, null);
    SiblingsAreNodes(k);
    hide StrCmp;
    hide Before;
    hide After;
    hide InsertSibling;
    if SameKey(f.node, at[0], d.scheme, d.port) {
      InsertNodes(f.kids, at[1..], d);
      if |at| == 1 {
        ChildLink(f, prev, d, n);
      } else {
        FoundWithKids(f.kids, at[1..], d.scheme, d.port);
        if n in Nodes(f.kids) + {d} {
          InsertLink(f.kids, null, at[1..], d, n);
        }
      }
    } else {
      InsertNodes(f.next, at, d);
      FoundWithKids(f.next, at, d.scheme, d.port);
      if n in Nodes(f.next) + {d} {
        InsertLink(f.next, f.node, at, d, n);
      }
    }
  }

  // ----- what adding keeps -----

  /** No sibling has the key of `d`. */
  ghost predicate NewKey(f: Forest, d: PathData) {
    forall m :: m in Siblings(f) ==> !SameKey(m, d.segment, d.scheme, d.port)
  }

  lemma {:induction false} InsertSiblingKeepsShape(f: Forest, d: PathData, parent: PathData)
    requires Distinct(f) && Parented(f, parent) && Ordered(f) && d !in Nodes(f) && d.parent == parent && NewKey(f, d)
    ensures Distinct(InsertSibling(f, d)) && Parented(InsertSibling(f, d), parent) && Ordered(InsertSibling(f, d))
  {
    StrCmpOrder(f, d);
    hide StrCmp;
    if f.Cons? && StrCmp(f.node.segment, d.segment) <= 0 {
      InsertSiblingNodes(f.next, d);
      InsertSiblingKeepsShape(f.next, d, parent);
    }
  }

  /** Where the new node goes, it precedes everything after it. */
  lemma StrCmpOrder(f: Forest, d: PathData)
    requires Ordered(f)
    ensures f.Cons? && StrCmp(f.node.segment, d.segment) > 0 ==>
              forall m :: m in Siblings(f) ==> StrCmp(d.segment, m.segment) <= 0
  {
    if f.Cons? && StrCmp(f.node.segment, d.segment) > 0 {
      StrCmpAntisymmetric(f.node.segment, d.segment);
      forall m | m in Siblings(f) ensures StrCmp(d.segment, m.segment) <= 0 {
        if m != f.node {
          StrCmpTransitive(d.segment, f.node.segment, m.segment);
        }
      }
    }
  }

  lemma {:induction false} InsertKeepsShape(f: Forest, at: seq<string>, d: PathData, parent: PathData)
    requires Distinct(f) && Parented(f, parent) && Ordered(f) && d !in Nodes(f)
    requires KidsAt(f, at, d.scheme, d.port).Some? && NewKey(KidsAt(f, at, d.scheme, d.port).value, d)
    requires FindExact(f, at, d.scheme, d.port) == if at == [] then None else Some(d.parent)
    requires at == [] ==> d.parent == parent
    ensures Distinct(Insert(f, at, d)) && Parented(Insert(f, at, d), parent) && Ordered(Insert(f, at, d))
    decreases f
  {
    hide StrCmp;
    InsertNodes(f, at, d);
    if at == [] {
      InsertSiblingKeepsShape(f, d, parent);
    } else if SameKey(f.node, at[0], d.scheme, d.port) {
      InsertNodes(f.kids, at[1..], d);
      InsertKeepsShape(f.kids, at[1..], d, f.node);
    } else {
      InsertNodes(f.next, at, d);
      InsertKeepsShape(f.next, at, d, parent);
    }
  }

  /** The new node is found along its own path, and everything else exactly where it was. */
  lemma {:induction false} InsertFinds(f: Forest, at: seq<string>, d: PathData, t: seq<string>, scheme: nat, port: nat)
    requires KidsAt(f, at, d.scheme, d.port).Some? && NewKey(KidsAt(f, at, d.scheme, d.port).value, d)
    ensures FindExact(Insert(f, at, d), t, scheme, port)
         == if t == at + [d.segment] && scheme == d.scheme && port == d.port then Some(d) else FindExact(f, t, scheme, port)
    decreases f
  {
    hide StrCmp;
    if at == [] {
      SiblingFinds(f, d, t, scheme, port);
    } else if t == [] {
    } else if SameKey(f.node, at[0], d.scheme, d.port) {
      InsertFinds(f.kids, at[1..], d, t[1..], scheme, port);
      assert at + [d.segment] == [at[0]] + (at[1..] + [d.segment]);
      assert t == [t[0]] + t[1..];
    } else {
      InsertFinds(f.next, at, d, t, scheme, port);
    }
  }

  lemma {:induction false} SiblingFinds(f: Forest, d: PathData, t: seq<string>, scheme: nat, port: nat)
    requires NewKey(f, d)
    ensures FindExact(InsertSibling(f, d), t, scheme, port)
         == if t == [d.segment] && scheme == d.scheme && port == d.port then Some(d) else FindExact(f, t, scheme, port)
  {
    hide StrCmp;
    if t != [] && SameKey(d, t[0], scheme, port) {
      UnknownKey(f, d, t);
    }
    if f.Cons? && StrCmp(f.node.segment, d.segment) <= 0 {
      SiblingFinds(f.next, d, t, scheme, port);
    }
  }

  lemma {:induction false} UnknownKey(f: Forest, d: PathData, t: seq<string>)
    requires NewKey(f, d) && t != [] && t[0] == d.segment
    ensures FindExact(f, t, d.scheme, d.port) == None
  {
    if f.Cons? {
      UnknownKey(f.next, d, t);
    }
  }
}
