/**
 The history of a window: a tree of the pages visited, each entry leading back to
 the page it was reached from and forward to those reached from it.
 */
module HistoryTree {

  datatype Page = Page(url: int, title: string, fragment: int)

  class Entry {
    var page: Page
    var back: Entry?
    var next: Entry?
    var forward: Entry?
    var forwardPref: Entry?
    var forwardLast: Entry?
    var children: nat
    var x: int
    var y: int

    constructor (page: Page)
      ensures this.page == page && back == next == forward == forwardPref == forwardLast == null
      ensures children == 0 && x == 0 && y == 0
    {
      this.page := page;
      back, next, forward, forwardPref, forwardLast := null, null, null, null, null;
      children, x, y := 0, 0, 0;
    }
  }

  /** The shape of what is linked together: an entry and, in order, the trees of those reached from it. */
  datatype Tree = Tree(entry: Entry, kids: seq<Tree>)

  ghost function Entries(t: Tree): (s: set<Entry>)
    ensures t.entry in s && Below(t) <= s
    decreases t, |t.kids| + 1
  {
    {t.entry} + Below(t)
  }

  ghost function Below(t: Tree): (s: set<Entry>)
    ensures forall i :: 0 <= i < |t.kids| ==> Entries(t.kids[i]) <= s
    decreases t, |t.kids|, 1
  {
    UpTo(t, |t.kids|)
  }

  ghost function UpTo(t: Tree, n: nat): (s: set<Entry>)
    requires n <= |t.kids|
    ensures forall i :: 0 <= i < n ==> Entries(t.kids[i]) <= s
    decreases t, n, 0
  {
    if n == 0 then {} else UpTo(t, n - 1) + Entries(t.kids[n - 1])
  }

  ghost predicate Distinct(t: Tree) {
    && t.entry !in Below(t)
    && (forall i :: 0 <= i < |t.kids| ==> Distinct(t.kids[i]))
    && (forall i, j :: 0 <= i < j < |t.kids| ==> Entries(t.kids[i]) !! Entries(t.kids[j]))
  }

  function EntryAt(kids: seq<Tree>, i: int): Entry? {
    if 0 <= i < |kids| then kids[i].entry else null
  }

  /** What comes after one of the clones: the next of them, or, after the last, what is yet to be cloned. */
  function NextAt(kids: seq<Tree>, us: seq<Tree>, i: nat): Entry? {
    if i + 1 < |us| then us[i + 1].entry else EntryAt(kids, i + 1)
  }

  ghost predicate IsChild(kids: seq<Tree>, e: Entry?) {
    exists i :: 0 <= i < |kids| && kids[i].entry == e
  }

  /** The pointers of the entries are those of the shape; how the topmost is linked to others is not its concern. */
  ghost predicate Linked(t: Tree)
    reads Entries(t)`forward, Entries(t)`forwardLast, Entries(t)`forwardPref, Below(t)`back, Below(t)`next
    decreases t
  {
    && t.entry.forward == EntryAt(t.kids, 0) && t.entry.forwardLast == EntryAt(t.kids, |t.kids| - 1)
    && (t.entry.forwardPref == null || IsChild(t.kids, t.entry.forwardPref))
    && (forall i :: 0 <= i < |t.kids| ==>
          var e := t.kids[i].entry;
          e in Below(t) && e.back == t.entry && e.next == NextAt(t.kids, t.kids, i))
    && forall i :: 0 <= i < |t.kids| ==> Linked(t.kids[i])
  }

  /** Two trees of the same pages, the preferred way forward from each the same. */
  ghost predicate SameShape(t: Tree, u: Tree)
    reads Entries(t)`page, Entries(u)`page, Entries(t)`forwardPref, Entries(u)`forwardPref
    decreases t
  {
    && u.entry.page == t.entry.page && |u.kids| == |t.kids|
    && (u.entry.forwardPref == null <==> t.entry.forwardPref == null)
    && (forall i :: 0 <= i < |t.kids| ==>
          (u.entry.forwardPref == u.kids[i].entry <==> t.entry.forwardPref == t.kids[i].entry))
    && (forall i :: 0 <= i < |t.kids| ==> SameShape(t.kids[i], u.kids[i]))
  }

  // ----- the same place in two trees -----

  ghost predicate InTree(t: Tree, path: seq<nat>)
    decreases path
  {
    path == [] || (path[0] < |t.kids| && InTree(t.kids[path[0]], path[1..]))
  }

  ghost function At(t: Tree, path: seq<nat>): Entry
    requires InTree(t, path)
    decreases path
  {
    if path == [] then t.entry else At(t.kids[path[0]], path[1..])
  }

  /** `d` is to `u` what `c` is to `t`: the entry at the same place if it is in the tree, and itself if not. */
  ghost predicate Corresponds(t: Tree, u: Tree, c: Entry?, d: Entry?) {
    if c == null || c !in Entries(t) then d == c
    else exists path :: InTree(t, path) && InTree(u, path) && At(t, path) == c && At(u, path) == d
  }

  lemma CorrespondsBelow(t: Tree, u: Tree, i: nat, c: Entry?, d: Entry?)
    requires i < |t.kids| && i < |u.kids| && c != null && c in Entries(t.kids[i])
    requires Corresponds(t.kids[i], u.kids[i], c, d)
    ensures Corresponds(t, u, c, d)
  {
    var path :| InTree(t.kids[i], path) && InTree(u.kids[i], path) && At(t.kids[i], path) == c && At(u.kids[i], path) == d;
    var longer := [i] + path;
    assert longer[1..] == path;
    assert InTree(t, longer) && InTree(u, longer) && At(t, longer) == c && At(u, longer) == d;
  }

  lemma CorrespondsTop(t: Tree, u: Tree)
    ensures Corresponds(t, u, t.entry, u.entry)
  {
    assert InTree(t, []) && InTree(u, []) && At(t, []) == t.entry && At(u, []) == u.entry;
  }

  // ----- cloning -----

  class History {
    var start: Entry?
    var current: Entry?
    var width: int
    var height: int

    constructor (start: Entry?, current: Entry?, width: int, height: int)
      ensures this.start == start && this.current == current && this.width == width && this.height == height
    {
      this.start, this.current, this.width, this.height := start, current, width, height;
    }
  }

  lemma {:induction false} InOneOf(t: Tree, n: nat, e: Entry) returns (i: nat)
    requires n <= |t.kids| && e in UpTo(t, n)
    ensures i < n && e in Entries(t.kids[i])
  {
    if e in Entries(t.kids[n - 1]) {
      i := n - 1;
    } else {
      i := InOneOf(t, n - 1, e);
    }
  }

  lemma {:induction false} UpToGrows(r: Entry, us: seq<Tree>, v: Tree, n: nat)
    requires n <= |us|
    ensures UpTo(Tree(r, us + [v]), n) == UpTo(Tree(r, us), n)
  {
    if n > 0 {
      UpToGrows(r, us, v, n - 1);
    }
  }

  /** One more tree below an entry. */
  lemma BelowGrows(r: Entry, us: seq<Tree>, v: Tree)
    ensures Below(Tree(r, us + [v])) == Below(Tree(r, us)) + Entries(v)
  {
    UpToGrows(r, us, v, |us|);
  }

  lemma DistinctGrows(r: Entry, us: seq<Tree>, v: Tree)
    requires Distinct(Tree(r, us)) && Distinct(v) && Entries(v) !! Entries(Tree(r, us))
    ensures Distinct(Tree(r, us + [v]))
  {
    BelowGrows(r, us, v);
    var u := Tree(r, us + [v]);
    forall i, j | 0 <= i < j < |u.kids| ensures Entries(u.kids[i]) !! Entries(u.kids[j]) {
      assert Entries(u.kids[i]) <= Below(Tree(r, us));
    }
  }

  /** The clones made so far lead back to the new entry and on to each other; the last still leads on to an original. */
  ghost predicate InARow(kids: seq<Tree>, u: Tree)
    requires |u.kids| <= |kids|
    reads Below(u)`back, Below(u)`next
  {
    forall j :: 0 <= j < |u.kids| ==>
      var e := u.kids[j].entry;
      e in Below(u) && e.back == u.entry && e.next == NextAt(kids, u.kids, j)
  }

  /** Each clone is a tree of its own, the same as the original's. */
  ghost predicate AllCloned(t: Tree, u: Tree)
    requires |u.kids| <= |t.kids|
    reads Below(u)`page, Below(u)`forward, Below(u)`forwardLast, Below(u)`forwardPref, Deep(u)`back, Deep(u)`next
    reads Below(t)`page, Below(t)`forwardPref
  {
    forall j :: 0 <= j < |u.kids| ==> Linked(u.kids[j]) && SameShape(t.kids[j], u.kids[j])
  }

  /** All below an entry but its own children. */
  ghost function Deep(t: Tree): (s: set<Entry>)
    ensures forall i :: 0 <= i < |t.kids| ==> Below(t.kids[i]) <= s
  {
    DeepUpTo(t, |t.kids|)
  }

  ghost function DeepUpTo(t: Tree, n: nat): (s: set<Entry>)
    requires n <= |t.kids|
    ensures forall i :: 0 <= i < n ==> Below(t.kids[i]) <= s
  {
    if n == 0 then {} else DeepUpTo(t, n - 1) + Below(t.kids[n - 1])
  }

  /** What a pointer to a child has become once the first children have been cloned. */
  ghost function Mapped(kids: seq<Tree>, us: seq<Tree>, p: Entry?): Entry?
    requires |us| <= |kids|
  {
    if us == [] then p
    else if kids[|us| - 1].entry == p then us[|us| - 1].entry
    else Mapped(kids, us[..|us| - 1], p)
  }

  lemma {:induction false} MappedAt(t: Tree, us: seq<Tree>, i: nat)
    requires |us| <= |t.kids| && i < |t.kids| && Distinct(t)
    ensures Mapped(t.kids, us, t.kids[i].entry) == if i < |us| then us[i].entry else t.kids[i].entry
    ensures Mapped(t.kids, us, null) == null
  {
    if us != [] {
      MappedAt(t, us[..|us| - 1], i);
      var j := |us| - 1;
      assert i < j ==> Entries(t.kids[i]) !! Entries(t.kids[j]);
      assert j < i ==> Entries(t.kids[j]) !! Entries(t.kids[i]);
    }
  }

  /** Where the current entry has got to: moved to its clone once that has been made. */
  ghost predicate CurrentMoved(t: Tree, u: Tree, c0: Entry?, c: Entry?) {
    if |u.kids| > |t.kids| then false
    else if c0 == null || c0 !in UpTo(t, |u.kids|) then c == c0
    else exists j :: 0 <= j < |u.kids| && c0 in Entries(t.kids[j]) && c != null && c in Entries(u.kids[j])
                     && Corresponds(t.kids[j], u.kids[j], c0, c)
  }

  lemma CurrentAtTheStart(t: Tree, r: Entry, c: Entry?)
    ensures CurrentMoved(t, Tree(r, []), c, c)
  {
  }

  lemma UpToTakesOne(t: Tree, n: nat)
    requires 0 < n <= |t.kids|
    ensures UpTo(t, n) == UpTo(t, n - 1) + Entries(t.kids[n - 1])
  {
  }

  lemma KidIsWithinTree(t: Tree, i: nat)
    requires i < |t.kids|
    ensures Entries(t.kids[i]) <= Entries(t)
  {
  }

  lemma CorrespondsOutside(t: Tree, u: Tree, c: Entry?, d: Entry?)
    requires Corresponds(t, u, c, d) && (c == null || c !in Entries(t))
    ensures d == c
  {
  }

  lemma CurrentMovesOn(t: Tree, u: Tree, v: Tree, c0: Entry?, c: Entry?, d: Entry?)
    requires |u.kids| < |t.kids| && CurrentMoved(t, u, c0, c) && Corresponds(t.kids[|u.kids|], v, c, d)
    requires Entries(u) !! Entries(t) && Distinct(t)
    ensures CurrentMoved(t, Tree(u.entry, u.kids + [v]), c0, d)
  {
    hide Entries;
    hide Below;
    hide Distinct;
    hide Corresponds;
    var i, w := |u.kids|, Tree(u.entry, u.kids + [v]);
    UpToTakesOne(t, i + 1);
    if c0 != null && c0 in UpTo(t, i) {
      var j :| 0 <= j < i && c0 in Entries(t.kids[j]) && c != null && c in Entries(u.kids[j])
               && Corresponds(t.kids[j], u.kids[j], c0, c);
      KidIsWithinTree(u, j);
      KidIsWithinTree(t, i);
      CorrespondsOutside(t.kids[i], v, c, d);
      assert w.kids[j] == u.kids[j];
    } else if c0 != null && c0 in Entries(t.kids[i]) {
      CorrespondsIsIn(t.kids[i], v, c, d);
      assert w.kids[i] == v;
    } else {
      CorrespondsOutside(t.kids[i], v, c, d);
    }
  }

  lemma {:induction false} PathIsIn(t: Tree, path: seq<nat>)
    requires InTree(t, path)
    ensures At(t, path) in Entries(t)
    decreases path
  {
    if path != [] {
      PathIsIn(t.kids[path[0]], path[1..]);
    }
  }

  lemma CorrespondsIsIn(t: Tree, u: Tree, c: Entry?, d: Entry?)
    requires Corresponds(t, u, c, d) && c != null && c in Entries(t)
    ensures d != null && d in Entries(u)
  {
    var path :| InTree(t, path) && InTree(u, path) && At(t, path) == c && At(u, path) == d;
    PathIsIn(u, path);
  }

  lemma CurrentAtTheEnd(t: Tree, u: Tree, c0: Entry?, c: Entry?, d: Entry?)
    requires |u.kids| == |t.kids| && CurrentMoved(t, u, c0, c) && Distinct(t) && Entries(u) !! Entries(t)
    requires d == if c == t.entry then u.entry else c
    ensures Corresponds(t, u, c0, d)
  {
    if c0 != null && c0 in UpTo(t, |t.kids|) {
      var j :| 0 <= j < |u.kids| && c0 in Entries(t.kids[j]) && c != null && c in Entries(u.kids[j])
               && Corresponds(t.kids[j], u.kids[j], c0, c);
      assert c in Entries(u) && t.entry in Entries(t);
      CorrespondsBelow(t, u, j, c0, c);
    } else if c0 == t.entry {
      CorrespondsTop(t, u);
    }
  }

  /** The state of cloning the children of an entry. */
  ghost predicate Cloning(t: Tree, u: Tree, pref: Entry?, last: Entry?)
    reads u.entry`forward, u.entry`forwardPref, u.entry`forwardLast, Below(u)`back, Below(u)`next
    reads Below(u)`page, Below(u)`forward, Below(u)`forwardLast, Below(u)`forwardPref, Deep(u)`back, Deep(u)`next
    reads Below(t)`page, Below(t)`forwardPref
  {
    && |u.kids| <= |t.kids| && Distinct(u) && Entries(u) !! Entries(t)
    && AllCloned(t, u) && InARow(t.kids, u)
    && u.entry.forward == (if u.kids == [] then EntryAt(t.kids, 0) else u.kids[0].entry)
    && u.entry.forwardPref == Mapped(t.kids, u.kids, pref) && u.entry.forwardLast == Mapped(t.kids, u.kids, last)
  }

  /** With all the children cloned, what is below the new entry is linked as what is below the old, and looks the same. */
  lemma ClonedAll(t: Tree, u: Tree)
    requires Cloning(t, u, t.entry.forwardPref, t.entry.forwardLast) && |u.kids| == |t.kids| && Distinct(t) && Linked(t)
    requires u.entry.page == t.entry.page
    ensures Linked(u) && SameShape(t, u)
  {
    hide Entries;
    hide Below;
    hide Deep;
    hide Distinct;
    hide Mapped;
    hide IsChild;
    MappedEnds(t, u);
    PreferredMapped(t, u);
    ClonedIsLinked(t, u);
    hide Linked;
    hide InARow;
    assert SameShape(t, u);
  }

  lemma ClonedIsLinked(t: Tree, u: Tree)
    requires |u.kids| == |t.kids| && InARow(t.kids, u)
    requires forall j :: 0 <= j < |u.kids| ==> Linked(u.kids[j])
    requires u.entry.forward == EntryAt(u.kids, 0) && u.entry.forwardLast == EntryAt(u.kids, |u.kids| - 1)
    requires u.entry.forwardPref == null || IsChild(u.kids, u.entry.forwardPref)
    ensures Linked(u)
  {
    hide Entries;
    hide Below;
    hide IsChild;
    hide NextAt;
    NextAtIsNext(t.kids, u.kids);
  }

  lemma NextAtIsNext(kids: seq<Tree>, us: seq<Tree>)
    requires |us| == |kids|
    ensures forall i :: 0 <= i < |us| ==> NextAt(kids, us, i) == NextAt(us, us, i)
  {
  }

  lemma MappedEnds(t: Tree, u: Tree)
    requires Distinct(t) && |u.kids| == |t.kids|
    ensures Mapped(t.kids, u.kids, EntryAt(t.kids, |t.kids| - 1)) == EntryAt(u.kids, |u.kids| - 1)
  {
    if t.kids != [] {
      MappedAt(t, u.kids, |t.kids| - 1);
    }
  }

  lemma PreferredMapped(t: Tree, u: Tree)
    requires Distinct(t) && Distinct(u) && |u.kids| == |t.kids|
    requires t.entry.forwardPref == null || IsChild(t.kids, t.entry.forwardPref)
    requires u.entry.forwardPref == Mapped(t.kids, u.kids, t.entry.forwardPref)
    ensures u.entry.forwardPref == null || IsChild(u.kids, u.entry.forwardPref)
    ensures u.entry.forwardPref == null <==> t.entry.forwardPref == null
    ensures forall i :: 0 <= i < |t.kids| ==>
              (u.entry.forwardPref == u.kids[i].entry <==> t.entry.forwardPref == t.kids[i].entry)
  {
    if t.entry.forwardPref != null {
      var j :| 0 <= j < |t.kids| && t.kids[j].entry == t.entry.forwardPref;
      MappedAt(t, u.kids, j);
      forall i | 0 <= i < |t.kids| && i != j ensures t.kids[i].entry != t.kids[j].entry && u.kids[i].entry != u.kids[j].entry {
        assert if i < j then Entries(t.kids[i]) !! Entries(t.kids[j]) else Entries(t.kids[j]) !! Entries(t.kids[i]);
        assert if i < j then Entries(u.kids[i]) !! Entries(u.kids[j]) else Entries(u.kids[j]) !! Entries(u.kids[i]);
      }
    } else if t.kids != [] {
      MappedAt(t, u.kids, 0);
    }
  }

  /** Changing a pointer to the child just cloned, and leaving any other, is cloning that child as well. */
  lemma {:induction false} MappedGrows(t: Tree, u: Tree, v: Tree, p: Entry?)
    requires |u.kids| < |t.kids| && Distinct(t) && Entries(u) !! Entries(t)
    ensures Mapped(t.kids, u.kids + [v], p)
         == if Mapped(t.kids, u.kids, p) == t.kids[|u.kids|].entry then v.entry else Mapped(t.kids, u.kids, p)
  {
    var child := t.kids[|u.kids|].entry;
    assert (u.kids + [v])[..|u.kids|] == u.kids;
    if p == child {
      MappedAt(t, u.kids, |u.kids|);
    } else {
      MappedIsOld(t.kids, u, u.kids, p);
      assert child in Entries(t);
    }
  }

  lemma {:induction false} MappedIsOld(kids: seq<Tree>, u: Tree, us: seq<Tree>, p: Entry?)
    requires |us| <= |kids| && us <= u.kids
    ensures Mapped(kids, us, p) == p || (Mapped(kids, us, p) != null && Mapped(kids, us, p) in Entries(u))
  {
    if us != [] {
      MappedIsOld(kids, u, us[..|us| - 1], p);
    }
  }

  lemma GrowsApart(t: Tree, u: Tree, v: Tree)
    requires Distinct(u) && Distinct(v) && Entries(v) !! Entries(u) && Entries(v) !! Entries(t) && Entries(u) !! Entries(t)
    ensures var w := Tree(u.entry, u.kids + [v]); Distinct(w) && Entries(w) !! Entries(t)
    ensures var w := Tree(u.entry, u.kids + [v]); Below(w) == Below(u) + Entries(v) && Entries(w) == Entries(u) + Entries(v)
  {
    BelowGrows(u.entry, u.kids, v);
    DistinctGrows(u.entry, u.kids, v);
  }

  /** The entry itself and the topmost entries of the trees below it lie in none of those trees further down. */
  lemma NotDeep(u: Tree, j: nat)
    requires Distinct(u) && j < |u.kids|
    ensures u.entry !in Entries(u.kids[j]) && u.kids[j].entry in Below(u) && Entries(u.kids[j]) <= Below(u) <= Entries(u)
    ensures forall i :: 0 <= i < |u.kids| ==> u.kids[i].entry !in Below(u.kids[j])
  {
    forall i | 0 <= i < |u.kids| ensures u.kids[i].entry !in Below(u.kids[j]) {
      assert i < j ==> Entries(u.kids[i]) !! Entries(u.kids[j]);
      assert j < i ==> Entries(u.kids[j]) !! Entries(u.kids[i]);
      assert Distinct(u.kids[i]);
    }
  }

  lemma KidsDiffer(u: Tree)
    requires Distinct(u)
    ensures forall i, j :: 0 <= i < j < |u.kids| ==> u.kids[i].entry != u.kids[j].entry
  {
    forall i, j | 0 <= i < j < |u.kids| ensures u.kids[i].entry != u.kids[j].entry {
      assert Entries(u.kids[i]) !! Entries(u.kids[j]);
    }
  }

  lemma {:induction false} NotDeepUpTo(u: Tree, n: nat)
    requires Distinct(u) && n <= |u.kids|
    ensures u.entry !in DeepUpTo(u, n) && forall i :: 0 <= i < |u.kids| ==> u.kids[i].entry !in DeepUpTo(u, n)
    ensures DeepUpTo(u, n) <= Below(u)
  {
    if n > 0 {
      NotDeep(u, n - 1);
      NotDeepUpTo(u, n - 1);
    }
  }

  lemma KidsAreNotDeep(u: Tree)
    requires Distinct(u)
    ensures forall i :: 0 <= i < |u.kids| ==> u.kids[i].entry !in Deep(u)
    ensures Deep(u) <= Below(u) <= Entries(u)
  {
    NotDeepUpTo(u, |u.kids|);
  }

  lemma ClonedOneMore(t: Tree, u: Tree, v: Tree)
    requires |u.kids| < |t.kids| && AllCloned(t, u) && Linked(v) && SameShape(t.kids[|u.kids|], v)
    ensures AllCloned(t, Tree(u.entry, u.kids + [v]))
  {
    hide Linked;
    hide SameShape;
    var w := Tree(u.entry, u.kids + [v]);
    forall j | 0 <= j < |w.kids| ensures Linked(w.kids[j]) && SameShape(t.kids[j], w.kids[j]) {
      assert j < |u.kids| ==> w.kids[j] == u.kids[j];
    }
  }

  /** The clone of the next child, put after the clones made before it. */
  method Append(r: Entry, prev: Entry?, newChild: Entry, ghost t: Tree, ghost u: Tree, ghost v: Tree)
    requires u.entry == r && v.entry == newChild && |u.kids| < |t.kids| && prev == EntryAt(u.kids, |u.kids| - 1)
    requires InARow(t.kids, u) && AllCloned(t, u) && Distinct(Tree(r, u.kids + [v]))
    requires Linked(v) && SameShape(t.kids[|u.kids|], v) && newChild.next == EntryAt(t.kids, |u.kids| + 1)
    modifies newChild`back, (if prev == null then {} else {prev})`next
    ensures InARow(t.kids, Tree(r, u.kids + [v])) && AllCloned(t, Tree(r, u.kids + [v]))
  {
    hide Entries;
    hide Below;
    hide Distinct;
    hide Deep;
    hide AllCloned;
    hide Linked;
    hide SameShape;
    ghost var w := Tree(r, u.kids + [v]);
    ClonedOneMore(t, u, v);
    KidsAreNotDeep(w);
    assert newChild == w.kids[|u.kids|].entry && (prev != null ==> prev == w.kids[|u.kids| - 1].entry);
    BelowGrows(r, u.kids, v);
    KidsDiffer(w);
    newChild.back := r;
    if prev != null {
      prev.next := newChild;
    }
  }

  lemma OutOfTheRest(t: Tree, u: Tree, w: Tree)
    requires |u.kids| < |t.kids| && Entries(u) !! Entries(t) && Distinct(w) && w.entry == u.entry
    ensures u.entry !in Below(w) && u.entry !in Deep(w) && u.entry !in Below(t)
    ensures u.kids != [] ==> u.kids[0].entry != t.kids[|u.kids|].entry
  {
    NotDeepUpTo(w, |w.kids|);
    assert t.kids[|u.kids|].entry in Entries(t) && (u.kids != [] ==> u.kids[0].entry in Entries(u));
  }

  /** The new entry's pointers to the child just cloned, moved to the clone. */
  method Repoint(r: Entry, child: Entry, newChild: Entry, ghost t: Tree, ghost u: Tree, ghost v: Tree,
                 ghost pref: Entry?, ghost last: Entry?)
    requires u.entry == r && v.entry == newChild && |u.kids| < |t.kids| && child == t.kids[|u.kids|].entry
    requires Distinct(t) && Entries(u) !! Entries(t)
    requires r.forward == (if u.kids == [] then EntryAt(t.kids, 0) else u.kids[0].entry)
    requires r.forwardPref == Mapped(t.kids, u.kids, pref) && r.forwardLast == Mapped(t.kids, u.kids, last)
    requires InARow(t.kids, Tree(r, u.kids + [v])) && AllCloned(t, Tree(r, u.kids + [v])) && Distinct(Tree(r, u.kids + [v]))
    modifies r`forward, r`forwardPref, r`forwardLast
    ensures InARow(t.kids, Tree(r, u.kids + [v])) && AllCloned(t, Tree(r, u.kids + [v]))
    ensures r.forward == (u.kids + [v])[0].entry
    ensures r.forwardPref == Mapped(t.kids, u.kids + [v], pref) && r.forwardLast == Mapped(t.kids, u.kids + [v], last)
  {
    hide Below;
    hide Deep;
    hide Entries;
    hide AllCloned;
    hide InARow;
    hide Distinct;
    hide Mapped;
    OutOfTheRest(t, u, Tree(r, u.kids + [v]));
    MappedGrows(t, u, v, pref);
    MappedGrows(t, u, v, last);
    if r.forward == child {
      r.forward := newChild;
    }
    if r.forwardPref == child {
      r.forwardPref := newChild;
    }
    if r.forwardLast == child {
      r.forwardLast := newChild;
    }
  }

  /** What one turn of cloning's loop relinks once a child has been cloned. */
  method Attach(r: Entry, prev: Entry?, child: Entry, newChild: Entry, ghost t: Tree, ghost u: Tree, ghost v: Tree,
                ghost pref: Entry?, ghost last: Entry?)
    requires u.entry == r && v.entry == newChild && |u.kids| < |t.kids| && child == t.kids[|u.kids|].entry
    requires prev == EntryAt(u.kids, |u.kids| - 1)
    requires Cloning(t, u, pref, last) && Distinct(t) && Distinct(v) && Entries(v) !! Entries(u) && Entries(v) !! Entries(t)
    requires Linked(v) && SameShape(t.kids[|u.kids|], v) && newChild.next == EntryAt(t.kids, |u.kids| + 1)
    modifies r`forward, r`forwardPref, r`forwardLast, newChild`back, (if prev == null then {} else {prev})`next
    ensures Cloning(t, Tree(r, u.kids + [v]), pref, last)
  {
    hide Entries;
    hide Below;
    hide Deep;
    hide Distinct;
    hide Mapped;
    hide Linked;
    hide SameShape;
    hide InARow;
    hide AllCloned;
    GrowsApart(t, u, v);
    Append(r, prev, newChild, t, u, v);
    Repoint(r, child, newChild, t, u, v, pref, last);
  }

  /** What holds each time the loop over the children comes round. */
  ghost predicate Halfway(entry: Entry, r: Entry, child: Entry?, prev: Entry?, t: Tree, u: Tree)
    reads entry, r, Below(u)`back, Below(u)`next
    reads Below(u)`page, Below(u)`forward, Below(u)`forwardLast, Below(u)`forwardPref, Deep(u)`back, Deep(u)`next
    reads Below(t)`page, Below(t)`forwardPref
  {
    && r.page == entry.page && r.back == entry.back && r.next == entry.next
    && u.entry == r && child == EntryAt(t.kids, |u.kids|) && prev == EntryAt(u.kids, |u.kids| - 1)
    && Cloning(t, u, entry.forwardPref, entry.forwardLast)
  }

  lemma StartsHalfway(entry: Entry, r: Entry, t: Tree)
    requires t.entry == entry && r !in Entries(t) && Linked(t)
    requires r.page == entry.page && r.back == entry.back && r.next == entry.next
    requires r.forward == entry.forward && r.forwardPref == entry.forwardPref && r.forwardLast == entry.forwardLast
    ensures Halfway(entry, r, r.forward, null, t, Tree(r, [])) && Entries(Tree(r, [])) == {r}
  {
    hide SameShape;
    var u := Tree(r, []);
    assert UpTo(u, 0) == {} && |u.kids| == 0;
  }

  lemma ChildIsATree(t: Tree, i: nat)
    requires Distinct(t) && Linked(t) && i < |t.kids|
    ensures Distinct(t.kids[i]) && Linked(t.kids[i]) && Entries(t.kids[i]) <= Entries(t)
    ensures t.kids[i].entry.next == EntryAt(t.kids, i + 1)
  {
  }

  /** The clone of the next child is set in its place. */
  method CloneChild(h: History, entry: Entry, r: Entry, child: Entry, prev: Entry?, ghost t: Tree, ghost u: Tree,
                    ghost es: set<Entry>, ghost made: set<Entry>)
      returns (newChild: Entry, ghost v: Tree)
    requires t.entry == entry && Entries(t) <= es && Distinct(t) && Linked(t)
    requires Halfway(entry, r, child, prev, t, u) && Entries(u) == made && made !! es
    modifies h`current, r`forward, r`forwardPref, r`forwardLast, (if prev == null then {} else {prev})`next
    ensures fresh(Entries(v)) && Linked(t) && Halfway(entry, r, child.next, newChild, t, Tree(r, u.kids + [v]))
    ensures Entries(Tree(r, u.kids + [v])) == made + Entries(v)
    ensures |u.kids| < |t.kids| && Corresponds(t.kids[|u.kids|], v, old(h.current), h.current)
    decreases t, 0
  {
    hide Entries;
    hide Below;
    hide Deep;
    hide Distinct;
    hide SameShape;
    hide InARow;
    hide AllCloned;
    hide Linked;
    hide Mapped;
    hide Corresponds;
    ChildIsATree(t, |u.kids|);
    KidsAreNotDeep(u);
    newChild, v := CloneEntry(h, child, t.kids[|u.kids|], es);
    GrowsApart(t, u, v);
    Attach(r, prev, child, newChild, t, u, v, entry.forwardPref, entry.forwardLast);
  }

  method CloneEntry(h: History, entry: Entry, ghost t: Tree, ghost es: set<Entry>) returns (r: Entry, ghost u: Tree)
    requires t.entry == entry && Entries(t) <= es && Distinct(t) && Linked(t)
    modifies h`current
    ensures u.entry == r && fresh(Entries(u))
    ensures Distinct(u) && Linked(u) && SameShape(t, u) && r.back == entry.back && r.next == entry.next
    ensures Corresponds(t, u, old(h.current), h.current)
    decreases t, 1
  {
    hide Entries;
    hide Below;
    hide Deep;
    hide Distinct;
    hide SameShape;
    hide InARow;
    hide AllCloned;
    hide Linked;
    hide CurrentMoved;
    hide Mapped;
    hide Corresponds;
    r := new Entry(entry.page);
    r.back, r.next := entry.back, entry.next;
    r.forward, r.forwardPref, r.forwardLast := entry.forward, entry.forwardPref, entry.forwardLast;
    var child := r.forward;
    var prev: Entry? := null;
    u := Tree(r, []);
    StartsHalfway(entry, r, t);
    CurrentAtTheStart(t, r, h.current);
    while child != null
      invariant Linked(t)
      invariant fresh(Entries(u)) && Halfway(entry, r, child, prev, t, u)
      invariant CurrentMoved(t, u, old(h.current), h.current)
      decreases |t.kids| - |u.kids|
    {
      ghost var v;
      ghost var c := h.current;
      prev, v := CloneChild(h, entry, r, child, prev, t, u, es, Entries(u));
      CurrentMovesOn(t, u, v, old(h.current), c, h.current);
      child := child.next;
      u := Tree(r, u.kids + [v]);
    }
    ClonedAll(t, u);
    ghost var c := h.current;
    if h.current == entry {
      h.current := r;
    }
    CurrentAtTheEnd(t, u, old(h.current), c, h.current);
  }

  /** A window's history is given to a clone of the window: a history of its own, over entries of its own. */
  method Clone(existing: History, rightMargin: nat, bottomMargin: nat, ghost t: Tree, ghost es: set<Entry>) returns (copy: History, ghost u: Tree)
    requires existing.start != null ==> t.entry == existing.start && Distinct(t) && Linked(t) && Entries(t) <= es
    ensures fresh(copy)
    ensures existing.start != null ==> copy.width == existing.width && copy.height == existing.height
    ensures existing.start == null ==> copy.width == rightMargin / 2 && copy.height == bottomMargin / 2
    ensures existing.start == null ==> copy.start == null && copy.current == null
    ensures existing.start != null ==>
              && copy.start == u.entry && fresh(Entries(u)) && Distinct(u) && Linked(u) && SameShape(t, u)
              && copy.start.back == existing.start.back && copy.start.next == existing.start.next
              && Corresponds(t, u, existing.current, copy.current)
  {
    hide Entries;
    hide Below;
    hide Distinct;
    hide Linked;
    hide SameShape;
    hide Corresponds;
    u := t;
    if existing.start == null {
      copy := new History(null, null, rightMargin / 2, bottomMargin / 2);
    } else {
      copy := new History(existing.start, existing.current, existing.width, existing.height);
      var r;
      r, u := CloneEntry(copy, existing.start, t, es);
      label cloned:
      copy.start := r;
    }
  }

  // ----- what it is for two trees to look the same -----

  lemma CorrespondsUnder(t: Tree, u: Tree, i: nat, c: Entry?, d: Entry?)
    requires i < |t.kids| && i < |u.kids|
    requires c == null || c in Entries(t.kids[i])
    requires Corresponds(t.kids[i], u.kids[i], c, d)
    ensures Corresponds(t, u, c, d)
  {
    if c != null {
      CorrespondsBelow(t, u, i, c, d);
    }
  }

  lemma CorrespondsToKid(t: Tree, u: Tree, i: int)
    requires |t.kids| == |u.kids|
    ensures Corresponds(t, u, EntryAt(t.kids, i), EntryAt(u.kids, i))
  {
    if 0 <= i < |t.kids| {
      CorrespondsTop(t.kids[i], u.kids[i]);
      CorrespondsBelow(t, u, i, t.kids[i].entry, u.kids[i].entry);
    }
  }

  ghost predicate MirrorsForward(t: Tree, u: Tree, e: Entry, d: Entry)
    reads e, d
  {
    && d.page == e.page && Corresponds(t, u, e.forward, d.forward) && Corresponds(t, u, e.forwardPref, d.forwardPref)
    && Corresponds(t, u, e.forwardLast, d.forwardLast)
  }

  ghost predicate MirrorsBack(t: Tree, u: Tree, e: Entry, d: Entry)
    reads e, d
  {
    Corresponds(t, u, e.back, d.back) && Corresponds(t, u, e.next, d.next)
  }

  lemma NothingCorresponds(t: Tree, u: Tree)
    ensures Corresponds(t, u, null, null)
  {
  }

  lemma TopMirrors(t: Tree, u: Tree)
    requires Linked(t) && Linked(u) && SameShape(t, u)
    ensures MirrorsForward(t, u, t.entry, u.entry)
  {
    hide Entries;
    hide Below;
    hide Corresponds;
    CorrespondsToKid(t, u, 0);
    CorrespondsToKid(t, u, |t.kids| - 1);
    if t.entry.forwardPref != null {
      var j :| 0 <= j < |t.kids| && t.kids[j].entry == t.entry.forwardPref;
      CorrespondsToKid(t, u, j);
    } else {
      NothingCorresponds(t, u);
    }
  }

  ghost predicate Within(t: Tree, p: Entry?) {
    p == null || p in Entries(t)
  }

  lemma KidIsWithin(t: Tree, i: int)
    ensures Within(t, EntryAt(t.kids, i)) && forall e :: IsChild(t.kids, e) ==> Within(t, e)
  {
  }

  /** No pointer of an entry leads out of the tree, those of the topmost back and aside apart. */
  lemma {:induction false} LinksStayWithin(t: Tree, path: seq<nat>)
    requires Linked(t) && InTree(t, path)
    ensures var e := At(t, path);
      && Within(t, e.forward) && Within(t, e.forwardPref) && Within(t, e.forwardLast)
      && (path != [] ==> Within(t, e.back) && Within(t, e.next))
    decreases path
  {
    hide Entries;
    hide Below;
    if path == [] {
      KidIsWithin(t, 0);
      KidIsWithin(t, |t.kids| - 1);
    } else {
      var i := path[0];
      LinksStayWithin(t.kids[i], path[1..]);
      KidIsWithin(t, i + 1);
      assert Entries(t.kids[i]) <= Below(t) <= Entries(t) && t.entry in Entries(t);
    }
  }

  lemma KidsAlike(t: Tree, u: Tree, i: nat)
    requires Linked(t) && Linked(u) && SameShape(t, u) && i < |t.kids|
    ensures i < |u.kids| && Linked(t.kids[i]) && Linked(u.kids[i]) && SameShape(t.kids[i], u.kids[i])
  {
  }

  lemma ForwardFromUnder(t: Tree, u: Tree, i: nat, e: Entry, d: Entry)
    requires i < |t.kids| && i < |u.kids| && MirrorsForward(t.kids[i], u.kids[i], e, d)
    requires Within(t.kids[i], e.forward) && Within(t.kids[i], e.forwardPref) && Within(t.kids[i], e.forwardLast)
    ensures MirrorsForward(t, u, e, d)
  {
    hide Corresponds;
    hide Entries;
    CorrespondsUnder(t, u, i, e.forward, d.forward);
    CorrespondsUnder(t, u, i, e.forwardPref, d.forwardPref);
    CorrespondsUnder(t, u, i, e.forwardLast, d.forwardLast);
  }

  lemma BackFromUnder(t: Tree, u: Tree, i: nat, e: Entry, d: Entry)
    requires i < |t.kids| && i < |u.kids| && MirrorsBack(t.kids[i], u.kids[i], e, d)
    requires Within(t.kids[i], e.back) && Within(t.kids[i], e.next)
    ensures MirrorsBack(t, u, e, d)
  {
    hide Corresponds;
    hide Entries;
    CorrespondsUnder(t, u, i, e.back, d.back);
    CorrespondsUnder(t, u, i, e.next, d.next);
  }

  lemma KidMirrorsBack(t: Tree, u: Tree, i: nat)
    requires Linked(t) && Linked(u) && SameShape(t, u) && i < |t.kids| && i < |u.kids|
    ensures MirrorsBack(t, u, t.kids[i].entry, u.kids[i].entry)
  {
    hide Corresponds;
    hide Entries;
    hide Below;
    CorrespondsTop(t, u);
    CorrespondsToKid(t, u, i + 1);
  }

  /** Place by place, a tree that looks the same holds the same pages and leads to the same places. */
  lemma {:induction false} EveryPlaceMirrors(t: Tree, u: Tree, path: seq<nat>)
    requires Linked(t) && Linked(u) && SameShape(t, u) && InTree(t, path)
    ensures InTree(u, path) && MirrorsForward(t, u, At(t, path), At(u, path))
    ensures path != [] ==> MirrorsBack(t, u, At(t, path), At(u, path))
    decreases path
  {
    hide Linked;
    hide SameShape;
    hide MirrorsForward;
    hide MirrorsBack;
    hide Within;
    if path == [] {
      TopMirrors(t, u);
    } else {
      var i, rest := path[0], path[1..];
      KidsAlike(t, u, i);
      EveryPlaceMirrors(t.kids[i], u.kids[i], rest);
      LinksStayWithin(t.kids[i], rest);
      var e, d := At(t, path), At(u, path);
      ForwardFromUnder(t, u, i, e, d);
      if rest == [] {
        KidMirrorsBack(t, u, i);
      } else {
        BackFromUnder(t, u, i, e, d);
      }
    }
  }
}
