/**
 Where the entries of a history are put on the page that shows it: each column holds
 the entries reached in so many steps, and an entry stands in the middle of those reached from it.
 */
module HistoryLayout {
  import opened Common
  import opened HistoryTree

  /** The size of an entry's box and the room left beside and below it. */
  datatype Sizes = Sizes(width: nat, height: nat, right: nat, bottom: nat)

  /** Where the tree of the i-th child starts, if that of its parent starts at `y`. */
  ghost function TopOf(z: Sizes, t: Tree, i: nat, y: int): int
    requires i < |t.kids|
    decreases t, i, 0
  {
    if i == 0 then y else BottomOf(z, t, i - 1, y) + z.bottom
  }

  ghost function BottomOf(z: Sizes, t: Tree, i: nat, y: int): int
    requires i < |t.kids|
    decreases t, i, 1
  {
    Bottom(z, t.kids[i], TopOf(z, t, i, y))
  }

  /** Where a tree that starts at `y` ends. */
  ghost function Bottom(z: Sizes, t: Tree, y: int): int
    decreases t, |t.kids|
  {
    if t.kids == [] then y + z.height else BottomOf(z, t, |t.kids| - 1, y)
  }

  ghost predicate LaidOut(z: Sizes, t: Tree, x: int, y: int)
    reads Entries(t)`x, Entries(t)`y
    decreases t
  {
    && t.entry.x == x
    && t.entry.y == (if t.kids == [] then y else (y + Bottom(z, t, y)) / 2 - z.height / 2)
    && forall i :: 0 <= i < |t.kids| ==> LaidOut(z, t.kids[i], x + z.width + z.right, TopOf(z, t, i, y))
  }

  /** A tree takes up at least the height of a box, and its children's trees lie one below the other within it. */
  lemma {:induction false} TreeIsTall(z: Sizes, t: Tree, y: int)
    ensures Bottom(z, t, y) >= y + z.height
    ensures forall i :: 0 <= i < |t.kids| ==> y <= TopOf(z, t, i, y) && BottomOf(z, t, i, y) <= Bottom(z, t, y)
    ensures forall i, j :: 0 <= i < j < |t.kids| ==> BottomOf(z, t, i, y) + z.bottom <= TopOf(z, t, j, y)
    decreases t, |t.kids|
  {
    if t.kids != [] {
      KidsAreTall(z, t, |t.kids| - 1, y);
    }
  }

  lemma {:induction false} KidsAreTall(z: Sizes, t: Tree, n: nat, y: int)
    requires n < |t.kids|
    ensures BottomOf(z, t, n, y) >= y + z.height && TopOf(z, t, n, y) >= y
    ensures forall i :: 0 <= i <= n ==> y <= TopOf(z, t, i, y) && BottomOf(z, t, i, y) <= BottomOf(z, t, n, y)
    ensures forall i, j :: 0 <= i < j <= n ==> BottomOf(z, t, i, y) + z.bottom <= TopOf(z, t, j, y)
    decreases t, n
  {
    TreeIsTall(z, t.kids[n], TopOf(z, t, n, y));
    if n > 0 {
      KidsAreTall(z, t, n - 1, y);
    }
  }

  lemma InAKid(t: Tree, e: Entry) returns (i: nat)
    requires e in Entries(t) && e != t.entry
    ensures i < |t.kids| && e in Entries(t.kids[i])
  {
    i := InOneOf(t, |t.kids|, e);
  }

  /** Every box of a tree is within the part of the page given to the tree, and only the topmost is in its first column. */
  lemma {:induction false} BoxIsWithin(z: Sizes, t: Tree, x: int, y: int, e: Entry)
    requires LaidOut(z, t, x, y) && e in Entries(t)
    ensures y <= e.y && e.y + z.height <= Bottom(z, t, y)
    ensures x <= e.x && (e != t.entry ==> x + z.width + z.right <= e.x)
    decreases t
  {
    hide Entries;
    hide Bottom;
    hide TopOf;
    TreeIsTall(z, t, y);
    if e != t.entry {
      var i := InAKid(t, e);
      BoxIsWithin(z, t.kids[i], x + z.width + z.right, TopOf(z, t, i, y), e);
      assert BottomOf(z, t, i, y) == Bottom(z, t.kids[i], TopOf(z, t, i, y));
    } else {
      BottomOfALeaf(z, t, y);
    }
  }

  lemma BottomOfALeaf(z: Sizes, t: Tree, y: int)
    ensures t.kids == [] ==> Bottom(z, t, y) == y + z.height
  {
  }

  /** An entry stands in the middle of its part of the page: there is as much room above it as below, to within rounding. */
  lemma BoxIsCentred(z: Sizes, t: Tree, x: int, y: int)
    requires LaidOut(z, t, x, y)
    ensures var above, below := t.entry.y - y, Bottom(z, t, y) - (t.entry.y + z.height);
            0 <= above && 0 <= below && -1 <= above - below <= 1
  {
    TreeIsTall(z, t, y);
    BottomOfALeaf(z, t, y);
    hide Bottom;
  }

  /** The boxes of two entries do not meet: there is a margin between them to the side, or one below the other. */
  ghost predicate Apart(z: Sizes, e: Entry, f: Entry)
    reads e`x, e`y, f`x, f`y
  {
    || e.x + z.width + z.right <= f.x || f.x + z.width + z.right <= e.x
    || e.y + z.height + z.bottom <= f.y || f.y + z.height + z.bottom <= e.y
  }

  lemma {:induction false} BoxesAreApart(z: Sizes, t: Tree, x: int, y: int, e: Entry, f: Entry)
    requires LaidOut(z, t, x, y) && e in Entries(t) && f in Entries(t) && e != f
    ensures Apart(z, e, f)
    decreases t
  {
    hide Entries;
    hide Bottom;
    hide TopOf;
    hide BottomOf;
    if e == t.entry {
      BoxIsWithin(z, t, x, y, f);
    } else if f == t.entry {
      BoxIsWithin(z, t, x, y, e);
    } else {
      var i := InAKid(t, e);
      var j := InAKid(t, f);
      var x1 := x + z.width + z.right;
      if i == j {
        BoxesAreApart(z, t.kids[i], x1, TopOf(z, t, i, y), e, f);
      } else {
        TreeIsTall(z, t, y);
        BoxIsWithin(z, t.kids[i], x1, TopOf(z, t, i, y), e);
        BoxIsWithin(z, t.kids[j], x1, TopOf(z, t, j, y), f);
        BottomOfAKid(z, t, i, y);
        BottomOfAKid(z, t, j, y);
      }
    }
  }

  lemma BottomOfAKid(z: Sizes, t: Tree, i: nat, y: int)
    requires i < |t.kids|
    ensures BottomOf(z, t, i, y) == Bottom(z, t.kids[i], TopOf(z, t, i, y))
  {
  }

  // ----- laying out -----

  /** How far to the right the boxes of a tree reach. */
  ghost function Right(z: Sizes, t: Tree, x: int): int
    decreases t, |t.kids| + 1
  {
    RightUpTo(z, t, |t.kids|, x)
  }

  ghost function RightUpTo(z: Sizes, t: Tree, n: nat, x: int): int
    requires n <= |t.kids|
    decreases t, n
  {
    if n == 0 then x + z.width
    else Max(RightUpTo(z, t, n - 1, x), Right(z, t.kids[n - 1], x + z.width + z.right))
  }

  /** Where the next child's tree starts, or, with none left, where the whole ends. */
  ghost function Reached(z: Sizes, t: Tree, i: nat, y: int): int
    requires i <= |t.kids|
  {
    if i < |t.kids| then TopOf(z, t, i, y) else if i == 0 then y else BottomOf(z, t, i - 1, y)
  }

  lemma ReachedOnwards(z: Sizes, t: Tree, i: nat, y: int)
    requires i < |t.kids|
    ensures Reached(z, t, 0, y) == y
    ensures Reached(z, t, i + 1, y)
         == Bottom(z, t.kids[i], Reached(z, t, i, y)) + if i + 1 < |t.kids| then z.bottom else 0
    ensures Reached(z, t, i, y) == TopOf(z, t, i, y) >= y
    ensures i + 1 == |t.kids| ==> Reached(z, t, i + 1, y) == Bottom(z, t, y)
  {
    TreeIsTall(z, t, y);
    assert BottomOf(z, t, i, y) == Bottom(z, t.kids[i], TopOf(z, t, i, y));
  }

  ghost predicate KidsLaidOut(z: Sizes, t: Tree, n: nat, x: int, y: int)
    requires n <= |t.kids|
    reads UpTo(t, n)`x, UpTo(t, n)`y
  {
    forall j :: 0 <= j < n ==> LaidOut(z, t.kids[j], x + z.width + z.right, TopOf(z, t, j, y))
  }

  lemma KidIsApart(t: Tree, i: nat)
    requires Distinct(t) && Linked(t) && i < |t.kids|
    ensures UpTo(t, i) !! Entries(t.kids[i]) && UpTo(t, i) <= Entries(t) && Entries(t.kids[i]) <= Entries(t)
    ensures t.entry !in Entries(t.kids[i]) && t.entry !in UpTo(t, i)
    ensures Distinct(t.kids[i]) && Linked(t.kids[i]) && t.kids[i].entry.next == EntryAt(t.kids, i + 1)
  {
    ChildIsATree(t, i);
    UpToIsApart(t, i, i);
  }

  lemma {:induction false} UpToIsApart(t: Tree, n: nat, i: nat)
    requires Distinct(t) && n <= i < |t.kids|
    ensures UpTo(t, n) !! Entries(t.kids[i]) && UpTo(t, n) <= Below(t)
  {
    if n > 0 {
      UpToIsApart(t, n - 1, i);
      assert Entries(t.kids[n - 1]) !! Entries(t.kids[i]);
    }
  }

  lemma StartOfLayout(z: Sizes, t: Tree, x: int, y: int)
    requires Linked(t) && Distinct(t)
    ensures t.entry.forward == EntryAt(t.kids, 0) && KidsLaidOut(z, t, 0, x, y) && t.entry !in UpTo(t, |t.kids|)
    ensures Reached(z, t, 0, y) == y && (t.kids == [] ==> Bottom(z, t, y) == y + z.height)
  {
  }

  lemma OneMoreLaidOut(z: Sizes, t: Tree, i: nat, x: int, y: int)
    requires i < |t.kids| && KidsLaidOut(z, t, i, x, y)
    requires LaidOut(z, t.kids[i], x + z.width + z.right, TopOf(z, t, i, y))
    ensures KidsLaidOut(z, t, i + 1, x, y)
  {
    hide LaidOut;
    hide TopOf;
  }

  lemma TopLaidOut(z: Sizes, t: Tree, x: int, y: int)
    requires KidsLaidOut(z, t, |t.kids|, x, y) && t.entry.x == x
    requires t.entry.y == if t.kids == [] then y else (y + Bottom(z, t, y)) / 2 - z.height / 2
    ensures LaidOut(z, t, x, y)
  {
  }

  method LayoutSubtree(z: Sizes, h: History, entry: Entry, x: int, y: int, ghost t: Tree, ghost es: set<Entry>) returns (y1: int)
    requires t.entry == entry && Entries(t) <= es && Distinct(t) && Linked(t) && 0 <= y
    modifies h`width, Entries(t)`x, Entries(t)`y
    ensures LaidOut(z, t, x, y) && y1 == Bottom(z, t, y) && h.width == Max(old(h.width), Right(z, t, x))
    decreases t
  {
    hide Distinct;
    hide LaidOut;
    hide TopOf;
    hide Bottom;
    hide Reached;
    hide Linked;
    hide Entries;
    hide UpTo;
    hide Below;
    hide KidsLaidOut;
    y1 := y;
    StartOfLayout(z, t, x, y);
    if h.width < x + z.width {
      h.width := x + z.width;
    }
    if entry.forward == null {
      entry.x, entry.y := x, y;
      TopLaidOut(z, t, x, y);
      return y + z.height;
    }
    var child := entry.forward;
    ghost var i := 0;
    while child != null
      invariant 0 <= i <= |t.kids| && child == EntryAt(t.kids, i) && y1 == Reached(z, t, i, y)
      invariant KidsLaidOut(z, t, i, x, y) && h.width == Max(old(h.width), RightUpTo(z, t, i, x))
      invariant i == |t.kids| ==> y1 == Bottom(z, t, y)
      decreases |t.kids| - i
    {
      KidIsApart(t, i);
      ReachedOnwards(z, t, i, y);
      label turn:
      y1 := LayoutSubtree(z, h, child, x + z.width + z.right, y1, t.kids[i], es);
      OneMoreLaidOut(z, t, i, x, y);
      if child.next != null {
        y1 := y1 + z.bottom;
      }
      child, i := child.next, i + 1;
    }
    label below:
    entry.x, entry.y := x, (y + y1) / 2 - z.height / 2;
    TopLaidOut(z, t, x, y);
  }

  lemma {:induction false} BoxEndsWithin(z: Sizes, t: Tree, x: int, y: int, e: Entry)
    requires LaidOut(z, t, x, y) && e in Entries(t)
    ensures e.x + z.width <= Right(z, t, x)
    decreases t
  {
    hide Entries;
    hide Bottom;
    hide TopOf;
    RightIsFurthest(z, t, |t.kids|, x);
    if e != t.entry {
      var i := InAKid(t, e);
      BoxEndsWithin(z, t.kids[i], x + z.width + z.right, TopOf(z, t, i, y), e);
    }
  }

  lemma {:induction false} RightIsFurthest(z: Sizes, t: Tree, n: nat, x: int)
    requires n <= |t.kids|
    ensures RightUpTo(z, t, n, x) >= x + z.width
    ensures forall i :: 0 <= i < n ==> Right(z, t.kids[i], x + z.width + z.right) <= RightUpTo(z, t, n, x)
  {
    if n > 0 {
      RightIsFurthest(z, t, n - 1, x);
    }
  }

  /** The whole history is laid out, and the page made as large as that takes. */
  method Layout(z: Sizes, h: History, ghost t: Tree, ghost es: set<Entry>)
    requires h.start != null ==> t.entry == h.start && Entries(t) <= es && Distinct(t) && Linked(t)
    modifies h`width, h`height, (if h.start == null then {} else Entries(t))`x, (if h.start == null then {} else Entries(t))`y
    ensures h.start != null ==>
              && LaidOut(z, t, z.right / 2, z.bottom / 2)
              && h.width == Right(z, t, z.right / 2) + z.right / 2
              && h.height == Bottom(z, t, z.bottom / 2) + z.bottom / 2
    ensures h.start == null ==> h.width == z.right / 2 && h.height == z.bottom / 2
  {
    hide LaidOut;
    hide Entries;
    hide Linked;
    hide Distinct;
    hide Bottom;
    hide RightUpTo;
    h.width := 0;
    if h.start != null {
      h.height := LayoutSubtree(z, h, h.start, z.right / 2, z.bottom / 2, t, es);
      RightIsFurthest(z, t, |t.kids|, z.right / 2);
    } else {
      h.height := 0;
    }
    label placed:
    h.width, h.height := h.width + z.right / 2, h.height + z.bottom / 2;
  }
}
