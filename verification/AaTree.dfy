/**
 The search index as a value: an AA tree whose nodes `at` are found by their
 host `key`.
 */
module AaTree {
  import opened Common
  import opened HostOrder

  // `Insert` is one recursive insertion with a skew and a split at every level of
  // the way back, as the index does in place.

  datatype Tree<N> = Empty | Node(left: Tree<N>, key: Labels, at: N, level: nat, right: Tree<N>)

  datatype Item<N> = Item(key: Labels, at: N)

  function Level<N>(t: Tree<N>): nat {
    if t.Empty? then 0 else t.level
  }

  /** Everything in the tree, left to right. */
  function InOrder<N>(t: Tree<N>): seq<Item<N>> {
    if t.Empty? then [] else InOrder(t.left) + [Item(t.key, t.at)] + InOrder(t.right)
  }

  /** Rotates a left child of the same level up. */
  function Skew<N>(t: Tree<N>): Tree<N> {
    if t.Node? && t.left.Node? && t.left.level == t.level then
      var l := t.left;
      l.(right := t.(left := l.right))
    else t
  }

  /** Rotates a right child up, one level higher, when two right links in a row are level. */
  function Split<N>(t: Tree<N>): Tree<N> {
    if t.Node? && t.right.Node? && t.right.right.Node? && t.right.right.level == t.level then
      var r := t.right;
      r.(left := t.(right := r.left), level := r.level + 1)
    else t
  }

  function Insert<N>(t: Tree<N>, key: Labels, at: N): Tree<N> {
    if t.Empty? then Node(Empty, key, at, 1, Empty)
    else
      var c := CompareLabels(t.key, key);
      if c > 0 then Split(Skew(t.(left := Insert(t.left, key, at))))
      else if c < 0 then Split(Skew(t.(right := Insert(t.right, key, at))))
      else t
  }

  // ----- the order -----

  ghost predicate Sorted<N>(s: seq<Item<N>>) {
    forall i, j :: 0 <= i < j < |s| ==> CompareLabels(s[i].key, s[j].key) < 0
  }

  ghost predicate Has<N>(s: seq<Item<N>>, key: Labels) {
    exists i :: 0 <= i < |s| && CompareLabels(s[i].key, key) == 0
  }

  /** `after` is `before` with one more item in it, at place `i`. */
  ghost predicate AddedAt<N>(before: seq<Item<N>>, after: seq<Item<N>>, i: nat, x: Item<N>) {
    i <= |before| && after == before[..i] + [x] + before[i..]
  }

  lemma RotationsKeepOrder<N>(t: Tree<N>)
    ensures InOrder(Skew(t)) == InOrder(t)
    ensures InOrder(Split(t)) == InOrder(t)
  {
    if t.Node? && Skew(t) != t {
      var l := t.left;
      assert InOrder(l.left) + [Item(l.key, l.at)] + (InOrder(l.right) + [Item(t.key, t.at)] + InOrder(t.right))
          == InOrder(l.left) + [Item(l.key, l.at)] + InOrder(l.right) + [Item(t.key, t.at)] + InOrder(t.right);
    }
    if t.Node? && Split(t) != t {
      var r := t.right;
      assert (InOrder(t.left) + [Item(t.key, t.at)] + InOrder(r.left)) + [Item(r.key, r.at)] + InOrder(r.right)
          == InOrder(t.left) + [Item(t.key, t.at)] + (InOrder(r.left) + [Item(r.key, r.at)] + InOrder(r.right));
    }
  }

  lemma SortedParts<N>(l: seq<Item<N>>, x: Item<N>, r: seq<Item<N>>)
    requires Sorted(l + [x] + r)
    ensures Sorted(l) && Sorted(r)
    ensures forall i :: 0 <= i < |l| ==> CompareLabels(l[i].key, x.key) < 0
    ensures forall i :: 0 <= i < |r| ==> CompareLabels(x.key, r[i].key) < 0
  {
    hide CompareLabels;
    var s := l + [x] + r;
    assert s[|l|] == x;
    assert forall i :: 0 <= i < |l| ==> s[i] == l[i];
    assert forall i :: 0 <= i < |r| ==> s[|l| + 1 + i] == r[i];
  }

  /** A key above the middle of a sorted sequence is equal to nothing in its lower part. */
  lemma NotBelow<N>(l: seq<Item<N>>, x: Item<N>, key: Labels)
    requires forall i :: 0 <= i < |l| ==> CompareLabels(l[i].key, x.key) < 0
    requires CompareLabels(x.key, key) <= 0
    ensures forall i :: 0 <= i < |l| ==> CompareLabels(l[i].key, key) < 0
  {
    hide CompareLabels;
    forall i | 0 <= i < |l|
      ensures CompareLabels(l[i].key, key) < 0
    {
      CompareTransitive(l[i].key, x.key, key);
    }
  }

  lemma NotAbove<N>(r: seq<Item<N>>, x: Item<N>, key: Labels)
    requires forall i :: 0 <= i < |r| ==> CompareLabels(x.key, r[i].key) < 0
    requires CompareLabels(x.key, key) >= 0
    ensures forall i :: 0 <= i < |r| ==> CompareLabels(r[i].key, key) > 0
  {
    hide CompareLabels;
    forall i | 0 <= i < |r|
      ensures CompareLabels(r[i].key, key) > 0
    {
      CompareAntisymmetric(x.key, key);
      CompareTransitive(key, x.key, r[i].key);
      CompareAntisymmetric(key, r[i].key);
    }
  }

  /** A sorted sequence with a new item in its place; an equal key is left alone. */
  function SortedInsert<N>(s: seq<Item<N>>, x: Item<N>): seq<Item<N>> {
    if s == [] then [x]
    else
      var c := CompareLabels(s[0].key, x.key);
      if c < 0 then [s[0]] + SortedInsert(s[1..], x) else if c == 0 then s else [x] + s
  }

  lemma SortedInsertTakesOne<N>(s: seq<Item<N>>, x: Item<N>)
    ensures SortedInsert(s, x) ==
            if s == [] then [x]
            else if CompareLabels(s[0].key, x.key) < 0 then [s[0]] + SortedInsert(s[1..], x)
            else if CompareLabels(s[0].key, x.key) == 0 then s else [x] + s
  {
    hide CompareLabels;
  }

  lemma ThreeMore<T>(a: seq<T>, b: seq<T>, c: seq<T>, d: seq<T>)
    ensures a + (b + c + d) == a + b + c + d
  {
  }

  lemma {:induction false} SortedInsertBelow<N>(l: seq<Item<N>>, m: Item<N>, r: seq<Item<N>>, x: Item<N>)
    requires CompareLabels(m.key, x.key) > 0
    ensures SortedInsert(l + [m] + r, x) == SortedInsert(l, x) + [m] + r
  {
    hide CompareLabels;
    hide SortedInsert;
    var s := l + [m] + r;
    SortedInsertTakesOne(s, x);
    SortedInsertTakesOne(l, x);
    if l == [] {
      assert s[0] == m && s == [m] + r;
    } else if CompareLabels(l[0].key, x.key) < 0 {
      assert s[0] == l[0] && s[1..] == l[1..] + [m] + r;
      SortedInsertBelow(l[1..], m, r, x);
      ThreeMore([l[0]], SortedInsert(l[1..], x), [m], r);
    } else {
      assert s[0] == l[0];
      ThreeMore([x], l, [m], r);
    }
  }

  lemma {:induction false} SortedInsertAbove<N>(l: seq<Item<N>>, r: seq<Item<N>>, x: Item<N>)
    requires forall i :: 0 <= i < |l| ==> CompareLabels(l[i].key, x.key) < 0
    ensures SortedInsert(l + r, x) == l + SortedInsert(r, x)
  {
    hide CompareLabels;
    if l == [] {
      assert l + r == r;
    } else {
      SortedInsertAbove(l[1..], r, x);
      assert (l + r)[0] == l[0] && (l + r)[1..] == l[1..] + r;
    }
  }

  /** Where `SortedInsert` puts a new item: after everything smaller, before everything greater. */
  lemma {:induction false} PlaceOf<N>(s: seq<Item<N>>, x: Item<N>) returns (i: nat)
    requires Sorted(s) && !Has(s, x.key)
    ensures i <= |s| && AddedAt(s, SortedInsert(s, x), i, x)
    ensures forall k :: 0 <= k < i ==> CompareLabels(s[k].key, x.key) < 0
    ensures forall k :: i <= k < |s| ==> CompareLabels(x.key, s[k].key) < 0
  {
    hide CompareLabels;
    hide AddedAt;
    i := 0;
    if s == [] {
      AddedFirst(s, x);
      assert [x] + s == [x];
    } else {
      assert CompareLabels(s[0].key, x.key) != 0;
      if CompareLabels(s[0].key, x.key) < 0 {
        var rest := s[1..];
        assert forall k :: 0 <= k < |rest| ==> rest[k] == s[k + 1];
        var j := PlaceOf(rest, x);
        i := 1 + j;
        AddedToTail(s, SortedInsert(rest, x), j, x);
        assert forall k :: 1 <= k < |s| ==> s[k] == rest[k - 1];
      } else {
        AllAbove(s, x);
        AddedFirst(s, x);
      }
    }
  }

  lemma AddedFirst<N>(s: seq<Item<N>>, x: Item<N>)
    ensures AddedAt(s, [x] + s, 0, x)
  {
  }

  lemma AddedToTail<N>(s: seq<Item<N>>, tail: seq<Item<N>>, j: nat, x: Item<N>)
    requires s != [] && AddedAt(s[1..], tail, j, x)
    ensures AddedAt(s, [s[0]] + tail, 1 + j, x)
  {
    assert s[..1 + j] == [s[0]] + s[1..][..j] && s[1 + j..] == s[1..][j..];
  }

  lemma AllAbove<N>(s: seq<Item<N>>, x: Item<N>)
    requires Sorted(s) && s != [] && CompareLabels(s[0].key, x.key) > 0
    ensures forall k :: 0 <= k < |s| ==> CompareLabels(x.key, s[k].key) < 0
  {
    hide CompareLabels;
    CompareAntisymmetric(s[0].key, x.key);
    forall k | 0 < k < |s|
      ensures CompareLabels(x.key, s[k].key) < 0
    {
      CompareTransitive(x.key, s[0].key, s[k].key);
    }
  }

  lemma {:induction false} KnownKeyStays<N>(s: seq<Item<N>>, x: Item<N>)
    requires Sorted(s) && Has(s, x.key)
    ensures SortedInsert(s, x) == s
  {
    hide CompareLabels;
    var k :| 0 <= k < |s| && CompareLabels(s[k].key, x.key) == 0;
    if k > 0 {
      CompareTransitive(s[0].key, s[k].key, x.key);
      assert s[1..][k - 1] == s[k];
      KnownKeyStays(s[1..], x);
    }
  }

  lemma AddedIsSorted<N>(s: seq<Item<N>>, s': seq<Item<N>>, i: nat, x: Item<N>)
    requires Sorted(s) && AddedAt(s, s', i, x)
    requires forall k :: 0 <= k < i ==> CompareLabels(s[k].key, x.key) < 0
    requires forall k :: i <= k < |s| ==> CompareLabels(x.key, s[k].key) < 0
    ensures Sorted(s')
  {
    hide CompareLabels;
    forall k, l | 0 <= k < l < |s'| ensures CompareLabels(s'[k].key, s'[l].key) < 0 {
      assert s'[k] == if k < i then s[k] else if k == i then x else s[k - 1];
      assert s'[l] == if l < i then s[l] else if l == i then x else s[l - 1];
    }
  }

  /** What `SortedInsert` is: nothing for a known key, otherwise one item more, still sorted. */
  lemma SortedInsertAddsOne<N>(s: seq<Item<N>>, x: Item<N>) returns (i: nat)
    requires Sorted(s)
    ensures var s' := SortedInsert(s, x);
            Sorted(s') && if Has(s, x.key) then s' == s else AddedAt(s, s', i, x)
  {
    hide CompareLabels;
    hide AddedAt;
    hide Sorted;
    i := 0;
    if Has(s, x.key) {
      KnownKeyStays(s, x);
    } else {
      i := PlaceOf(s, x);
      AddedIsSorted(s, SortedInsert(s, x), i, x);
    }
  }

  // ----- the balance -----

  /** The level rules of an AA tree. */
  ghost predicate Balanced<N>(t: Tree<N>) {
    t.Node? ==>
      && t.level == Level(t.left) + 1
      && Level(t.right) <= t.level <= Level(t.right) + 1
      && (t.right.Node? ==> Level(t.right.right) < t.level)
      && Balanced(t.left) && Balanced(t.right)
  }

  /** How far one insertion may change the levels of a tree: at most one up, and only if it leaned right. */
  ghost predicate Regrown<N>(t: Tree<N>, t': Tree<N>) {
    && Balanced(t') && t'.Node?
    && Level(t) <= Level(t') <= Level(t) + 1
    && (Level(t') > Level(t) ==> Level(t'.right) < Level(t') && (t.Node? ==> Level(t.right) == Level(t)))
  }

  lemma LeftRegrown<N>(t: Tree<N>, l': Tree<N>)
    requires t.Node? && Balanced(t) && Regrown(t.left, l')
    ensures Regrown(t, Split(Skew(t.(left := l'))))
  {
  }

  lemma RightRegrown<N>(t: Tree<N>, r': Tree<N>)
    requires t.Node? && Balanced(t) && Regrown(t.right, r')
    ensures Regrown(t, Split(Skew(t.(right := r'))))
  {
    var n := t.level;
    var t' := t.(right := r');
    assert Skew(t') == t';
    assert Level(r') <= n;
    if Level(r'.right) < n {
      assert Split(t') == t' && Balanced(t');
    } else {
      var low := t.(right := r'.left);
      assert Level(t.right) == n && Level(r') == n;
      assert Split(t') == r'.(left := low, level := n + 1);
      assert Balanced(low);
    }
  }

  /** Insertion keeps the level rules at every node. */
  lemma {:induction false} InsertKeepsBalance<N>(t: Tree<N>, key: Labels, at: N)
    requires Balanced(t)
    ensures Balanced(Insert(t, key, at)) && Regrown(t, Insert(t, key, at))
  {
    hide CompareLabels;
    hide Skew;
    hide Split;
    if t.Node? {
      if CompareLabels(t.key, key) > 0 {
        InsertKeepsBalance(t.left, key, at);
        LeftRegrown(t, Insert(t.left, key, at));
      } else if CompareLabels(t.key, key) < 0 {
        InsertKeepsBalance(t.right, key, at);
        RightRegrown(t, Insert(t.right, key, at));
      }
    }
  }

  /** Is the key in the whole? Only the part it belongs to needs to be asked. */
  lemma HasLeft<N>(l: seq<Item<N>>, x: Item<N>, r: seq<Item<N>>, key: Labels)
    requires forall i :: 0 <= i < |r| ==> CompareLabels(x.key, r[i].key) < 0
    requires CompareLabels(x.key, key) > 0
    ensures Has(l + [x] + r, key) <==> Has(l, key)
  {
    hide CompareLabels;
    var s := l + [x] + r;
    NotAbove(r, x, key);
    assert forall k :: |l| < k < |s| ==> s[k] == r[k - |l| - 1];
    assert forall k :: 0 <= k < |l| ==> s[k] == l[k];
  }

  lemma HasRight<N>(l: seq<Item<N>>, x: Item<N>, r: seq<Item<N>>, key: Labels)
    requires forall i :: 0 <= i < |l| ==> CompareLabels(l[i].key, x.key) < 0
    requires CompareLabels(x.key, key) < 0
    ensures Has(l + [x] + r, key) <==> Has(r, key)
  {
    hide CompareLabels;
    var s, n := l + [x] + r, |l| + 1;
    NotBelow(l, x, key);
    assert forall k :: n <= k < |s| ==> s[k] == r[k - n];
    assert forall k :: 0 <= k < |l| ==> s[k] == l[k];
    if Has(r, key) {
      var k :| 0 <= k < |r| && CompareLabels(r[k].key, key) == 0;
      assert s[n + k] == r[k];
    }
  }

  lemma InsertedLeft<N>(t: Tree<N>, l': Tree<N>, x: Item<N>)
    requires t.Node? && CompareLabels(t.key, x.key) > 0
    requires InOrder(l') == SortedInsert(InOrder(t.left), x)
    ensures InOrder(Split(Skew(t.(left := l')))) == SortedInsert(InOrder(t), x)
  {
    hide CompareLabels;
    hide Skew;
    hide Split;
    SortedInsertBelow(InOrder(t.left), Item(t.key, t.at), InOrder(t.right), x);
    RotationsKeepOrder(t.(left := l'));
    RotationsKeepOrder(Skew(t.(left := l')));
  }

  lemma InsertedRight<N>(t: Tree<N>, r': Tree<N>, x: Item<N>)
    requires t.Node? && CompareLabels(t.key, x.key) < 0
    requires forall i :: 0 <= i < |InOrder(t.left)| ==> CompareLabels(InOrder(t.left)[i].key, t.key) < 0
    requires InOrder(r') == SortedInsert(InOrder(t.right), x)
    ensures InOrder(Split(Skew(t.(right := r')))) == SortedInsert(InOrder(t), x)
  {
    hide CompareLabels;
    hide Skew;
    hide Split;
    var l, m := InOrder(t.left), Item(t.key, t.at);
    NotBelow(l, m, x.key);
    SortedInsertAbove(l + [m], InOrder(t.right), x);
    RotationsKeepOrder(t.(right := r'));
    RotationsKeepOrder(Skew(t.(right := r')));
  }

  /**
   Insertion adds exactly the new item, in its place in the order; a host that
   is already there changes nothing at all, in shape or in contents.
   */
  lemma {:induction false} InsertRefinesSortedInsert<N>(t: Tree<N>, key: Labels, at: N)
    requires Sorted(InOrder(t)) && Balanced(t)
    ensures InOrder(Insert(t, key, at)) == SortedInsert(InOrder(t), Item(key, at))
    ensures Has(InOrder(t), key) ==> Insert(t, key, at) == t
  {
    hide CompareLabels;
    if t.Node? {
      var l, x, r := InOrder(t.left), Item(t.key, t.at), InOrder(t.right);
      SortedParts(l, x, r);
      var c := CompareLabels(t.key, key);
      if c > 0 {
        InsertRefinesSortedInsert(t.left, key, at);
        InsertedLeft(t, Insert(t.left, key, at), Item(key, at));
        HasLeft(l, x, r, key);
      } else if c < 0 {
        InsertRefinesSortedInsert(t.right, key, at);
        InsertedRight(t, Insert(t.right, key, at), Item(key, at));
        HasRight(l, x, r, key);
      } else {
        assert InOrder(t)[|l|] == x;
        KnownKeyStays(InOrder(t), Item(key, at));
      }
    }
  }

  // ----- the height -----

  function Height<N>(t: Tree<N>): nat {
    if t.Empty? then 0 else 1 + if Height(t.left) > Height(t.right) then Height(t.left) else Height(t.right)
  }

  /** A way down, to the left or to the right at each node. */
  predicate IsWayDown<N>(t: Tree<N>, way: seq<bool>) {
    way == [] || (!t.Empty? && IsWayDown(if way[0] then t.left else t.right, way[1..]))
  }

  /** No way down is longer than the height, and one is as long. */
  lemma {:induction false} HeightIsLongestWay<N>(t: Tree<N>) returns (way: seq<bool>)
    ensures IsWayDown(t, way) && |way| == Height(t)
    ensures forall other :: IsWayDown(t, other) ==> |other| <= Height(t)
  {
    if t.Empty? {
      way := [];
    } else {
      var l := HeightIsLongestWay(t.left);
      var r := HeightIsLongestWay(t.right);
      way := if |l| > |r| then [true] + l else [false] + r;
    }
  }

  lemma {:induction false} HeightFromLevel<N>(t: Tree<N>)
    requires Balanced(t)
    ensures Height(t) <= 2 * Level(t)
    ensures t.Node? && Level(t.right) < Level(t) ==> Height(t) < 2 * Level(t)
    ensures Pow2(Level(t)) <= |InOrder(t)| + 1
  {
    if t.Node? {
      HeightFromLevel(t.left);
      HeightFromLevel(t.right);
      if Level(t.right) == Level(t) {
        assert Pow2(Level(t)) == 2 * Pow2(Level(t.left));
      }
    }
  }

  /** An index of n hosts is at most 2 log2(n + 1) deep. */
  lemma HeightIsLogarithmic<N>(t: Tree<N>)
    requires Balanced(t)
    ensures Pow2(Height(t)) <= (|InOrder(t)| + 1) * (|InOrder(t)| + 1)
  {
    HeightFromLevel(t);
    Pow2Squares(Height(t), Level(t));
    SquareMonotone(Pow2(Level(t)), |InOrder(t)| + 1);
  }

  lemma SquareMonotone(a: nat, b: nat)
    requires a <= b
    ensures a * a <= b * b
  {
    assert a * a <= a * b <= b * b;
  }

  lemma {:induction false} Pow2Squares(h: nat, k: nat)
    requires h <= 2 * k
    ensures Pow2(h) <= Pow2(k) * Pow2(k)
    decreases k
  {
    if k > 0 {
      Pow2Squares(if h < 2 then 0 else h - 2, k - 1);
      var p := Pow2(k - 1);
      assert Pow2(k) * Pow2(k) == 4 * (p * p);
    }
  }

  // ----- any number of insertions -----

  /** The index after a run of insertions, starting empty. */
  function InsertAll<N>(items: seq<Item<N>>): Tree<N> {
    if items == [] then Empty
    else
      var last := items[|items| - 1];
      Insert(InsertAll(items[..|items| - 1]), last.key, last.at)
  }

  /** Every run of insertions leaves a sorted, balanced and shallow index of exactly the hosts inserted. */
  lemma {:induction false} AnyRunIsSound<N>(items: seq<Item<N>>, key: Labels)
    ensures var t := InsertAll(items);
            && Balanced(t) && Sorted(InOrder(t))
            && Pow2(Height(t)) <= (|items| + 1) * (|items| + 1)
            && |InOrder(t)| <= |items|
            && (Has(InOrder(t), key) <==> Has(items, key))
  {
    hide CompareLabels;
    hide Insert;
    hide Balanced;
    hide InOrder;
    hide Sorted;
    var t := InsertAll(items);
    if items == [] {
      NothingInserted<N>();
    } else {
      var n := |items| - 1;
      var rest, last := items[..n], items[n];
      var t0 := InsertAll(rest);
      AnyRunIsSound(rest, key);
      AnyRunIsSound(rest, last.key);
      InsertKeepsBalance(t0, last.key, last.at);
      InsertRefinesSortedInsert(t0, last.key, last.at);
      var i := SortedInsertAddsOne(InOrder(t0), last);
      HasSnoc(rest, last, key);
      HasAdded(InOrder(t0), InOrder(t), i, last, key);
    }
    HeightIsLogarithmic(t);
    SquareMonotone(|InOrder(t)| + 1, |items| + 1);
  }

  lemma NothingInserted<N>()
    ensures Balanced<N>(Empty) && InOrder<N>(Empty) == [] && Sorted<N>([])
  {
  }

  lemma HasSnoc<N>(rest: seq<Item<N>>, last: Item<N>, key: Labels)
    ensures Has(rest + [last], key) <==> Has(rest, key) || CompareLabels(last.key, key) == 0
  {
    hide CompareLabels;
    var s := rest + [last];
    if k :| 0 <= k < |rest| && CompareLabels(rest[k].key, key) == 0 {
      assert s[k] == rest[k];
    }
    assert s[|rest|] == last;
  }

  lemma HasAdded<N>(s: seq<Item<N>>, s': seq<Item<N>>, i: nat, x: Item<N>, key: Labels)
    requires if Has(s, x.key) then s' == s else AddedAt(s, s', i, x)
    ensures Has(s', key) <==> Has(s, key) || CompareLabels(x.key, key) == 0
  {
    hide CompareLabels;
    if Has(s, x.key) {
      if CompareLabels(x.key, key) == 0 {
        var k :| 0 <= k < |s| && CompareLabels(s[k].key, x.key) == 0;
        CompareZero(s[k].key, x.key);
        CompareZero(x.key, key);
        CompareZero(s[k].key, key);
      }
    } else {
      if k :| 0 <= k < |s| && CompareLabels(s[k].key, key) == 0 {
        assert s[k] == s'[if k < i then k else k + 1];
      }
      assert s'[i] == x;
    }
  }

  // ----- looking up -----

  function Lookup<N>(t: Tree<N>, key: Labels): Option<N> {
    if t.Empty? then None
    else
      var c := CompareLabels(t.key, key);
      if c > 0 then Lookup(t.left, key) else if c < 0 then Lookup(t.right, key) else Some(t.at)
  }

  ghost predicate Holds<N>(s: seq<Item<N>>, key: Labels, at: N) {
    exists i :: 0 <= i < |s| && s[i].at == at && CompareLabels(s[i].key, key) == 0
  }

  lemma HoldsBeside<N>(a: seq<Item<N>>, b: seq<Item<N>>, key: Labels, at: N)
    requires Holds(a, key, at) || Holds(b, key, at)
    ensures Holds(a + b, key, at)
  {
    hide CompareLabels;
    if Holds(a, key, at) {
      var i :| 0 <= i < |a| && a[i].at == at && CompareLabels(a[i].key, key) == 0;
      assert (a + b)[i] == a[i];
    } else {
      var i :| 0 <= i < |b| && b[i].at == at && CompareLabels(b[i].key, key) == 0;
      assert (a + b)[|a| + i] == b[i];
    }
  }

  /** Descending by comparison finds a host exactly if it is anywhere in the index. */
  lemma {:induction false} LookupFinds<N>(t: Tree<N>, key: Labels)
    requires Sorted(InOrder(t))
    ensures match Lookup(t, key)
            case None => !Has(InOrder(t), key)
            case Some(at) => Holds(InOrder(t), key, at)
  {
    hide CompareLabels;
    if t.Node? {
      var l, x, r := InOrder(t.left), Item(t.key, t.at), InOrder(t.right);
      SortedParts(l, x, r);
      LookupFinds(t.left, key);
      LookupFinds(t.right, key);
      if CompareLabels(t.key, key) > 0 {
        HasLeft(l, x, r, key);
        if Lookup(t.left, key).Some? {
          HoldsBeside(l, [x] + r, key, Lookup(t.left, key).value);
        }
      } else if CompareLabels(t.key, key) < 0 {
        HasRight(l, x, r, key);
        if Lookup(t.right, key).Some? {
          HoldsBeside(l + [x], r, key, Lookup(t.right, key).value);
        }
      } else {
        assert (l + [x] + r)[|l|] == x;
      }
      assert l + ([x] + r) == InOrder(t);
    }
  }

  /** Keys that compare equal lead to the same place. */
  lemma {:induction false} LookupAlike<N>(t: Tree<N>, a: Labels, b: Labels)
    requires CompareLabels(a, b) == 0
    ensures Lookup(t, a) == Lookup(t, b)
  {
    hide CompareLabels;
    if t.Node? {
      CompareAlike(t.key, a, b);
      LookupAlike(t.left, a, b);
      LookupAlike(t.right, a, b);
    }
  }

  // ----- looking up by the first label alone -----

  /** What the order of hosts becomes when only first labels are looked at. */
  function FirstCompare(a: Labels, first: string): (r: int)
    ensures -1 <= r <= 1
  {
    if a == [] then -1 else CaseCompare(a[0], first)
  }

  function LookupFirst<N>(t: Tree<N>, first: string): Option<N> {
    if t.Empty? then None
    else
      var c := FirstCompare(t.key, first);
      if c > 0 then LookupFirst(t.left, first) else if c < 0 then LookupFirst(t.right, first) else Some(t.at)
  }

  lemma {:induction false} LookupFirstAlike<N>(t: Tree<N>, a: string, b: string)
    requires CaseCompare(a, b) == 0
    ensures LookupFirst(t, a) == LookupFirst(t, b)
  {
    hide CaseCompare;
    if t.Node? {
      if t.key != [] {
        CaseCompareAlike(t.key[0], a, b);
      }
      LookupFirstAlike(t.left, a, b);
      LookupFirstAlike(t.right, a, b);
    }
  }

  lemma FirstCompareMonotone(a: Labels, b: Labels, first: string)
    requires CompareLabels(a, b) <= 0
    ensures FirstCompare(a, first) <= FirstCompare(b, first)
  {
    if a != [] && b != [] {
      CaseCompareMonotone(a[0], b[0], first);
    }
  }

  ghost predicate Begins<N>(s: seq<Item<N>>, first: string, at: N) {
    exists i :: 0 <= i < |s| && s[i].at == at && FirstCompare(s[i].key, first) == 0
  }

  ghost predicate NoneBegins<N>(s: seq<Item<N>>, first: string) {
    forall i :: 0 <= i < |s| ==> FirstCompare(s[i].key, first) != 0
  }

  lemma BeginsBeside<N>(a: seq<Item<N>>, b: seq<Item<N>>, first: string, at: N)
    requires Begins(a, first, at) || Begins(b, first, at)
    ensures Begins(a + b, first, at)
  {
    hide FirstCompare;
    if i :| 0 <= i < |a| && a[i].at == at && FirstCompare(a[i].key, first) == 0 {
      assert (a + b)[i] == a[i];
    } else {
      var i :| 0 <= i < |b| && b[i].at == at && FirstCompare(b[i].key, first) == 0;
      assert (a + b)[|a| + i] == b[i];
    }
  }

  lemma NoneBeginsIn<N>(l: seq<Item<N>>, x: Item<N>, r: seq<Item<N>>, first: string)
    requires NoneBegins(l, first) && NoneBegins(r, first) && FirstCompare(x.key, first) != 0
    ensures NoneBegins(l + [x] + r, first)
  {
    hide FirstCompare;
  }

  /** It finds one of the hosts with that first label, if there are any. */
  lemma {:induction false} LookupFirstFinds<N>(t: Tree<N>, first: string)
    requires Sorted(InOrder(t))
    ensures match LookupFirst(t, first)
            case None => NoneBegins(InOrder(t), first)
            case Some(at) => Begins(InOrder(t), first, at)
  {
    hide CompareLabels;
    hide FirstCompare;
    hide NoneBegins;
    hide Begins;
    hide Sorted;
    if t.Node? {
      var l, x, r := InOrder(t.left), Item(t.key, t.at), InOrder(t.right);
      SortedParts(l, x, r);
      LookupFirstFinds(t.left, first);
      LookupFirstFinds(t.right, first);
      assert l + ([x] + r) == InOrder(t);
      if FirstCompare(t.key, first) > 0 {
        NoneAbove(x, r, first);
        if LookupFirst(t.left, first).Some? {
          BeginsBeside(l, [x] + r, first, LookupFirst(t.left, first).value);
        } else {
          NoneBeginsIn(l, x, r, first);
        }
      } else if FirstCompare(t.key, first) < 0 {
        NoneBelow(l, x, first);
        if LookupFirst(t.right, first).Some? {
          BeginsBeside(l + [x], r, first, LookupFirst(t.right, first).value);
        } else {
          NoneBeginsIn(l, x, r, first);
        }
      } else {
        BeginsHere(l, x, r, first);
      }
    } else {
      NothingBegins<N>(first);
    }
  }

  lemma NothingBegins<N>(first: string)
    ensures NoneBegins<N>([], first)
  {
  }

  lemma BeginsHere<N>(l: seq<Item<N>>, x: Item<N>, r: seq<Item<N>>, first: string)
    requires FirstCompare(x.key, first) == 0
    ensures Begins(l + [x] + r, first, x.at)
  {
    assert (l + [x] + r)[|l|] == x;
  }

  lemma NoneAbove<N>(x: Item<N>, r: seq<Item<N>>, first: string)
    requires forall i :: 0 <= i < |r| ==> CompareLabels(x.key, r[i].key) < 0
    requires FirstCompare(x.key, first) > 0
    ensures NoneBegins(r, first)
  {
    hide CompareLabels;
    forall i | 0 <= i < |r| ensures FirstCompare(r[i].key, first) != 0 {
      FirstCompareMonotone(x.key, r[i].key, first);
    }
  }

  lemma NoneBelow<N>(l: seq<Item<N>>, x: Item<N>, first: string)
    requires forall i :: 0 <= i < |l| ==> CompareLabels(l[i].key, x.key) < 0
    requires FirstCompare(x.key, first) < 0
    ensures NoneBegins(l, first)
  {
    hide CompareLabels;
    forall i | 0 <= i < |l| ensures FirstCompare(l[i].key, first) != 0 {
      FirstCompareMonotone(l[i].key, x.key, first);
    }
  }

  // ----- hosts that begin with a prefix -----

  /** The items that match a prefix, in order. */
  function Matching<N>(s: seq<Item<N>>, pre: Labels): seq<N>
    requires pre != []
  {
    if s == [] then []
    else (if PrefixCompare(s[0].key, pre) == 0 then [s[0].at] else []) + Matching(s[1..], pre)
  }

  /** What the pruned recursion visits. */
  function Visited<N>(t: Tree<N>, pre: Labels): seq<N>
    requires pre != []
  {
    if t.Empty? then []
    else
      var c := PrefixCompare(t.key, pre);
      if c > 0 then Visited(t.left, pre)
      else if c < 0 then Visited(t.right, pre)
      else Visited(t.left, pre) + [t.at] + Visited(t.right, pre)
  }

  lemma {:induction false} MatchingParts<N>(a: seq<Item<N>>, b: seq<Item<N>>, pre: Labels)
    requires pre != []
    ensures Matching(a + b, pre) == Matching(a, pre) + Matching(b, pre)
  {
    hide PrefixCompare;
    if a == [] {
      assert a + b == b;
    } else {
      MatchingParts(a[1..], b, pre);
      assert (a + b)[0] == a[0] && (a + b)[1..] == a[1..] + b;
      var first := if PrefixCompare(a[0].key, pre) == 0 then [a[0].at] else [];
      assert first + (Matching(a[1..], pre) + Matching(b, pre)) == first + Matching(a[1..], pre) + Matching(b, pre);
    }
  }

  lemma {:induction false} NoneMatching<N>(s: seq<Item<N>>, pre: Labels)
    requires pre != [] && forall i :: 0 <= i < |s| ==> PrefixCompare(s[i].key, pre) != 0
    ensures Matching(s, pre) == []
  {
    if s != [] {
      NoneMatching(s[1..], pre);
    }
  }

  /** The matching hosts lie next to each other in the index. */
  lemma MatchesAreContiguous<N>(s: seq<Item<N>>, pre: Labels, i: nat, j: nat, k: nat)
    requires pre != [] && Sorted(s) && i <= j <= k < |s|
    requires StartsWith(s[i].key, pre) && StartsWith(s[k].key, pre)
    ensures StartsWith(s[j].key, pre)
  {
    hide StartsWith;
    PrefixCompareZero(s[i].key, pre);
    PrefixCompareZero(s[j].key, pre);
    PrefixCompareZero(s[k].key, pre);
    if i < j {
      PrefixCompareMonotone(s[i].key, s[j].key, pre);
    }
    if j < k {
      PrefixCompareMonotone(s[j].key, s[k].key, pre);
    }
  }

  /** So the pruned recursion visits exactly the matching hosts, each once, in order. */
  lemma {:induction false} VisitsExactlyTheMatches<N>(t: Tree<N>, pre: Labels)
    requires pre != [] && Sorted(InOrder(t))
    ensures Visited(t, pre) == Matching(InOrder(t), pre)
  {
    hide CompareLabels;
    hide PrefixCompare;
    if t.Node? {
      var l, x, r := InOrder(t.left), Item(t.key, t.at), InOrder(t.right);
      SortedParts(l, x, r);
      VisitsExactlyTheMatches(t.left, pre);
      VisitsExactlyTheMatches(t.right, pre);
      MatchingParts(l + [x], r, pre);
      MatchingParts(l, [x], pre);
      assert Matching([x], pre) == if PrefixCompare(x.key, pre) == 0 then [x.at] else [];
      if PrefixCompare(x.key, pre) > 0 {
        forall i | 0 <= i < |r|
          ensures PrefixCompare(r[i].key, pre) != 0
        {
          PrefixCompareMonotone(x.key, r[i].key, pre);
        }
        NoneMatching(r, pre);
      } else if PrefixCompare(x.key, pre) < 0 {
        forall i | 0 <= i < |l|
          ensures PrefixCompare(l[i].key, pre) != 0
        {
          PrefixCompareMonotone(l[i].key, x.key, pre);
        }
        NoneMatching(l, pre);
      }
    }
  }
}
