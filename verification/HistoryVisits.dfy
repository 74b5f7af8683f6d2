/**
 A page visited is put below the page it was reached from, after those reached from there before.
 */
module HistoryVisits {
  import opened HistoryTree
  import opened HistoryLayout

  /** The tree with one more below the entry `c`, after all that are there. */
  ghost function Grafted(t: Tree, c: Entry, v: Tree): (u: Tree)
    ensures u.entry == t.entry
    decreases t
  {
    if t.entry == c then Tree(c, t.kids + [v])
    else Tree(t.entry, seq(|t.kids|, i requires 0 <= i < |t.kids| =>
           if c in Entries(t.kids[i]) then Grafted(t.kids[i], c, v) else t.kids[i]))
  }

  /** Grafting below some other entry than the topmost happens in the one tree below it that has that entry. */
  lemma GraftedBelow(t: Tree, c: Entry, v: Tree, u: Tree) returns (k: nat)
    requires Distinct(t) && c in Entries(t) && c != t.entry && u == Grafted(t, c, v)
    ensures k < |t.kids| && c in Entries(t.kids[k]) && |u.kids| == |t.kids| && u.kids[k] == Grafted(t.kids[k], c, v)
    ensures forall i :: 0 <= i < |t.kids| && i != k ==> c !in Entries(t.kids[i]) && u.kids[i] == t.kids[i]
  {
    k := InAKid(t, c);
    forall i | 0 <= i < |t.kids| && i != k ensures c !in Entries(t.kids[i]) {
      assert if i < k then Entries(t.kids[i]) !! Entries(t.kids[k]) else Entries(t.kids[k]) !! Entries(t.kids[i]);
    }
  }

  lemma {:induction false} UpToGrafted(t: Tree, u: Tree, k: nat, s: set<Entry>, n: nat)
    requires |u.kids| == |t.kids| && k < |t.kids| && n <= |t.kids|
    requires forall i :: 0 <= i < |t.kids| && i != k ==> u.kids[i] == t.kids[i]
    requires Entries(u.kids[k]) == Entries(t.kids[k]) + s
    ensures UpTo(u, n) == if k < n then UpTo(t, n) + s else UpTo(t, n)
  {
    if n > 0 {
      UpToGrafted(t, u, k, s, n - 1);
    }
  }

  lemma {:induction false} GraftHasBoth(t: Tree, c: Entry, v: Tree)
    requires Distinct(t) && c in Entries(t) && Distinct(v) && Entries(v) !! Entries(t)
    ensures Entries(Grafted(t, c, v)) == Entries(t) + Entries(v) && Distinct(Grafted(t, c, v))
    decreases t
  {
    if c == t.entry {
      BelowGrows(c, t.kids, v);
      assert Tree(c, t.kids) == t;
      DistinctGrows(c, t.kids, v);
    } else {
      var u := Grafted(t, c, v);
      var k := GraftedBelow(t, c, v, u);
      GraftHasBoth(t.kids[k], c, v);
      UpToGrafted(t, u, k, Entries(v), |t.kids|);
      forall i, j | 0 <= i < j < |u.kids| ensures Entries(u.kids[i]) !! Entries(u.kids[j]) {
        assert Entries(t.kids[i]) !! Entries(t.kids[j]);
      }
    }
  }

  // ----- the pointers of a set of entries, as a value -----

  datatype Link = Link(back: Entry?, next: Entry?, forward: Entry?, pref: Entry?, last: Entry?)

  type Links = map<Entry, Link>

  ghost function LinksOf(es: set<Entry>): Links
    reads es
  {
    map e | e in es :: Link(e.back, e.next, e.forward, e.forwardPref, e.forwardLast)
  }

  /** `Linked`, of pointers held as a value. */
  ghost predicate LinkedIn(m: Links, t: Tree)
    decreases t
  {
    && Entries(t) <= m.Keys
    && m[t.entry].forward == EntryAt(t.kids, 0) && m[t.entry].last == EntryAt(t.kids, |t.kids| - 1)
    && (m[t.entry].pref == null || IsChild(t.kids, m[t.entry].pref))
    && (forall i :: 0 <= i < |t.kids| ==>
          var e := t.kids[i].entry; e in m && m[e].back == t.entry && m[e].next == NextAt(t.kids, t.kids, i))
    && forall i :: 0 <= i < |t.kids| ==> LinkedIn(m, t.kids[i])
  }

  lemma KidsAreIn(t: Tree)
    ensures forall i :: 0 <= i < |t.kids| ==> t.kids[i].entry in Below(t) && Entries(t.kids[i]) <= Below(t)
    ensures Below(t) <= Entries(t) && t.entry in Entries(t)
  {
  }

  lemma {:induction false} LinkedAsAValue(es: set<Entry>, t: Tree)
    requires Entries(t) <= es
    ensures Linked(t) <==> LinkedIn(LinksOf(es), t)
    decreases t
  {
    hide Entries;
    hide Below;
    hide IsChild;
    hide NextAt;
    hide EntryAt;
    KidsAreIn(t);
    forall i | 0 <= i < |t.kids| ensures Linked(t.kids[i]) <==> LinkedIn(LinksOf(es), t.kids[i]) {
      LinkedAsAValue(es, t.kids[i]);
    }
  }

  /** Pointers that agree on a tree link it alike; those of the topmost back and aside do not matter. */
  ghost predicate Agree(m: Links, n: Links, t: Tree) {
    && Entries(t) <= m.Keys && Entries(t) <= n.Keys
    && (forall e :: e in Entries(t) ==> n[e].forward == m[e].forward && n[e].pref == m[e].pref && n[e].last == m[e].last)
    && forall e :: e in Below(t) ==> n[e].back == m[e].back && n[e].next == m[e].next
  }

  lemma {:induction false} AgreeingLinksLinkAlike(m: Links, n: Links, t: Tree)
    requires LinkedIn(m, t) && Agree(m, n, t)
    ensures LinkedIn(n, t)
    decreases t
  {
    hide Entries;
    hide Below;
    hide IsChild;
    hide NextAt;
    hide EntryAt;
    KidsAreIn(t);
    forall i | 0 <= i < |t.kids| ensures LinkedIn(n, t.kids[i]) {
      KidsAreIn(t.kids[i]);
      AgreeingLinksLinkAlike(m, n, t.kids[i]);
    }
  }

  /** The pointers once `e` has been put below `c`, after its last child if there is one. */
  ghost function Relinked(m: Links, c: Entry, e: Entry): Links
    requires c in m && (m[c].last == null || m[c].last in m)
  {
    var last := m[c].last;
    var below := m[e := Link(c, null, null, null, null)];
    var aside := if last == null then below[c := below[c].(forward := e)] else below[last := below[last].(next := e)];
    aside[c := aside[c].(pref := e, last := e)]
  }

  lemma LastIsBelow(m: Links, t: Tree, c: Entry)
    requires LinkedIn(m, t) && c in Entries(t) && m[c].last != null
    ensures m[c].last in Below(t)
    decreases t
  {
    if c != t.entry {
      var k := InAKid(t, c);
      LastIsBelow(m, t.kids[k], c);
    }
  }

  ghost function WithLast(t: Tree, e: Entry): (u: Tree) {
    Tree(t.entry, t.kids + [Tree(e, [])])
  }

  lemma LeafIsLinked(m: Links, e: Entry)
    ensures e in m && m[e].forward == m[e].pref == m[e].last == null ==> LinkedIn(m, Tree(e, []))
    ensures Entries(Tree(e, [])) == {e} && Distinct(Tree(e, []))
  {
    assert UpTo(Tree(e, []), 0) == {};
  }

  lemma RowOnceRelinked(m: Links, t: Tree, e: Entry)
    requires LinkedIn(m, t) && Distinct(t) && e !in m
    ensures var u, n := WithLast(t, e), Relinked(m, t.entry, e); forall i :: 0 <= i < |u.kids| ==>
              var d := u.kids[i].entry; d in n && n[d].back == u.entry && n[d].next == NextAt(u.kids, u.kids, i)
  {
    hide Entries;
    hide Below;
    hide Distinct;
    var u, n := WithLast(t, e), Relinked(m, t.entry, e);
    KidsDiffer(t);
    TopIsNoKid(t);
    forall i | 0 <= i < |u.kids|
      ensures var d := u.kids[i].entry; d in n && n[d].back == u.entry && n[d].next == NextAt(u.kids, u.kids, i)
    {
      if i < |t.kids| {
        var d := t.kids[i].entry;
        assert u.kids[i] == t.kids[i] && d in m && d != e;
        assert m[d].next == NextAt(t.kids, t.kids, i);
      }
    }
  }

  lemma TopIsNoKid(t: Tree)
    requires Distinct(t)
    ensures forall i :: 0 <= i < |t.kids| ==> t.kids[i].entry != t.entry
    ensures Entries(t) == {t.entry} + Below(t) && forall i :: 0 <= i < |t.kids| ==> Distinct(t.kids[i])
  {
  }

  lemma RelinkedAgrees(m: Links, c: Entry, e: Entry, t: Tree)
    requires c in m && (m[c].last == null || m[c].last in m) && e !in m
    requires Entries(t) <= m.Keys && c !in Entries(t) && m[c].last !in Below(t)
    ensures Agree(m, Relinked(m, c, e), t)
  {
    hide Entries;
    hide Below;
    KidsAreIn(t);
  }

  lemma TopLinks(m: Links, t: Tree)
    requires LinkedIn(m, t)
    ensures t.entry in m && Entries(t) <= m.Keys && m[t.entry].last == EntryAt(t.kids, |t.kids| - 1)
    ensures m[t.entry].last == null || m[t.entry].last in m
    ensures forall i :: 0 <= i < |t.kids| ==> LinkedIn(m, t.kids[i])
  {
    KidsAreIn(t);
  }

  lemma KidsOnceRelinked(m: Links, t: Tree, e: Entry, i: nat)
    requires LinkedIn(m, t) && Distinct(t) && e !in m && i < |WithLast(t, e).kids|
    ensures LinkedIn(Relinked(m, t.entry, e), WithLast(t, e).kids[i])
  {
    hide Entries;
    hide Below;
    hide Distinct;
    hide Relinked;
    hide LinkedIn;
    TopLinks(m, t);
    var n := Relinked(m, t.entry, e);
    if i < |t.kids| {
      NotDeep(t, i);
      RelinkedAgrees(m, t.entry, e, t.kids[i]);
      AgreeingLinksLinkAlike(m, n, t.kids[i]);
    } else {
      NewIsALeaf(m, t.entry, e);
      LeafIsLinked(n, e);
    }
  }

  lemma NewIsALeaf(m: Links, c: Entry, e: Entry)
    requires c in m && (m[c].last == null || m[c].last in m) && e !in m
    ensures e in Relinked(m, c, e) && Relinked(m, c, e)[e] == Link(c, null, null, null, null)
  {
  }

  lemma LinkedAtTop(m: Links, t: Tree, e: Entry)
    requires LinkedIn(m, t) && Distinct(t) && e !in m
    ensures LinkedIn(Relinked(m, t.entry, e), WithLast(t, e))
  {
    hide Entries;
    hide Below;
    hide Distinct;
    hide NextAt;
    var u, n := WithLast(t, e), Relinked(m, t.entry, e);
    BelowGrows(t.entry, t.kids, Tree(e, []));
    assert Tree(t.entry, t.kids) == t && u.kids[|t.kids|] == Tree(e, []);
    EntriesOnceRelinked(t, e);
    RowOnceRelinked(m, t, e);
    forall i | 0 <= i < |u.kids| ensures LinkedIn(n, u.kids[i]) {
      KidsOnceRelinked(m, t, e, i);
    }
    TopIsNoKid(t);
    assert IsChild(u.kids, e);
    assert n[u.entry].forward == EntryAt(u.kids, 0);
  }

  lemma EntriesOnceRelinked(t: Tree, e: Entry)
    ensures Entries(WithLast(t, e)) == Entries(t) + {e}
  {
    BelowGrows(t.entry, t.kids, Tree(e, []));
    assert Tree(t.entry, t.kids) == t;
    LeafIsLinked(map[], e);
  }

  lemma RelinkedLeaves(m: Links, c: Entry, e: Entry, d: Entry)
    requires c in m && (m[c].last == null || m[c].last in m) && e !in m && d in m && d != m[c].last
    ensures var n := Relinked(m, c, e);
      d in n && n[d].back == m[d].back && n[d].next == m[d].next && (d != c ==> n[d] == m[d])
  {
  }

  /** Relinking deeper down leaves the pointers of an entry and of its children as they were. */
  lemma RowStays(m: Links, t: Tree, c: Entry, e: Entry, k: nat)
    requires LinkedIn(m, t) && Distinct(t) && k < |t.kids| && c in Entries(t.kids[k]) && e !in m
    requires m[c].last != null ==> m[c].last in Below(t.kids[k])
    requires m[c].last == null || m[c].last in m
    ensures var n := Relinked(m, c, e);
      && t.entry in n && n[t.entry] == m[t.entry]
      && forall i :: 0 <= i < |t.kids| ==> var d := t.kids[i].entry; d in n && n[d].back == m[d].back && n[d].next == m[d].next
  {
    hide Entries;
    hide Below;
    hide Distinct;
    hide Relinked;
    NotDeep(t, k);
    TopIsNoKid(t);
    KidsAreIn(t.kids[k]);
    RelinkedLeaves(m, c, e, t.entry);
    forall i | 0 <= i < |t.kids|
      ensures var n, d := Relinked(m, c, e), t.kids[i].entry; d in n && n[d].back == m[d].back && n[d].next == m[d].next
    {
      RelinkedLeaves(m, c, e, t.kids[i].entry);
    }
  }

  lemma Assemble(n: Links, m: Links, t: Tree, u: Tree)
    requires LinkedIn(m, t) && Entries(u) <= n.Keys && u.entry == t.entry && |u.kids| == |t.kids|
    requires forall i :: 0 <= i < |t.kids| ==> u.kids[i].entry == t.kids[i].entry && LinkedIn(n, u.kids[i])
    requires n[t.entry].forward == m[t.entry].forward && n[t.entry].last == m[t.entry].last && n[t.entry].pref == m[t.entry].pref
    requires forall i :: 0 <= i < |t.kids| ==> var d := t.kids[i].entry; d in n && n[d].back == m[d].back && n[d].next == m[d].next
    ensures LinkedIn(n, u)
  {
    hide Entries;
    hide Below;
    hide IsChild;
    hide NextAt;
    hide EntryAt;
    SameRow(t.kids, u.kids, m[t.entry].pref);
  }

  lemma SameRow(kids: seq<Tree>, us: seq<Tree>, p: Entry?)
    requires |us| == |kids| && forall i :: 0 <= i < |kids| ==> us[i].entry == kids[i].entry
    ensures forall i :: EntryAt(us, i) == EntryAt(kids, i)
    ensures forall i :: 0 <= i < |kids| ==> NextAt(us, us, i) == NextAt(kids, kids, i)
    ensures IsChild(kids, p) ==> IsChild(us, p)
  {
    if IsChild(kids, p) {
      var i :| 0 <= i < |kids| && kids[i].entry == p;
      assert us[i].entry == p;
    }
  }

  lemma {:induction false} LinkedOnceGrafted(m: Links, t: Tree, c: Entry, e: Entry)
    requires LinkedIn(m, t) && Distinct(t) && c in Entries(t) && e !in m
    requires m[c].last == null || m[c].last in m
    ensures LinkedIn(Relinked(m, c, e), Grafted(t, c, Tree(e, [])))
    decreases t
  {
    hide Entries;
    hide Below;
    hide Distinct;
    hide LinkedIn;
    hide Relinked;
    if c == t.entry {
      LinkedAtTop(m, t, e);
    } else {
      var u := Grafted(t, c, Tree(e, []));
      TopLinks(m, t);
      TopIsNoKid(t);
      var n := Relinked(m, c, e);
      var k := GraftedBelow(t, c, Tree(e, []), u);
      LinkedOnceGrafted(m, t.kids[k], c, e);
      LastIsBelowKid(m, t, c, k);
      forall i | 0 <= i < |t.kids| && i != k ensures LinkedIn(n, t.kids[i]) {
        NotDeep(t, i);
        LastIsElsewhere(m, t, c, k, i);
        RelinkedAgrees(m, c, e, t.kids[i]);
        AgreeingLinksLinkAlike(m, n, t.kids[i]);
      }
      RowStays(m, t, c, e, k);
      LeafIsLinked(n, e);
      GraftHasBoth(t, c, Tree(e, []));
      NoneIsLost(m, c, e);
      Assemble(n, m, t, u);
    }
  }

  lemma NoneIsLost(m: Links, c: Entry, e: Entry)
    requires c in m && (m[c].last == null || m[c].last in m)
    ensures Relinked(m, c, e).Keys == m.Keys + {e}
  {
  }

  lemma LastIsBelowKid(m: Links, t: Tree, c: Entry, k: nat)
    requires LinkedIn(m, t) && k < |t.kids| && c in Entries(t.kids[k]) && c in m
    ensures m[c].last != null ==> m[c].last in Below(t.kids[k])
  {
    if m[c].last != null {
      LastIsBelow(m, t.kids[k], c);
    }
  }

  lemma LastIsElsewhere(m: Links, t: Tree, c: Entry, k: nat, i: nat)
    requires Distinct(t) && k < |t.kids| && i < |t.kids| && i != k && c in m
    requires m[c].last != null ==> m[c].last in Below(t.kids[k])
    ensures m[c].last !in Below(t.kids[i])
  {
    assert if i < k then Entries(t.kids[i]) !! Entries(t.kids[k]) else Entries(t.kids[k]) !! Entries(t.kids[i]);
  }

  // ----- visiting -----

  /** The tree `t` is the history's, if it has anything in it, and `es` are its entries. */
  ghost predicate HistoryOf(h: History, t: Tree, es: set<Entry>)
    reads h`start, h`current
    reads Entries(t)`forward, Entries(t)`forwardLast, Entries(t)`forwardPref, Below(t)`back, Below(t)`next
  {
    if h.start == null then h.current == null && es == {}
    else t.entry == h.start && h.current != null && h.current in es && es == Entries(t) && Distinct(t) && Linked(t)
  }

  /** The tree once the entry `e` has been put below the current one, or first of all. */
  ghost function Visited(t: Tree, c: Entry?, e: Entry): (u: Tree) {
    if c == null then Tree(e, []) else Grafted(t, c, Tree(e, []))
  }

  /** The entry `e` becomes the last of those reached from `c`. */
  method SetBelow(c: Entry, e: Entry, ghost es: set<Entry>)
    requires c in es && e !in es && (c.forwardLast == null || c.forwardLast in es)
    requires e.back == c && e.next == e.forward == e.forwardPref == e.forwardLast == null
    modifies es`next, es`forward, es`forwardPref, es`forwardLast, es`children
    ensures LinksOf(es + {e}) == Relinked(old(LinksOf(es)), c, e)
    ensures forall o :: o in es ==> o.children == old(o.children) + if o == c then 1 else 0
  {
    if c.forwardLast != null {
      c.forwardLast.next := e;
    } else {
      c.forward := e;
    }
    c.forwardPref := e;
    c.forwardLast := e;
    c.children := c.children + 1;
  }

  /** The new entry is set below the current one, which from now on leads to it. */
  method Put(h: History, page: Page, ghost t: Tree, ghost es: set<Entry>) returns (e: Entry)
    requires HistoryOf(h, t, es)
    modifies h`start, h`current, es`next, es`forward, es`forwardPref, es`forwardLast, es`children
    ensures fresh(e) && e.page == page && h.current == e && HistoryOf(h, Visited(t, old(h.current), e), es + {e})
    ensures old(h.current) != null ==> old(h.current).forwardPref == e && e.back == old(h.current)
    ensures forall o :: o in es ==> o.children == old(o.children) + if o == old(h.current) then 1 else 0
  {
    hide Entries;
    hide Below;
    hide Distinct;
    hide Linked;
    hide LinkedIn;
    hide Relinked;
    hide Grafted;
    e := new Entry(page);
    e.back := h.current;
    if h.current != null {
      ghost var c, m := h.current, LinksOf(es);
      LinkedAsAValue(es, t);
      TopIsNoKid(t);
      LinksAreKept(m, t, c);
      SetBelow(h.current, e, es);
      LinkedOnceGrafted(m, t, c, e);
      LeafIsLinked(m, e);
      GraftHasBoth(t, c, Tree(e, []));
      PrefersTheNew(m, c, e);
      LinkedAsAValue(es + {e}, Visited(t, c, e));
    } else {
      h.start := e;
      LeafOfItsOwn(e);
    }
    label put:
    h.current := e;
  }

  lemma PrefersTheNew(m: Links, c: Entry, e: Entry)
    requires c in m && (m[c].last == null || m[c].last in m)
    ensures c in Relinked(m, c, e) && Relinked(m, c, e)[c].pref == e
  {
  }

  lemma LeafOfItsOwn(e: Entry)
    requires e.forward == e.forwardPref == e.forwardLast == null
    ensures Linked(Tree(e, [])) && Entries(Tree(e, [])) == {e} && Distinct(Tree(e, []))
  {
    assert UpTo(Tree(e, []), 0) == {};
  }

  lemma LinksAreKept(m: Links, t: Tree, c: Entry)
    requires LinkedIn(m, t) && c in Entries(t)
    ensures c in m && (m[c].last != null ==> m[c].last in Entries(t))
  {
    if m[c].last != null {
      LastIsBelow(m, t, c);
    }
  }

  /** The page shown is the current one's again: only its title may have changed. */
  ghost predicate Again(c: Entry?, url: int)
    reads if c == null then {} else {c}
  {
    c != null && c.page.url == url
  }

  /** A page has been shown: a visit is added for it, unless it is the page the history is at already. */
  method Add(z: Sizes, h: History, url: int, title: string, fragment: int, ghost t: Tree, ghost es: set<Entry>)
      returns (ghost u: Tree, ghost us: set<Entry>)
    requires HistoryOf(h, t, es)
    modifies h, es
    ensures h.current != null && HistoryOf(h, u, us)
    ensures old(Again(h.current, url)) ==>
              && u == t && us == es && h.current == old(h.current)
              && h.current.page == old(h.current.page).(title := title) && h.width == old(h.width) && h.height == old(h.height)
    ensures !old(Again(h.current, url)) ==>
              && fresh(h.current) && h.current.page == Page(url, title, fragment)
              && u == Visited(t, old(h.current), h.current) && us == es + {h.current}
              && (old(h.current) != null ==> h.current.back == old(h.current) && old(h.current).forwardPref == h.current)
              && LaidOut(z, u, z.right / 2, z.bottom / 2)
    ensures forall o :: o in es && o != h.current ==> o.page == old(o.page)
  {
    hide Entries;
    hide Below;
    hide Distinct;
    hide Linked;
    hide LaidOut;
    hide Visited;
    if h.current != null && h.current.page.url == url {
      h.current.page := h.current.page.(title := title);
      u, us := t, es;
    } else {
      var e := Put(h, Page(url, title, fragment), t, es);
      u, us := Visited(t, old(h.current), e), es + {e};
      Layout(z, h, u, us);
    }
  }
}
