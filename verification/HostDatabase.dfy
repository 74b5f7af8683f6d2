/**
 The URL database's hosts: the host tree and the 28 search trees that must
 reflect it. A host is added to both and found through the search trees alone.
 */
module HostDatabase {
  import opened Common
  import opened HostOrder
  import opened HostNames
  import opened HostFiling
  import opened HostTree
  import opened AaTree
  import opened SearchIndex

  /** A search tree is in order, and holds exactly the hosts added to it. */
  ghost predicate Reflects(root: HostPart, k: nat, t: Index, added: set<(nat, Labels)>) {
    && Balanced(t) && Sorted(InOrder(t)) && Rooted(root, t)
    && (forall key :: Has(InOrder(t), key) <==> (k, FoldAll(key)) in added)
  }

  /** The table of search trees, as values. */
  ghost predicate TableValid(root: HostPart, shapes: seq<Index>, nodes: set<SearchNode>, hosts: set<HostPart>,
                             added: set<(nat, Labels)>)
  {
    && |shapes| == NUM_SEARCH_TREES
    && (forall k :: 0 <= k < |shapes| ==> Nodes(shapes[k]) <= nodes)
    && (forall k :: 0 <= k < |shapes| ==> Reflects(root, k, shapes[k], added))
    && (forall i, j :: 0 <= i < j < |shapes| ==> Nodes(shapes[i]) !! Nodes(shapes[j]))
    && (forall n :: n in nodes ==> n.data in hosts)
  }

  /** One insertion, seen from its tree. */
  lemma InsertedShape(root: HostPart, t: Index, n: SearchNode)
    requires Balanced(t) && Sorted(InOrder(t)) && Rooted(root, t)
    requires Chained(root, n.data) && n.data != root
    ensures var t' := Insert(t, n.data.labels, n);
            && Balanced(t') && Sorted(InOrder(t')) && Rooted(root, t') && Nodes(t') <= Nodes(t) + {n}
            && (forall key :: Has(InOrder(t'), key) <==>
                  Has(InOrder(t), key) || FoldAll(n.data.labels) == FoldAll(key))
  {
    hide *;
    var x := Item(n.data.labels, n);
    InsertKeepsBalance(t, n.data.labels, n);
    InsertRefinesSortedInsert(t, n.data.labels, n);
    var i := SortedInsertAddsOne(InOrder(t), x);
    InsertNodes(t, n);
    InsertRooted(root, t, n);
    forall key
      ensures Has(InOrder(Insert(t, n.data.labels, n)), key) <==>
              Has(InOrder(t), key) || FoldAll(n.data.labels) == FoldAll(key)
    {
      HasAdded(InOrder(t), SortedInsert(InOrder(t), x), i, x, key);
      CompareZero(n.data.labels, key);
    }
  }

  lemma InsertedNodes(t: Index, labels: Labels, n: SearchNode)
    ensures Nodes(Insert(t, labels, n)) <= Nodes(t) + {n}
  {
    InsertNodes(t, n);
  }

  /** One insertion, seen from the tree it is made in and from the others. */
  lemma InsertedReflects(root: HostPart, j: nat, t: Index, added: set<(nat, Labels)>, k: nat, n: SearchNode)
    requires Reflects(root, j, t, added) && Chained(root, n.data) && n.data != root
    ensures Reflects(root, j, if j == k then Insert(t, n.data.labels, n) else t, added + {(k, FoldAll(n.data.labels))})
  {
    hide Balanced;
    hide Sorted;
    hide Rooted;
    hide Insert;
    hide Has;
    hide Chained;
    hide FoldAll;
    hide InOrder;
    if j == k {
      InsertedShape(root, t, n);
    }
  }

  /** One insertion, seen from the whole table. */
  lemma InsertedTable(root: HostPart, shapes: seq<Index>, nodes: set<SearchNode>, hosts: set<HostPart>,
                      added: set<(nat, Labels)>, k: nat, n: SearchNode)
    requires TableValid(root, shapes, nodes, hosts, added) && k < NUM_SEARCH_TREES && n !in nodes
    requires Chained(root, n.data) && n.data != root && n.data in hosts
    ensures TableValid(root, shapes[k := Insert(shapes[k], n.data.labels, n)], nodes + {n}, hosts,
                       added + {(k, FoldAll(n.data.labels))})
  {
    hide Reflects;
    hide Insert;
    hide Nodes;
    hide Chained;
    hide FoldAll;
    InsertedNodes(shapes[k], n.data.labels, n);
    var shapes' := shapes[k := Insert(shapes[k], n.data.labels, n)];
    forall j | 0 <= j < NUM_SEARCH_TREES
      ensures Reflects(root, j, shapes'[j], added + {(k, FoldAll(n.data.labels))})
    {
      InsertedReflects(root, j, shapes[j], added, k, n);
    }
    forall i, j | 0 <= i < j < NUM_SEARCH_TREES
      ensures Nodes(shapes'[i]) !! Nodes(shapes'[j])
    {
      assert Nodes(shapes[i]) !! Nodes(shapes[j]);
      assert Nodes(shapes[i]) <= nodes && Nodes(shapes[j]) <= nodes;
    }
  }

  class HostDb {
    const inet: Inet
    const root: HostPart
    /** The roots of the search trees. */
    var trees: seq<SearchNode?>

    /** Everything in the host tree, the shape of each search tree and its nodes. */
    ghost var hosts: set<HostPart>
    ghost var shapes: seq<Index>
    ghost var nodes: set<SearchNode>
    /** What is filed: labels, case folded, and the tree each is in; and the hosts added so far, in order. */
    ghost var added: set<(nat, Labels)>
    ghost var names: seq<string>

    constructor (inet: Inet)
      ensures this.inet == inet && Valid()
      ensures names == [] && hosts == {root} && fresh(root)
    {
      this.inet := inet;
      var r := new HostPart.Root();
      root, hosts := r, {r};
      trees, shapes := seq(NUM_SEARCH_TREES, _ => null), seq(NUM_SEARCH_TREES, _ => Empty);
      nodes, added, names := {}, {}, [];
    }

    // ----- the host tree -----

    /** The labels of some nodes, case folded. */
    static ghost function Tops(kids: seq<HostPart>): set<string> {
      set k | k in kids :: Fold(k.part)
    }

    /** No two children of a node share a label. */
    ghost predicate Distinct(kids: seq<HostPart>) {
      forall i, j :: 0 <= i < j < |kids| ==> CaseCompare(kids[i].part, kids[j].part) != 0
    }

    ghost predicate TreeValid()
      reads this`hosts, hosts
    {
      && root in hosts && root.parent == null && root.labels == []
      && (forall h :: h in hosts ==> Chained(root, h) && Distinct(h.children))
      && (forall h, k :: h in hosts && k in h.children ==> k in hosts && k != root && k.parent == h)
      && (forall h :: h in hosts && h != root ==> h.parent in hosts && h in h.parent.children)
    }

    /** No host is in the tree twice. */
    lemma {:induction false} HostsAreUnique(a: HostPart, b: HostPart)
      requires TreeValid() && a in hosts && b in hosts
      requires FoldAll(a.labels) == FoldAll(b.labels)
      ensures a == b
      decreases |a.labels|
    {
      assert |FoldAll(a.labels)| == |a.labels| && |FoldAll(b.labels)| == |b.labels|;
      if a.labels != [] {
        FoldHead(a.part, a.parent.labels);
        FoldHead(b.part, b.parent.labels);
        assert FoldAll(a.labels)[1..] == FoldAll(a.parent.labels);
        assert FoldAll(b.labels)[1..] == FoldAll(b.parent.labels);
        HostsAreUnique(a.parent, b.parent);
        CaseCompareZero(a.part, b.part);
        CaseCompareZero(b.part, a.part);
      }
    }

    /** The search of a child list by label. */
    method FindChild(d: HostPart, part: string) returns (e: HostPart?)
      ensures e != null ==> e in d.children && CaseCompare(part, e.part) == 0
      ensures e == null ==> forall k :: k in d.children ==> CaseCompare(part, k.part) != 0
    {
      for i := 0 to |d.children|
        invariant forall j :: 0 <= j < i ==> CaseCompare(part, d.children[j].part) != 0
      {
        if CaseCompare(part, d.children[i].part) == 0 {
          return d.children[i];
        }
      }
      return null;
    }

    /** `urldb_add_host_node` */
    method AddHostNode(part: string, parent: HostPart) returns (d: HostPart)
      requires TreeValid() && parent in hosts
      requires forall k :: k in parent.children ==> CaseCompare(part, k.part) != 0
      modifies this`hosts, parent
      ensures TreeValid() && fresh(d) && hosts == old(hosts) + {d}
      ensures d.part == part && d.labels == [part] + parent.labels && d != root
      ensures parent.children == [d] + old(parent.children)
    {
      hide CaseCompare;
      d := new HostPart(part, parent);
      parent.children := [d] + parent.children;
      hosts := hosts + {d};
    }

    // ----- the search trees -----

    ghost predicate IndexValid()
      reads this`trees, this`shapes, this`nodes, this`hosts, this`added, nodes
    {
      && |trees| == |shapes|
      && TableValid(root, shapes, nodes, hosts, added)
      && (forall k :: 0 <= k < |shapes| ==> Forms(trees[k], shapes[k]))
    }

    /** Only the chosen tree is relinked. */
    method Relink(k: nat, d: HostPart) returns (ghost n: SearchNode)
      requires IndexValid() && Chained(root, d) && d != root && k < NUM_SEARCH_TREES
      modifies this`trees, nodes
      ensures fresh(n) && n.data == d && |trees| == |shapes|
      ensures var shapes' := shapes[k := Insert(shapes[k], d.labels, n)];
              forall j :: 0 <= j < |shapes| ==> Forms(trees[j], shapes'[j])
    {
      ghost var t := shapes[k];
      assert Reflects(root, k, t, added);
      ApartFrom(shapes, nodes, added, k);
      hide TableValid;
      hide Insert;
      hide Chained;
      hide Forms;
      hide Nodes;
      var r;
      r, n := InsertData(root, trees[k], d, t, Nodes(t));
      forall j | 0 <= j < |shapes| && j != k
        ensures Forms(trees[j], shapes[j])
      {
        assert Nodes(shapes[j]) !! Nodes(t);
        assert old(Forms(trees[j], shapes[j]));
      }
      trees := trees[k := r];
    }

    lemma ApartFrom(shapes: seq<Index>, nodes: set<SearchNode>, added: set<(nat, Labels)>, k: nat)
      requires TableValid(root, shapes, nodes, hosts, added) && k < |shapes|
      ensures Nodes(shapes[k]) <= nodes
      ensures forall j :: 0 <= j < |shapes| && j != k ==> Nodes(shapes[j]) !! Nodes(shapes[k])
    {
      hide Nodes;
    }

    /** `urldb_search_insert`, into one of the trees. */
    method InsertHost(k: nat, d: HostPart)
      requires IndexValid() && d in hosts && Chained(root, d) && d != root && k < NUM_SEARCH_TREES
      modifies this`trees, this`shapes, this`nodes, this`added, nodes
      ensures IndexValid()
      ensures added == old(added) + {(k, FoldAll(d.labels))}
    {
      hide TableValid;
      hide Insert;
      hide Chained;
      hide Forms;
      AsManyTrees(root, shapes, nodes, hosts, added);
      ghost var n := Relink(k, d);
      InsertedTable(root, shapes, nodes, hosts, added, k, n);
      Record(k, d, n);
    }

    /** What the relinked trees now are. */
    ghost method Record(k: nat, d: HostPart, n: SearchNode)
      requires |trees| == |shapes| && k < |shapes|
      requires var shapes' := shapes[k := Insert(shapes[k], d.labels, n)];
               && TableValid(root, shapes', nodes + {n}, hosts, added + {(k, FoldAll(d.labels))})
               && forall j :: 0 <= j < |shapes| ==> Forms(trees[j], shapes'[j])
      modifies this`shapes, this`nodes, this`added
      ensures IndexValid()
      ensures added == old(added) + {(k, FoldAll(d.labels))} && nodes == old(nodes) + {n}
    {
      hide TableValid;
      hide Insert;
      shapes := shapes[k := Insert(shapes[k], d.labels, n)];
      nodes := nodes + {n};
      added := added + {(k, FoldAll(d.labels))};
    }

    /** The child of `d` with the given label, added if there is none. */
    method ChildFor(d: HostPart, part: string) returns (e: HostPart)
      requires TreeValid() && d in hosts
      modifies this`hosts, d
      ensures TreeValid() && old(hosts) <= hosts && fresh(hosts - old(hosts)) && e in hosts && e != root
      ensures FoldAll(e.labels) == [Fold(part)] + FoldAll(d.labels)
      ensures Tops(d.children) == old(Tops(d.children)) + {Fold(part)}
    {
      var c := FindChild(d, part);
      if c == null {
        ghost var kids := d.children;
        e := AddHostNode(part, d);
        assert Chained(root, e);
        FoldHead(part, d.labels);
        NewTop(kids, e);
      } else {
        e := c;
        CaseCompareZero(part, e.part);
        assert e in hosts && Chained(root, e);
        FoldHead(e.part, d.labels);
      }
    }

    static lemma NewTop(kids: seq<HostPart>, e: HostPart)
      ensures Tops([e] + kids) == Tops(kids) + {Fold(e.part)}
    {
      var kids' := [e] + kids;
      assert kids'[0] == e && kids'[1..] == kids;
    }

    static lemma AsManyTrees(root: HostPart, shapes: seq<Index>, nodes: set<SearchNode>, hosts: set<HostPart>,
                             added: set<(nat, Labels)>)
      requires TableValid(root, shapes, nodes, hosts, added)
      ensures |shapes| == NUM_SEARCH_TREES
    {
    }

    lemma MoreHosts(shapes: seq<Index>, nodes: set<SearchNode>, a: set<HostPart>, b: set<HostPart>, added: set<(nat, Labels)>)
      requires TableValid(root, shapes, nodes, a, added) && a <= b
      ensures TableValid(root, shapes, nodes, b, added)
    {
    }

    /** What has been filed and what is next to the root is what comes of the hosts added. */
    ghost predicate Recorded()
      reads this`added, this`names, root
    {
      added == Filed(inet, names) && Tops(root.children) == Ends(inet, names)
    }

    ghost predicate Valid()
      reads this`hosts, hosts, this`trees, this`shapes, this`nodes, this`added, this`names, nodes, root
    {
      TreeValid() && IndexValid() && Recorded()
    }

    /** The labels next to the root when those of a name have been entered as far as `done`. */
    static ghost function TopsWith(tops: set<string>, done: Labels): set<string> {
      if done == [] then tops else tops + {Fold(done[|done| - 1])}
    }

    /** `d` is the node of the labels of a name that have been entered. */
    ghost predicate At(d: HostPart, done: Labels, tops: set<string>)
      reads this`hosts, root
    {
      d in hosts && FoldAll(d.labels) == FoldAll(done) && (d == root <==> done == [])
      && Tops(root.children) == TopsWith(tops, done)
    }

    /** One more label of a name. */
    method Descend(d: HostPart, part: string, ghost done: Labels, ghost tops: set<string>) returns (e: HostPart)
      requires TreeValid() && IndexValid() && At(d, done, tops)
      modifies this`hosts, d
      ensures TreeValid() && IndexValid() && old(hosts) <= hosts && fresh(hosts - old(hosts))
      ensures At(e, [part] + done, tops)
    {
      ghost var before := hosts;
      FoldHead(part, done);
      e := ChildFor(d, part);
      hide TreeValid;
      hide Chained;
      hide FoldAll;
      MoreHosts(shapes, nodes, before, hosts, added);
      hide TableValid;
      TopsWithOneMore(tops, part, done);
    }

    static lemma TopsWithOneMore(tops: set<string>, part: string, done: Labels)
      ensures TopsWith(tops, [part] + done) == if done == [] then tops + {Fold(part)} else TopsWith(tops, done)
    {
    }

    /** The arm of `urldb_add_host` for addresses: a child of the root, whole; one that is there is not filed. */
    method AddAddress(host: string) returns (d: HostPart)
      requires Valid() && IsIpAddress(inet, host)
      modifies this`trees, this`shapes, this`nodes, this`hosts, this`added, this`names, nodes, root
      ensures Valid() && old(hosts) <= hosts && names == old(names) + [host]
      ensures d in hosts && FoldAll(d.labels) == FoldAll([host])
    {
      hide Filed;
      hide Ends;
      hide IsIpAddress;
      hide TreeValid;
      hide IndexValid;
      hide FoldAll;
      hide Tops;
      OneMoreEnd(inet, names, host);
      OneMoreFiled(inet, names, host);
      TakenIsEnd(inet, names, host);
      AddressEntry(inet, host);
      var e := FindChild(root, host);
      if e != null {
        TopIsHost(e, host);
        names := names + [host];
        return e;
      }
      NotAmongTops(host);
      d := NewAddress(host);
      names := names + [host];
    }

    lemma TopIsHost(e: HostPart, host: string)
      requires TreeValid() && e in root.children && CaseCompare(host, e.part) == 0
      ensures e in hosts && FoldAll(e.labels) == FoldAll([host]) && Fold(host) in Tops(root.children)
    {
      assert e in hosts && Chained(root, e);
      CaseCompareZero(host, e.part);
      SameFold([e.part], [host]);
    }

    lemma NotAmongTops(host: string)
      requires forall k :: k in root.children ==> CaseCompare(host, k.part) != 0
      ensures Fold(host) !in Tops(root.children)
    {
      forall k | k in root.children ensures Fold(k.part) != Fold(host) {
        CaseCompareZero(host, k.part);
      }
    }

    /** The node of an address that has none. */
    method NewAddress(host: string) returns (d: HostPart)
      requires TreeValid() && IndexValid()
      requires forall k :: k in root.children ==> CaseCompare(host, k.part) != 0
      modifies this`trees, this`shapes, this`nodes, this`hosts, this`added, nodes, root
      ensures TreeValid() && IndexValid() && old(hosts) <= hosts
      ensures d in hosts && FoldAll(d.labels) == FoldAll([host])
      ensures added == old(added) + {(ST_IP, FoldAll([host]))}
      ensures Tops(root.children) == old(Tops(root.children)) + {Fold(host)}
    {
      hide TableValid;
      ghost var before, kids := hosts, root.children;
      d := AddHostNode(host, root);
      assert d.labels == [host] && Chained(root, d);
      MoreHosts(shapes, nodes, before, hosts, added);
      NewTop(kids, d);
      InsertHost(ST_IP, d);
    }

    lemma RootIsHost()
      requires TreeValid()
      ensures root in hosts && root.labels == []
    {
    }

    /** The leaf of a name is filed. */
    method InsertLeaf(k: nat, d: HostPart)
      requires TreeValid() && IndexValid() && d in hosts && d != root && k < NUM_SEARCH_TREES
      modifies this`trees, this`shapes, this`nodes, this`added, nodes
      ensures TreeValid() && IndexValid()
      ensures added == old(added) + {(k, FoldAll(d.labels))}
    {
      assert Chained(root, d);
      hide TreeValid;
      hide IndexValid;
      hide Chained;
      InsertHost(k, d);
    }

    lemma SameFold(a: Labels, b: Labels)
      requires |a| == |b| == 1 && Fold(a[0]) == Fold(b[0])
      ensures FoldAll(a) == FoldAll(b)
    {
    }

    /**
     `urldb_add_host`: the labels of the name, from the last to the first, are
     found or made in the host tree; the leaf goes into the search tree chosen by
     its own label.
     */
    method AddHost(host: string) returns (d: HostPart)
      requires Valid()
      modifies this`trees, this`shapes, this`nodes, this`hosts, this`added, this`names, nodes, hosts
      ensures Valid() && old(hosts) <= hosts && names == old(names) + [host]
      ensures d in hosts && FoldAll(d.labels) == FoldAll(NodeLabels(inet, host))
      ensures Caseless(inet) ==> (AllFound() <==> old(AllFound()) && Fits(inet, old(names), host))
      ensures Caseless(inet) && !IsIpAddress(inet, host) ==> (Found(host) <==> FitsName(inet, host))
      ensures Caseless(inet) && IsIpAddress(inet, host) && Unrivalled(inet, old(names), host) ==>
              (Found(host) <==> !Taken(inet, old(names), host) || (ST_IP, [Fold(host)]) in old(added))
    {
      hide TreeValid;
      hide IndexValid;
      hide IsIpAddress;
      hide Fits;
      hide FitsName;
      hide Found;
      hide AllFound;
      hide Taken;
      hide Filed;
      hide Unrivalled;
      OneMoreFits(inet, names, host);
      if Caseless(inet) {
        FoundExactly();
      }
      RootIsHost();
      if IsIpAddress(inet, host) {
        d := AddAddress(host);
      } else {
        d := AddName(host);
      }
      if Caseless(inet) {
        FoundExactly();
        OwnFoundExactly(old(names), host);
      }
    }

    method AddName(host: string) returns (d: HostPart)
      requires Valid() && !IsIpAddress(inet, host)
      modifies this`trees, this`shapes, this`nodes, this`hosts, this`added, this`names, nodes, hosts
      ensures Valid() && old(hosts) <= hosts && names == old(names) + [host]
      ensures d in hosts && FoldAll(d.labels) == FoldAll(NodeLabels(inet, host))
    {
      hide TreeValid;
      hide IndexValid;
      hide SplitDots;
      hide FoldAll;
      hide TreeOf;
      hide IsIpAddress;
      hide Filed;
      hide Ends;
      hide At;
      var buf := Truncate(host, MAX_HOST);
      ghost var tops, done := Tops(root.children), [];
      RootIsAt();
      d := root;
      assert SplitDots(buf) + [] == SplitDots(buf);
      while true
        invariant TreeValid() && IndexValid() && old(hosts) <= hosts && fresh(hosts - old(hosts)) && At(d, done, tops)
        invariant d in hosts
        invariant trees == old(trees) && nodes == old(nodes) && added == old(added) && names == old(names)
        invariant NodeLabels(inet, host) == SplitDots(buf) + done
        decreases |buf|
      {
        SplitAtLastDot(buf);
        var part := LastDot(buf);
        if part < 0 {
          d := Descend(d, buf, done, tops);
          assert NodeLabels(inet, host) == [buf] + done;
          FileName(host, TreeOf(inet, buf), d);
          return;
        }
        var l := buf[part + 1..];
        d := Descend(d, l, done, tops);
        AtIsHost(d, [l] + done, tops);
        assert SplitDots(buf[..part]) + [l] + done == SplitDots(buf[..part]) + ([l] + done);
        done := [l] + done;
        buf := buf[..part];
      }
    }

    lemma AtIsHost(d: HostPart, done: Labels, tops: set<string>)
      requires At(d, done, tops)
      ensures d in hosts
    {
    }

    lemma RootIsAt()
      requires TreeValid()
      ensures root in hosts && At(root, [], Tops(root.children))
    {
    }

    /** The leaf of a name goes into a search tree, and the name into the records. */
    method FileName(host: string, k: nat, d: HostPart)
      requires TreeValid() && IndexValid() && !IsIpAddress(inet, host) && k == FiledIn(inet, host)
      requires added == Filed(inet, names) && At(d, NodeLabels(inet, host), Ends(inet, names))
      modifies this`trees, this`shapes, this`nodes, this`added, this`names, nodes
      ensures Valid() && names == old(names) + [host]
      ensures d in hosts && FoldAll(d.labels) == FoldAll(NodeLabels(inet, host))
    {
      hide TreeValid;
      hide IndexValid;
      hide SplitDots;
      hide FoldAll;
      hide TreeOf;
      hide IsIpAddress;
      hide Filed;
      hide Ends;
      OneMoreEnd(inet, names, host);
      OneMoreFiled(inet, names, host);
      InsertLeaf(k, d);
      names := names + [host];
    }

    /** `urldb_search_find` in the tree chosen by the whole name. */
    method FindNode(host: string) returns (r: Option<SearchNode>)
      requires Valid()
      ensures r == Sought(host)
    {
      var k := TreeOf(inet, host);
      assert Reflects(root, k, shapes[k], added);
      r := Find(inet, root, trees[k], host, shapes[k], nodes);
    }

    /** What a host leads to. */
    ghost function Sought(host: string): Option<SearchNode>
      requires |shapes| == NUM_SEARCH_TREES
      reads this`shapes
    {
      LookupHost(inet, shapes[TreeOf(inet, host)], host)
    }

    /** A host leads to its own node, the one that adding it returns. */
    ghost predicate Found(host: string)
      requires |shapes| == NUM_SEARCH_TREES
      reads this`shapes
    {
      Sought(host).Some? && FoldAll(Sought(host).value.data.labels) == FoldAll(NodeLabels(inet, host))
    }

    ghost predicate AllFound()
      requires |shapes| == NUM_SEARCH_TREES
      reads this`shapes, this`names
    {
      forall n :: n in names ==> Found(n)
    }

    /** What a search tree holds for some labels is the one node of the host tree with them. */
    lemma LookupIsHost(k: nat, key: Labels)
      requires IndexValid() && k < NUM_SEARCH_TREES
      ensures match Lookup(shapes[k], key)
              case None => (k, FoldAll(key)) !in added
              case Some(n) => (k, FoldAll(key)) in added && n.data in hosts && FoldAll(n.data.labels) == FoldAll(key)
    {
      var t := shapes[k];
      assert Reflects(root, k, t, added);
      assert Nodes(t) <= nodes && forall n :: n in nodes ==> n.data in hosts;
      ItemsAreNodes(trees[k], t);
      hide *;
      LookupFinds(t, key);
      if Lookup(t, key).Some? {
        FoundHost(t, key, Lookup(t, key).value);
      }
    }

    lemma FoundHost(t: Index, key: Labels, at: SearchNode)
      requires Holds(InOrder(t), key, at)
      requires forall x :: x in InOrder(t) ==> x.at in Nodes(t) && x.key == x.at.data.labels
      ensures Has(InOrder(t), key) && at in Nodes(t) && FoldAll(at.data.labels) == FoldAll(key)
    {
      var s := InOrder(t);
      var i :| 0 <= i < |s| && s[i].at == at && CompareLabels(s[i].key, key) == 0;
      assert s[i] in s;
      CompareZero(s[i].key, key);
    }

    /** What is found by a first label alone is some host filed among the addresses that begins with it. */
    lemma FirstIsHost(first: string)
      requires IndexValid()
      ensures match LookupFirst(shapes[ST_IP], first)
              case None => forall ls: Labels :: ls != [] && Fold(ls[0]) == Fold(first) ==> (ST_IP, FoldAll(ls)) !in added
              case Some(n) => n.data in hosts && n.data.labels != [] && Fold(n.data.labels[0]) == Fold(first)
                              && (ST_IP, FoldAll(n.data.labels)) in added
    {
      var t := shapes[ST_IP];
      assert Reflects(root, ST_IP, t, added);
      assert Nodes(t) <= nodes && forall n :: n in nodes ==> n.data in hosts;
      ItemsAreNodes(trees[ST_IP], t);
      hide *;
      LookupFirstFinds(t, first);
      match LookupFirst(t, first)
      case None =>
        forall ls: Labels | ls != [] && Fold(ls[0]) == Fold(first) ensures !Has(InOrder(t), ls) {
          NoneHas(InOrder(t), first, ls);
        }
      case Some(n) =>
        BeginsIsHost(t, first, n);
    }

    lemma NoneHas(s: seq<Item<SearchNode>>, first: string, ls: Labels)
      requires NoneBegins(s, first) && ls != [] && Fold(ls[0]) == Fold(first)
      ensures !Has(s, ls)
    {
      forall i | 0 <= i < |s| ensures CompareLabels(s[i].key, ls) != 0 {
        CompareZero(s[i].key, ls);
        if FoldAll(s[i].key) == FoldAll(ls) {
          SameLabels(ls, s[i].key, 0);
          CaseCompareZero(s[i].key[0], first);
        }
      }
    }

    lemma BeginsIsHost(t: Index, first: string, at: SearchNode)
      requires Begins(InOrder(t), first, at)
      requires forall x :: x in InOrder(t) ==> x.at in Nodes(t) && x.key == x.at.data.labels
      ensures at in Nodes(t) && at.data.labels != [] && Fold(at.data.labels[0]) == Fold(first)
      ensures Has(InOrder(t), at.data.labels)
    {
      var s := InOrder(t);
      var i :| 0 <= i < |s| && s[i].at == at && FirstCompare(s[i].key, first) == 0;
      assert s[i] in s;
      CaseCompareZero(s[i].key[0], first);
      CompareZero(s[i].key, s[i].key);
    }

    // ----- which hosts are found -----

    /** A name that has been added is found exactly if it is not too long and its first label is not taken for an address. */
    lemma NameFoundExactly(host: string)
      requires Valid() && Caseless(inet) && host in names && !IsIpAddress(inet, host)
      ensures Found(host) <==> FitsName(inet, host)
    {
      LookupIsHost(TreeOf(inet, host), SplitDots(host));
      NameFiledExactly(inet, names, host);
      hide IndexValid;
      hide TreeValid;
      hide Filed;
      hide Ends;
      hide IsIpAddress;
      if FitsName(inet, host) {
        WholeName(inet, host);
      }
    }

    /** An address is not found unless it is filed. */
    lemma AddressFoundIsFiled(host: string)
      requires IndexValid() && IsIpAddress(inet, host) && Found(host)
      ensures (ST_IP, [Fold(host)]) in added
    {
      FirstIsHost(host);
      AddressEntry(inet, host);
    }

    /** An address that no name added begins with is found exactly if it is filed, and what is found is its node. */
    lemma AddressFoundExactly(host: string)
      requires Valid() && IsIpAddress(inet, host) && Unrivalled(inet, names, host)
      ensures Sought(host).Some? <==> (ST_IP, [Fold(host)]) in added
      ensures Found(host) <==> (ST_IP, [Fold(host)]) in added
    {
      hide Filed;
      hide Ends;
      hide Unrivalled;
      FirstIsHost(host);
      AddressEntry(inet, host);
      hide IndexValid;
      hide TreeValid;
      hide IsIpAddress;
      if Sought(host).Some? {
        var ls := Sought(host).value.data.labels;
        assert |FoldAll(ls)| == |ls| && FoldAll(ls)[0] == Fold(ls[0]);
        FiledSingle(inet, names, host, FoldAll(ls));
      } else {
        assert FoldAll([host]) == [Fold(host)];
      }
    }

    /** Whether the host added last is found, from what there was before. */
    lemma OwnFoundExactly(earlier: seq<string>, host: string)
      requires Valid() && Caseless(inet) && names == earlier + [host]
      ensures !IsIpAddress(inet, host) ==> (Found(host) <==> FitsName(inet, host))
      ensures IsIpAddress(inet, host) && Unrivalled(inet, earlier, host) ==>
              (Found(host) <==> !Taken(inet, earlier, host) || (ST_IP, [Fold(host)]) in Filed(inet, earlier))
    {
      hide IndexValid;
      hide TreeValid;
      hide IsIpAddress;
      hide FitsName;
      hide Found;
      hide Filed;
      hide Ends;
      hide Caseless;
      hide Unrivalled;
      hide Taken;
      AllTrees();
      assert host == names[|names| - 1] && host in names;
      if !IsIpAddress(inet, host) {
        NameFoundExactly(host);
      } else if Unrivalled(inet, earlier, host) {
        AddressIsNoRival(inet, earlier, host);
        AddressFoundExactly(host);
        OneMoreFiled(inet, earlier, host);
        AddressEntry(inet, host);
      }
    }

    lemma AllTrees()
      requires IndexValid()
      ensures |shapes| == NUM_SEARCH_TREES
    {
    }

    /** Every host that has been added is found exactly if each fitted when it came. */
    lemma FoundExactly()
      requires Valid() && Caseless(inet)
      ensures AllFound() <==> AllFit(inet, names)
    {
      hide IndexValid;
      hide TreeValid;
      hide IsIpAddress;
      hide FitsName;
      hide Found;
      hide Filed;
      hide Ends;
      hide Caseless;
      AllTrees();
      if AllFit(inet, names) {
        AllNamesFit(inet, names);
        forall n | n in names ensures Found(n) {
          FitIsFound(n);
        }
      }
      if AllFound() {
        forall n | n in names && !IsIpAddress(inet, n) ensures FitsName(inet, n) {
          NameFoundExactly(n);
        }
        forall k | 0 <= k < |names| ensures Fits(inet, names[..k], names[k]) {
          FoundIsFit(k);
        }
      }
    }

    lemma FitIsFound(n: string)
      requires Valid() && Caseless(inet) && AllFit(inet, names) && NamesFit(inet, names) && n in names
      ensures Found(n)
    {
      hide IndexValid;
      hide TreeValid;
      hide IsIpAddress;
      hide FitsName;
      hide Found;
      hide Filed;
      hide Ends;
      hide Caseless;
      if IsIpAddress(inet, n) {
        var i :| 0 <= i < |names| && names[i] == n;
        AddressIsFiled(inet, names, i);
        AddressEntry(inet, n);
        FitAreNoRivals(inet, names, n);
        AddressFoundExactly(n);
      } else {
        NameFoundExactly(n);
      }
    }

    lemma FoundIsFit(k: nat)
      requires Valid() && Caseless(inet) && NamesFit(inet, names) && k < |names| && Found(names[k])
      ensures Fits(inet, names[..k], names[k])
    {
      hide IndexValid;
      hide TreeValid;
      hide IsIpAddress;
      hide FitsName;
      hide Found;
      hide Filed;
      hide Ends;
      hide Caseless;
      if IsIpAddress(inet, names[k]) {
        AddressFoundIsFiled(names[k]);
        AddressEntry(inet, names[k]);
        if !Fits(inet, names[..k], names[k]) {
          UnfitAddressIsNotFiled(inet, names, k);
        }
      } else {
        assert names[k] in names;
      }
    }

    /**
     What is found for a name is the one node of the host tree with its labels, if
     they are filed where it is looked for; for an address, a node that begins with
     it, if there is one filed among the addresses. Where every host added is found,
     so is nothing else, and never another's node.
     */
    method FindHost(host: string) returns (d: HostPart?)
      requires Valid()
      ensures d == null <==> Sought(host) == None
      ensures d != null ==> d in hosts && d == Sought(host).value.data
      ensures !IsIpAddress(inet, host) ==>
              (d != null <==> (TreeOf(inet, host), FoldAll(SplitDots(host))) in added)
              && (d != null ==> FoldAll(d.labels) == FoldAll(SplitDots(host)))
      ensures IsIpAddress(inet, host) && d != null ==> d.labels != [] && Fold(d.labels[0]) == Fold(host)
      ensures IsIpAddress(inet, host) && d == null ==>
              forall ls: Labels :: ls != [] && Fold(ls[0]) == Fold(host) ==> (ST_IP, FoldAll(ls)) !in added
      ensures Caseless(inet) && AllFound() ==>
              (d != null <==> exists i :: 0 <= i < |names| && FoldAll(HostLabels(inet, names[i])) == FoldAll(HostLabels(inet, host)))
              && (d != null ==> forall h :: h in hosts ==> (h == d <==> FoldAll(h.labels) == FoldAll(HostLabels(inet, host))))
    {
      var r := FindNode(host);
      SoughtIsHost(host);
      if Caseless(inet) && AllFound() {
        SoughtIsOwn(host);
      }
      d := if r == None then null else r.value.data;
    }

    lemma SoughtIsHost(host: string)
      requires Valid()
      ensures Sought(host).Some? ==> Sought(host).value.data in hosts
      ensures !IsIpAddress(inet, host) ==>
              (Sought(host).Some? <==> (TreeOf(inet, host), FoldAll(SplitDots(host))) in added)
              && (Sought(host).Some? ==> FoldAll(Sought(host).value.data.labels) == FoldAll(SplitDots(host)))
      ensures IsIpAddress(inet, host) && Sought(host).Some? ==>
              Sought(host).value.data.labels != [] && Fold(Sought(host).value.data.labels[0]) == Fold(host)
      ensures IsIpAddress(inet, host) && Sought(host).None? ==>
              forall ls: Labels :: ls != [] && Fold(ls[0]) == Fold(host) ==> (ST_IP, FoldAll(ls)) !in added
    {
      LookupIsHost(TreeOf(inet, host), SplitDots(host));
      FirstIsHost(host);
    }

    lemma SoughtIsOwn(host: string)
      requires Valid() && Caseless(inet) && AllFound()
      ensures Sought(host).Some? <==>
              exists i :: 0 <= i < |names| && FoldAll(HostLabels(inet, names[i])) == FoldAll(HostLabels(inet, host))
      ensures Sought(host).Some? ==> forall h :: h in hosts ==>
                (h == Sought(host).value.data <==> FoldAll(h.labels) == FoldAll(HostLabels(inet, host)))
    {
      FoundExactly();
      AllNamesFit(inet, names);
      KeyFiledExactly(inet, names, host);
      SoughtIsHost(host);
      if IsIpAddress(inet, host) {
        FitAreNoRivals(inet, names, host);
        AddressFoundExactly(host);
        AddressEntry(inet, host);
      }
      if Sought(host).Some? {
        var d := Sought(host).value.data;
        forall h | h in hosts && FoldAll(h.labels) == FoldAll(d.labels) ensures h == d {
          HostsAreUnique(h, d);
        }
      }
    }

    /** A host leads to the same node whatever the case of its letters. */
    lemma FoundInAnyCase(host: string, other: string)
      requires Valid() && Caseless(inet) && SameLetters(host, other)
      ensures Sought(other) == Sought(host)
    {
      hide TreeValid;
      hide Recorded;
      hide IsIpAddress;
      hide SplitDots;
      AllTrees();
      FoldEqual(host, other);
      SameTree(inet, host, other);
      SplitAlike(host, other);
      CompareEqual(SplitDots(host), SplitDots(other));
      CaseCompareEqual(host, other);
      var t := shapes[TreeOf(inet, host)];
      hide *;
      LookupAlike(t, SplitDots(host), SplitDots(other));
      LookupFirstAlike(t, host, other);
      HostLookedUp(inet, t, host, other);
    }

    static lemma HostLookedUp(inet: Inet, t: Index, host: string, other: string)
      requires Caseless(inet) && Fold(host) == Fold(other)
      requires Lookup(t, SplitDots(host)) == Lookup(t, SplitDots(other)) && LookupFirst(t, host) == LookupFirst(t, other)
      ensures LookupHost(inet, t, host) == LookupHost(inet, t, other)
    {
      hide IsIpAddress;
    }

    // ----- two hosts that are lost -----

    /** `[::12].example` is not found once it has been added, but for the address `[::12]`, which never was, its node is. */
    lemma BracketedNameIsLost()
      requires Valid() && ReadsBrackets(inet) && names == ["[::12].example"]
      ensures Sought("[::12].example") == None
      ensures Sought("[::12]").Some? && FoldAll(Sought("[::12]").value.data.labels) == FoldAll(["[::12]", "example"])
    {
      hide IsIpAddress;
      hide Filed;
      hide Fits;
      hide SplitDots;
      BracketedFirst(inet);
      BracketsAreAddress(inet);
      SoughtIsHost("[::12].example");
      SoughtIsHost("[::12]");
      FirstIsHost("[::12]");
    }

    /** After `a.[::12]`, the address `[::12]` is not found though it is added. */
    lemma LateAddressIsLost()
      requires Valid() && ReadsBrackets(inet) && names == ["a.[::12]", "[::12]"]
      ensures Sought("[::12]") == None
    {
      hide IsIpAddress;
      hide Filed;
      hide Fits;
      hide SplitDots;
      BracketedLast(inet);
      FirstIsHost("[::12]");
    }
  }
}
