/**
 The entries of the backing store: what is known of each, how the blocks they
 hold relate to the use maps, and the order in which they are evicted.
 */
module StoreState {
  import opened BlockMap

  type Url = int

  datatype Kind = DataKind | MetaKind

  /** One of the two things stored for a URL; `ref` counts those who hold its copy in memory. */
  datatype Element = Element(size: nat, block: nat, ref: nat, heap: bool)

  datatype Entry = Entry(lastUsed: int, useCount: nat, invalid: bool, data: Element, meta: Element)

  type Entries = map<Url, Entry>

  function Part(e: Entry, kind: Kind): Element {
    if kind.DataKind? then e.data else e.meta
  }

  function WithPart(e: Entry, kind: Kind, x: Element): Entry {
    if kind.DataKind? then e.(data := x) else e.(meta := x)
  }

  predicate Referenced(e: Entry) {
    e.data.heap || e.meta.heap
  }

  const NEW_ENTRY := Entry(0, 0, false, Element(0, 0, 0, false), Element(0, 0, 0, false))

  // ----- accounting -----

  function Size(e: Entry): nat {
    e.data.size + e.meta.size
  }

  ghost function Total(es: Entries): nat {
    if es.Keys == {} then 0 else var u := Some(es.Keys); Size(es[u]) + Total(es - {u})
  }

  ghost function Some<T>(s: set<T>): (x: T)
    requires s != {}
    ensures x in s
  {
    var x :| x in s; x
  }

  lemma TotalTakesOne(es: Entries)
    requires es.Keys != {}
    ensures var v := Some(es.Keys); v in es && Total(es) == Size(es[v]) + Total(es - {v})
  {
    hide Size;
  }

  lemma {:induction false} TotalWithout(es: Entries, u: Url)
    requires u in es
    ensures Total(es) == Size(es[u]) + Total(es - {u})
    decreases |es|
  {
    hide Size;
    hide Some;
    hide Total;
    var v := Some(es.Keys);
    TotalTakesOne(es);
    if v != u {
      TotalWithout(es - {v}, u);
      TotalWithout(es - {u}, v);
      assert es - {v} - {u} == es - {u} - {v};
    }
  }

  lemma TotalWith(es: Entries, u: Url, e: Entry)
    ensures Total(es[u := e]) == Size(e) + Total(es - {u})
  {
    TotalWithout(es[u := e], u);
    assert es[u := e] - {u} == es - {u};
  }

  // ----- entries and the blocks they hold -----

  /** A copy is in memory just while it is referred to, and an invalid entry is kept only for one that is. */
  predicate EntryOk(e: Entry) {
    (e.data.heap <==> e.data.ref > 0) && (e.meta.heap <==> e.meta.ref > 0) && (e.invalid ==> Referenced(e))
  }

  ghost predicate EntriesOk(es: Entries) {
    forall u :: u in es ==> EntryOk(es[u])
  }

  /** Every block held is marked used, and by one entry only; block 0 stands for none and is never free. */
  ghost predicate BlocksOk(es: Entries, kind: Kind, m: UseMap) {
    && Used(m, 0)
    && (forall u :: u in es && Part(es[u], kind).block != 0 ==> Part(es[u], kind).block < BLOCKS && Used(m, Part(es[u], kind).block))
    && (forall u, v :: u in es && v in es && u != v && Part(es[u], kind).block != 0 ==>
          Part(es[u], kind).block != Part(es[v], kind).block)
  }

  ghost predicate StoreOk(es: Entries, dm: UseMap, mm: UseMap, total: nat) {
    EntriesOk(es) && BlocksOk(es, DataKind, dm) && BlocksOk(es, MetaKind, mm) && total == Total(es)
  }

  /** The map of one kind with a block freed, if the element held one. */
  function Freed(m: UseMap, block: nat): UseMap {
    if 0 < block < BLOCKS then Marked(m, block, false) else m
  }

  /** What that means: the block, and no other, is free afterwards. */
  lemma FreedFrees(m: UseMap, block: nat)
    requires block < BLOCKS
    ensures block == 0 ==> Freed(m, block) == m
    ensures forall x: nat :: x < BLOCKS ==> (Used(Freed(m, block), x) <==> Used(m, x) && (x == 0 || x != block))
  {
    if block != 0 {
      MarksOne(m, block, false);
    }
    hide Used;
    hide Marked;
  }

  lemma BlocksWithout(es: Entries, kind: Kind, m: UseMap, u: Url)
    requires BlocksOk(es, kind, m) && u in es
    ensures BlocksOk(es - {u}, kind, Freed(m, Part(es[u], kind).block))
  {
    var block := Part(es[u], kind).block;
    if block != 0 {
      MarksOne(m, block, false);
    }
    hide Used;
    hide Marked;
  }

  /** An entry's element given a block that was free, or none. */
  lemma BlocksWith(es: Entries, kind: Kind, m: UseMap, u: Url, e: Entry)
    requires BlocksOk(es, kind, m)
    requires var block := Part(e, kind).block; block != 0 ==> block < BLOCKS && !Used(m, block)
    ensures var block := Part(e, kind).block;
            BlocksOk(es[u := e], kind, if 0 < block < BLOCKS then Marked(m, block, true) else m)
  {
    var block := Part(e, kind).block;
    if block != 0 {
      MarksOne(m, block, true);
    }
    hide Used;
    hide Marked;
  }

  lemma BlocksSame(es: Entries, kind: Kind, m: UseMap, u: Url, e: Entry)
    requires BlocksOk(es, kind, m)
    requires if u in es then Part(e, kind).block == Part(es[u], kind).block else Part(e, kind).block == 0
    ensures BlocksOk(es[u := e], kind, m)
  {
    hide Used;
  }

  /** An entry changed without changing its blocks. */
  lemma EntryChanged(es: Entries, dm: UseMap, mm: UseMap, total: nat, u: Url, e: Entry)
    requires StoreOk(es, dm, mm, total) && u in es && EntryOk(e)
    requires e.data.block == es[u].data.block && e.meta.block == es[u].meta.block && Size(e) == Size(es[u])
    ensures StoreOk(es[u := e], dm, mm, total)
  {
    BlocksSame(es, DataKind, dm, u, e);
    BlocksSame(es, MetaKind, mm, u, e);
    TotalWith(es, u, e);
    TotalWithout(es, u);
    hide BlocksOk;
  }

  /** An entry removed, its blocks freed. */
  lemma EntryRemoved(es: Entries, dm: UseMap, mm: UseMap, total: nat, u: Url)
    requires StoreOk(es, dm, mm, total) && u in es
    ensures total >= Size(es[u])
    ensures StoreOk(es - {u}, Freed(dm, es[u].data.block), Freed(mm, es[u].meta.block), total - Size(es[u]))
  {
    BlocksWithout(es, DataKind, dm, u);
    BlocksWithout(es, MetaKind, mm, u);
    TotalWithout(es, u);
    hide BlocksOk;
  }

  // ----- what becomes of the blocks -----

  /** A block of one kind held by an entry that has gone. */
  ghost predicate HeldByGone(was: Entries, now: Entries, kind: Kind, x: nat) {
    x != 0 && exists u :: u in was && u !in now && Part(was[u], kind).block == x
  }

  /** The blocks of the entries that have gone are free, and all others are in use, or not, as they were. */
  ghost predicate FreedAll(was: Entries, now: Entries, kind: Kind, m: UseMap, m': UseMap) {
    forall x: nat :: x < BLOCKS ==> (Used(m', x) <==> Used(m, x) && !HeldByGone(was, now, kind, x))
  }

  /** Entries may have gone; those left hold the blocks they held. */
  ghost predicate Fewer(was: Entries, now: Entries) {
    forall u :: u in now ==> u in was && now[u].data.block == was[u].data.block && now[u].meta.block == was[u].meta.block
  }

  lemma NoneGone(was: Entries, now: Entries, kind: Kind, m: UseMap)
    requires forall u :: u in was ==> u in now
    ensures FreedAll(was, now, kind, m, m)
  {
    hide Used;
  }

  lemma OneGone(es: Entries, kind: Kind, m: UseMap, m': UseMap, u: Url)
    requires u in es && Part(es[u], kind).block < BLOCKS
    requires var b := Part(es[u], kind).block;
             forall x: nat :: x < BLOCKS ==> (Used(m', x) <==> Used(m, x) && (x == 0 || x != b))
    ensures FreedAll(es, es - {u}, kind, m, m')
  {
    hide Used;
    forall x: nat | x < BLOCKS
      ensures HeldByGone(es, es - {u}, kind, x) <==> x != 0 && x == Part(es[u], kind).block
    {
      assert u in es && u !in es - {u};
    }
  }

  lemma FreedThen(a: Entries, b: Entries, c: Entries, kind: Kind, m: UseMap, m1: UseMap, m2: UseMap)
    requires FreedAll(a, b, kind, m, m1) && FreedAll(b, c, kind, m1, m2) && Fewer(a, b) && Fewer(b, c)
    ensures FreedAll(a, c, kind, m, m2) && Fewer(a, c)
  {
    hide Used;
    forall x: nat | x < BLOCKS
      ensures HeldByGone(a, c, kind, x) <==> HeldByGone(a, b, kind, x) || HeldByGone(b, c, kind, x)
    {
      if x != 0 {
        if u :| u in a && u !in c && Part(a[u], kind).block == x {
          assert u in b ==> Part(b[u], kind).block == x;
        }
        if u :| u in b && u !in c && Part(b[u], kind).block == x {
          assert u in a && Part(a[u], kind).block == x;
        }
      }
    }
  }

  lemma FewerWithout(es: Entries, u: Url)
    ensures Fewer(es, es - {u})
  {
  }

  lemma EntryInOrder(es: Entries, dm: UseMap, mm: UseMap, total: nat, u: Url)
    requires StoreOk(es, dm, mm, total) && u in es
    ensures EntryOk(es[u])
  {
    hide BlocksOk;
    hide Total;
  }

  /** An entry changed, its blocks not. */
  lemma SameBlocks(es: Entries, u: Url, e: Entry)
    requires u in es && e.data.block == es[u].data.block && e.meta.block == es[u].meta.block
    ensures Fewer(es, es[u := e]) && forall v :: v in es ==> v in es[u := e]
  {
  }

  lemma NothingGone(was: Entries, now: Entries, dm: UseMap, mm: UseMap)
    requires forall u :: u in was ==> u in now
    ensures FreedAll(was, now, DataKind, dm, dm) && FreedAll(was, now, MetaKind, mm, mm) && (was == now ==> Fewer(was, now))
  {
    NoneGone(was, now, DataKind, dm);
    NoneGone(was, now, MetaKind, mm);
  }

  lemma BothGone(a: Entries, b: Entries, c: Entries, dm: UseMap, mm: UseMap, dm': UseMap, mm': UseMap)
    requires FreedAll(a, b, DataKind, dm, dm) && FreedAll(a, b, MetaKind, mm, mm) && Fewer(a, b) && Fewer(b, c)
    requires FreedAll(b, c, DataKind, dm, dm') && FreedAll(b, c, MetaKind, mm, mm')
    ensures FreedAll(a, c, DataKind, dm, dm') && FreedAll(a, c, MetaKind, mm, mm') && Fewer(a, c)
  {
    hide FreedAll;
    hide Fewer;
    FreedThen(a, b, c, DataKind, dm, dm, dm');
    FreedThen(a, b, c, MetaKind, mm, mm, mm');
  }

  lemma BlocksInOrder(es: Entries, dm: UseMap, mm: UseMap, total: nat, kind: Kind)
    requires StoreOk(es, dm, mm, total)
    ensures BlocksOk(es, kind, if kind.DataKind? then dm else mm)
    ensures forall u :: u in es ==> Part(es[u], kind).block < BLOCKS
  {
    hide Used;
    hide Total;
  }

  /** Every block in use is held by some entry. */
  ghost predicate NoneLeaked(es: Entries, kind: Kind, m: UseMap) {
    forall x: nat :: 0 < x < BLOCKS && Used(m, x) ==> Owned(es, kind, x)
  }

  ghost predicate Owned(es: Entries, kind: Kind, x: nat) {
    exists u :: u in es && Part(es[u], kind).block == x
  }

  lemma FewerOwnLess(was: Entries, now: Entries, kind: Kind, x: nat)
    requires Fewer(was, now)
    ensures Owned(now, kind, x) ==> Owned(was, kind, x)
    ensures HeldByGone(was, now, kind, x) ==> Owned(was, kind, x)
  {
    if u :| u in now && Part(now[u], kind).block == x {
      assert u in was && Part(was[u], kind).block == x;
    }
  }

  /** Removing entries neither leaks a block nor makes up for one that is leaked. */
  lemma RemovalLeaksNone(was: Entries, now: Entries, kind: Kind, m: UseMap, m': UseMap)
    requires FreedAll(was, now, kind, m, m') && Fewer(was, now)
    ensures NoneLeaked(was, kind, m) <==> NoneLeaked(now, kind, m')
  {
    hide Used;
    forall x: nat | 0 < x < BLOCKS && Used(m, x) && Owned(was, kind, x) && Used(m', x) ensures Owned(now, kind, x) {
      var u :| u in was && Part(was[u], kind).block == x;
      assert u in now;
    }
    forall x: nat | 0 < x < BLOCKS && Used(m, x) && !Owned(was, kind, x) ensures Used(m', x) && !Owned(now, kind, x) {
      FewerOwnLess(was, now, kind, x);
    }
  }

  /**
   Storing leaks a block exactly if what it overwrites had one and the new is small:
   it is given another, or none, and the old one stays in use for nobody.
   */
  lemma StoringLeaksExactly(es: Entries, kind: Kind, m: UseMap, m': UseMap, u: Url, e: Entry, alloc: bool)
    requires BlocksOk(es, kind, m)
    requires var old_, new_ := if u in es then Part(es[u], kind).block else 0, Part(e, kind).block;
             if alloc then (new_ != 0 ==> new_ < BLOCKS && !Used(m, new_)) else new_ == old_
    requires var new_ := Part(e, kind).block;
             forall x: nat :: x < BLOCKS ==> (Used(m', x) <==> Used(m, x) || (alloc && x == new_))
    ensures NoneLeaked(es[u := e], kind, m') <==>
            NoneLeaked(es, kind, m) && !(alloc && u in es && Part(es[u], kind).block != 0)
  {
    hide Used;
    var es', b := es[u := e], Part(e, kind).block;
    if alloc && u in es && Part(es[u], kind).block != 0 {
      var x := Part(es[u], kind).block;
      assert Used(m', x) && x != b;
      forall v | v in es' ensures Part(es'[v], kind).block != x {
      }
      assert !Owned(es', kind, x);
    } else {
      forall x: nat | 0 < x < BLOCKS && Used(m', x) ensures Owned(es', kind, x) <==> x == b || Owned(es, kind, x) {
        assert u in es' && Part(es'[u], kind).block == b;
        if v :| v in es && Part(es[v], kind).block == x {
          assert v != u ==> v in es' && Part(es'[v], kind).block == x;
        }
      }
      forall x: nat | 0 < x < BLOCKS && Used(m, x) ensures Used(m', x) {
      }
    }
  }

  /** What the store knows after a restart: nothing is in memory, but counts and flags are as they were written. */
  function Reloaded(e: Entry): Entry {
    e.(data := e.data.(heap := false), meta := e.meta.(heap := false))
  }

  /** A restart leaves an entry in order exactly when nothing of it was held at the time. */
  lemma ReloadIsCleanExactly(e: Entry)
    requires EntryOk(e)
    ensures EntryOk(Reloaded(e)) <==> e.data.ref == 0 && e.meta.ref == 0
  {
  }

  // ----- the order of eviction -----

  /** Entries that hold nothing in memory first, then those used least, then those unused longest. */
  function Compar(a: Entry, b: Entry): int {
    if !a.data.heap && b.data.heap then -1
    else if a.data.heap && !b.data.heap then 1
    else if !a.meta.heap && b.meta.heap then -1
    else if a.meta.heap && !b.meta.heap then 1
    else if a.useCount < b.useCount then -1
    else if a.useCount > b.useCount then 1
    else if a.lastUsed < b.lastUsed then -1
    else if a.lastUsed > b.lastUsed then 1
    else 0
  }

  lemma ComparIsATotalPreorder(a: Entry, b: Entry, c: Entry)
    ensures Compar(a, b) == -Compar(b, a) && Compar(a, a) == 0
    ensures Compar(a, b) <= 0 && Compar(b, c) <= 0 ==> Compar(a, c) <= 0
    ensures Compar(a, b) < 0 && Compar(b, c) <= 0 ==> Compar(a, c) < 0
  {
  }

  /** An entry that is free to go sorts before every one that is not. */
  lemma UnreferencedFirst(a: Entry, b: Entry)
    requires !Referenced(a) && Referenced(b)
    ensures Compar(a, b) < 0
  {
  }

  /** Any order a sort by `Compar` may produce. */
  ghost predicate EvictionOrder(order: seq<Url>, es: Entries) {
    && (forall u :: u in es ==> u in order) && (forall i :: 0 <= i < |order| ==> order[i] in es)
    && (forall i, j :: 0 <= i < j < |order| ==> order[i] != order[j])
    && (forall i, j :: 0 <= i < j < |order| ==> Compar(es[order[i]], es[order[j]]) <= 0)
  }

  function Inserted(order: seq<Url>, u: Url, i: nat): seq<Url>
    requires i <= |order|
  {
    order[..i] + [u] + order[i..]
  }

  lemma InsertedAt(order: seq<Url>, u: Url, i: nat, a: nat)
    requires i <= |order| && a <= |order|
    ensures Inserted(order, u, i)[a] == if a < i then order[a] else if a == i then u else order[a - 1]
  {
  }

  /** The place where an entry belongs in an order. */
  ghost predicate Belongs(order: seq<Url>, es: Entries, e: Entry, i: nat) {
    && i <= |order|
    && (forall j :: 0 <= j < |order| ==> order[j] in es)
    && (forall j :: 0 <= j < i ==> Compar(es[order[j]], e) <= 0)
    && (forall j :: i <= j < |order| ==> Compar(e, es[order[j]]) <= 0)
  }

  lemma PlaceFound(order: seq<Url>, es: Entries, e: Entry, i: nat)
    requires EvictionOrder(order, es) && i <= |order|
    requires forall j :: 0 <= j < i ==> Compar(es[order[j]], e) <= 0
    requires i < |order| ==> Compar(es[order[i]], e) > 0
    ensures Belongs(order, es, e, i)
  {
    forall j | i <= j < |order| ensures Compar(e, es[order[j]]) <= 0 {
      ComparIsATotalPreorder(es[order[i]], e, e);
      ComparIsATotalPreorder(e, es[order[i]], es[order[j]]);
    }
    hide Compar;
  }

  lemma OrderedPair(order: seq<Url>, es: Entries, u: Url, e: Entry, i: nat, a: nat, b: nat)
    requires EvictionOrder(order, es) && u !in es && Belongs(order, es, e, i) && a < b <= |order|
    ensures var r, es' := Inserted(order, u, i), es[u := e];
            r[a] != r[b] && r[a] in es' && r[b] in es' && Compar(es'[r[a]], es'[r[b]]) <= 0
  {
    InsertedAt(order, u, i, a);
    InsertedAt(order, u, i, b);
    hide Compar;
    hide Inserted;
  }

  /** An entry put where it belongs in the order. */
  lemma InsertKeepsOrder(order: seq<Url>, es: Entries, u: Url, e: Entry, i: nat)
    requires EvictionOrder(order, es) && u !in es && Belongs(order, es, e, i)
    ensures EvictionOrder(Inserted(order, u, i), es[u := e])
  {
    var r, es' := Inserted(order, u, i), es[u := e];
    forall x | x in es' ensures x in r {
      if x != u {
        assert x in order[..i] || x in order[i..] by {
          assert order == order[..i] + order[i..];
        }
      }
    }
    hide Compar;
    hide Inserted;
    hide Belongs;
    forall a | 0 <= a < |r| ensures r[a] in es' {
      InsertedAt(order, u, i, a);
      assert a != i ==> r[a] in order;
    }
    forall a, b | 0 <= a < b < |r| ensures r[a] != r[b] && Compar(es'[r[a]], es'[r[b]]) <= 0 {
      OrderedPair(order, es, u, e, i, a, b);
    }
  }

  // ----- what an eviction leaves -----

  /** The first `k` of an order have been invalidated: those not referred to are gone, the others are marked to go. */
  ghost predicate EvictedTo(was: Entries, now: Entries, order: seq<Url>, k: nat) {
    && k <= |order|
    && (forall u :: u in now ==> u in was)
    && (forall u :: u in was && u !in order[..k] ==> u in now && now[u] == was[u])
    && (forall u :: u in was && u in order[..k] && !Referenced(was[u]) ==> u !in now)
    && (forall u :: u in was && u in order[..k] && Referenced(was[u]) ==> u in now && now[u] == was[u].(invalid := true))
  }

  lemma InOrderOnce(order: seq<Url>, es: Entries, k: nat)
    requires EvictionOrder(order, es) && k < |order|
    ensures order[k] in es && order[k] !in order[..k] && order[..k + 1] == order[..k] + [order[k]]
  {
    hide Compar;
  }

  lemma EvictedOneMore(was: Entries, now: Entries, order: seq<Url>, k: nat, next: Entries)
    requires EvictionOrder(order, was) && EvictedTo(was, now, order, k) && k < |order|
    requires order[k] in now
    requires next == if Referenced(now[order[k]]) then now[order[k] := now[order[k]].(invalid := true)] else now - {order[k]}
    ensures EvictedTo(was, next, order, k + 1)
  {
    hide Compar;
    hide EvictionOrder;
    hide Referenced;
    InOrderOnce(order, was, k);
    NextIsUntouched(was, now, order, k);
    assert forall u :: u in order[..k + 1] <==> u in order[..k] || u == order[k];
  }

  /** The next to be invalidated is still as it was. */
  lemma NextIsUntouched(was: Entries, now: Entries, order: seq<Url>, k: nat)
    requires EvictionOrder(order, was) && EvictedTo(was, now, order, k) && k < |order|
    ensures order[k] in now && now[order[k]] == was[order[k]]
  {
    var u := order[k];
    assert u in was && u !in order[..k];
  }

  /** What the first `k` entries of an order take up. */
  ghost function SizeOfFirst(was: Entries, order: seq<Url>, k: nat): nat
    requires k <= |order| && forall i :: 0 <= i < |order| ==> order[i] in was
  {
    if k == 0 then 0 else SizeOfFirst(was, order, k - 1) + Size(was[order[k - 1]])
  }

  lemma UnreferencedBefore(was: Entries, order: seq<Url>, p: nat, u: Url)
    requires EvictionOrder(order, was) && p < |order| && Referenced(was[order[p]]) && u in was && !Referenced(was[u])
    ensures u in order[..p]
  {
    var i :| 0 <= i < |order| && order[i] == u;
    UnreferencedFirst(was[u], was[order[p]]);
    ComparIsATotalPreorder(was[order[p]], was[u], was[u]);
    assert i < p;
    assert order[..p][i] == u;
  }

  /** Once an entry that is referred to has been reached, every entry that is not has gone. */
  lemma ReferencedReached(was: Entries, now: Entries, order: seq<Url>, k: nat, p: nat)
    requires EvictionOrder(order, was) && EvictedTo(was, now, order, k) && p < k && Referenced(was[order[p]])
    ensures forall u :: u in now ==> Referenced(now[u])
  {
    forall u | u in was && !Referenced(was[u]) ensures u in order[..k] {
      UnreferencedBefore(was, order, p, u);
      assert order[..p] <= order[..k];
    }
  }

  lemma AllReached(was: Entries, now: Entries, order: seq<Url>)
    requires EvictionOrder(order, was) && EvictedTo(was, now, order, |order|)
    ensures forall u :: u in now ==> Referenced(now[u])
  {
    assert order[..|order|] == order;
  }

  lemma InOrderSomewhere(order: seq<Url>, es: Entries, u: Url)
    requires EvictionOrder(order, es) && u in es
    ensures u in order
  {
    hide Compar;
  }

  lemma OrderedAt(order: seq<Url>, es: Entries, i: nat, j: nat)
    requires EvictionOrder(order, es) && i < j < |order|
    ensures order[i] in es && order[j] in es && Compar(es[order[i]], es[order[j]]) <= 0
  {
    hide Compar;
  }

  lemma GoneIsFree(was: Entries, now: Entries, order: seq<Url>, k: nat, gone: Url)
    requires EvictedTo(was, now, order, k) && gone in was && gone !in now
    ensures !Referenced(was[gone]) && gone in order[..k]
  {
    hide Referenced;
  }

  /** Nothing that could have gone stays while something to be evicted after it has gone, and nothing referred to is lost. */
  lemma EvictionIsAPrefix(was: Entries, now: Entries, order: seq<Url>, k: nat, gone: Url, kept: Url)
    requires EvictionOrder(order, was) && EvictedTo(was, now, order, k)
    requires gone in was && gone !in now && kept in now && !Referenced(was[kept])
    ensures !Referenced(was[gone]) && Compar(was[gone], was[kept]) <= 0
  {
    hide EvictionOrder;
    hide Compar;
    hide Referenced;
    assert gone in order[..k] && kept !in order[..k];
    var i :| 0 <= i < k && order[i] == gone;
    InOrderSomewhere(order, was, kept);
    var j :| 0 <= j < |order| && order[j] == kept;
    assert j >= k;
    OrderedAt(order, was, i, j);
    assert order[..k][i] == gone;
    GoneIsFree(was, now, order, k, gone);
  }

  /** Of two entries nobody refers to, the one that goes first was used less often or, if as often, no later. */
  lemma LeastUsedFirst(a: Entry, b: Entry)
    requires Compar(a, b) <= 0 && !Referenced(a) && !Referenced(b)
    ensures a.useCount < b.useCount || (a.useCount == b.useCount && a.lastUsed <= b.lastUsed)
  {
  }

  /** What is gone was used no more, and as often no later, than anything left that might have gone. */
  ghost predicate LeastUsedGone(was: Entries, now: Entries) {
    forall gone, kept :: gone in was && gone !in now && kept in now && !Referenced(now[kept]) ==>
      var a, b := was[gone], now[kept];
      !Referenced(a) && (a.useCount < b.useCount || (a.useCount == b.useCount && a.lastUsed <= b.lastUsed))
  }

  lemma LeastUsedGo(was: Entries, now: Entries, order: seq<Url>, k: nat)
    requires EvictionOrder(order, was) && EvictedTo(was, now, order, k)
    ensures LeastUsedGone(was, now)
  {
    hide EvictionOrder;
    hide Compar;
    forall gone, kept | gone in was && gone !in now && kept in now && !Referenced(now[kept])
      ensures var a, b := was[gone], now[kept];
              !Referenced(a) && (a.useCount < b.useCount || (a.useCount == b.useCount && a.lastUsed <= b.lastUsed))
    {
      KeptIsAsItWas(was, now, order, k, kept);
      EvictionIsAPrefix(was, now, order, k, gone, kept);
      LeastUsedFirst(was[gone], was[kept]);
    }
  }

  lemma KeptIsAsItWas(was: Entries, now: Entries, order: seq<Url>, k: nat, kept: Url)
    requires EvictedTo(was, now, order, k) && kept in now && !Referenced(now[kept])
    ensures kept in was && now[kept] == was[kept]
  {
  }

  lemma FewerItself(es: Entries)
    ensures Fewer(es, es)
  {
  }

  /** Half way through an eviction: what has been counted as removed is gone, unless something referred to was met. */
  ghost predicate Evicting(was: Entries, now: Entries, order: seq<Url>, k: nat, removed: nat, total: int, total0: int) {
    && EvictionOrder(order, was) && EvictedTo(was, now, order, k) && removed == SizeOfFirst(was, order, k)
    && ((exists p :: 0 <= p < k && Referenced(was[order[p]])) || total + removed == total0)
  }

  lemma EvictingStarts(was: Entries, order: seq<Url>, total: int)
    requires EvictionOrder(order, was)
    ensures Evicting(was, was, order, 0, 0, total, total)
  {
  }

  lemma EvictingNext(was: Entries, now: Entries, order: seq<Url>, k: nat, removed: nat, total: int, total0: int)
    requires Evicting(was, now, order, k, removed, total, total0) && k < |order|
    ensures order[k] in now && removed == SizeOfFirst(was, order, k) && order[k] in was && now[order[k]] == was[order[k]]
  {
    NextIsUntouched(was, now, order, k);
  }

  lemma NoneReferencedBefore(was: Entries, order: seq<Url>, k: nat)
    requires EvictionOrder(order, was) && k < |order| && !Referenced(was[order[k]])
    ensures forall p :: 0 <= p < k ==> !Referenced(was[order[p]])
  {
    forall p | 0 <= p < k ensures !Referenced(was[order[p]]) {
      ComparIsATotalPreorder(was[order[p]], was[order[k]], was[order[k]]);
      if Referenced(was[order[p]]) {
        UnreferencedFirst(was[order[k]], was[order[p]]);
      }
    }
  }

  lemma EvictingOn(was: Entries, now: Entries, order: seq<Url>, k: nat, removed: nat, total: int, total0: int, next: Entries, total': int)
    requires Evicting(was, now, order, k, removed, total, total0) && k < |order| && order[k] in now
    requires
      var e := now[order[k]];
      if Referenced(e) then next == now[order[k] := e.(invalid := true)] && total' == total
      else next == now - {order[k]} && total' == total - Size(e)
    ensures var more := removed + Size(now[order[k]]);
            && Evicting(was, next, order, k + 1, more, total', total0)
            && (total' + more == total0 || forall u :: u in next ==> Referenced(next[u]))
  {
    NextIsUntouched(was, now, order, k);
    EvictedOneMore(was, now, order, k, next);
    if Referenced(was[order[k]]) {
      ReferencedReached(was, next, order, k + 1, k);
    } else {
      NoneReferencedBefore(was, order, k);
    }
    hide EvictedTo;
    hide EvictionOrder;
    hide Compar;
  }

  lemma EvictingEnds(was: Entries, now: Entries, order: seq<Url>, k: nat, removed: nat, total: int, total0: int)
    requires Evicting(was, now, order, k, removed, total, total0)
    ensures EvictionOrder(order, was) && EvictedTo(was, now, order, k) && removed == SizeOfFirst(was, order, k)
    ensures k == |order| ==> forall u :: u in now ==> Referenced(now[u])
  {
    if k == |order| {
      AllReached(was, now, order);
    }
  }

  /** An eviction goes no further than it must: before its last entry, no more than the hysteresis had been counted. */
  ghost predicate StopsInTime(was: Entries, order: seq<Url>, k: nat, hysteresis: nat) {
    && (forall i :: 0 <= i < |order| ==> order[i] in was) && k <= |order|
    && (k > 0 ==> SizeOfFirst(was, order, k - 1) <= hysteresis)
  }

  lemma InTime(was: Entries, now: Entries, order: seq<Url>, k: nat, removed: nat, total: int, total0: int, hysteresis: nat)
    requires Evicting(was, now, order, k, removed, total, total0) && removed <= hysteresis
    ensures StopsInTime(was, order, k, hysteresis)
    ensures k < |order| ==> StopsInTime(was, order, k + 1, hysteresis)
  {
  }

  // ----- storing, fetching and releasing -----

  /** An entry given something new to hold: it is in memory, held once, in a block of its own if one was to be had. */
  function Stored(e: Entry, kind: Kind, size: nat, block: nat, now: int): Entry {
    WithPart(e.(useCount := 1, lastUsed := now), kind, Element(size, block, 1, true))
  }

  function Used1(e: Entry, now: int): Entry {
    e.(useCount := e.useCount + 1, lastUsed := now)
  }

  /** One more holder of an element's copy in memory. */
  function Held(x: Element): Element {
    if x.heap then x.(ref := x.ref + 1) else x.(heap := true, ref := 1)
  }

  /** One holder fewer; the last frees the copy. */
  function LetGo(x: Element): Element {
    if !x.heap then x else if x.ref <= 1 then x.(ref := 0, heap := false) else x.(ref := x.ref - 1)
  }

  lemma HeldAndLetGo(x: Element)
    requires x.heap <==> x.ref > 0
    ensures LetGo(Held(x)) == x && (Held(x).heap <==> Held(x).ref > 0) && (LetGo(x).heap <==> LetGo(x).ref > 0)
  {
  }

  /** An entry stored or overwritten: the new block, if any, was free, or the old one is kept. */
  lemma EntryStored(es: Entries, dm: UseMap, mm: UseMap, total: nat, u: Url, kind: Kind, size: nat, block: nat, now: int, alloc: bool)
    requires StoreOk(es, dm, mm, total)
    requires var e := if u in es then es[u] else NEW_ENTRY;
             var m := if kind.DataKind? then dm else mm;
             !Part(e, kind).heap && if alloc then block != 0 ==> block < BLOCKS && !Used(m, block) else block == Part(e, kind).block
    ensures
      var e := if u in es then es[u] else NEW_ENTRY;
      var marks := alloc && 0 < block < BLOCKS;
      && total + size >= Part(e, kind).size
      && StoreOk(es[u := Stored(e, kind, size, block, now)],
                 if marks && kind.DataKind? then Marked(dm, block, true) else dm,
                 if marks && kind.MetaKind? then Marked(mm, block, true) else mm,
                 total + size - Part(e, kind).size)
  {
    var e := if u in es then es[u] else NEW_ENTRY;
    var now_ := Stored(e, kind, size, block, now);
    StoredTotal(es, total, u, kind, size, block, now);
    if kind.DataKind? {
      BlocksSame(es, MetaKind, mm, u, now_);
      if alloc {
        BlocksWith(es, DataKind, dm, u, now_);
      } else {
        BlocksSame(es, DataKind, dm, u, now_);
      }
    } else {
      BlocksSame(es, DataKind, dm, u, now_);
      if alloc {
        BlocksWith(es, MetaKind, mm, u, now_);
      } else {
        BlocksSame(es, MetaKind, mm, u, now_);
      }
    }
    assert EntryOk(e);
    assert EntriesOk(es[u := now_]);
    hide BlocksOk;
    hide Used;
    hide Total;
  }

  lemma StoredTotal(es: Entries, total: nat, u: Url, kind: Kind, size: nat, block: nat, now: int)
    requires total == Total(es)
    ensures
      var e := if u in es then es[u] else NEW_ENTRY;
      total + size >= Part(e, kind).size
      && Total(es[u := Stored(e, kind, size, block, now)]) == total + size - Part(e, kind).size
  {
    var e := if u in es then es[u] else NEW_ENTRY;
    TotalWith(es, u, Stored(e, kind, size, block, now));
    if u in es {
      TotalWithout(es, u);
    } else {
      assert es - {u} == es;
    }
  }
}
