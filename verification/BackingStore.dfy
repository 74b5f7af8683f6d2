/**
 The backing store: entries are stored, fetched, released and invalidated, and
 evicted when there is too much of them.
 */
module BackingStore {
  import opened BlockMap
  import opened StoreState

  datatype Result = Ok | NotFound | Permission | ReadError

  const BLOCK_SIZE := 8192
  const MAX_REF := 255

  class Store {
    const limit: nat
    const hysteresis: nat
    const dataMap: array<Byte>
    const metaMap: array<Byte>
    var entries: Entries
    var totalAlloc: nat

    ghost predicate Valid()
      reads this, dataMap, metaMap
    {
      && dataMap != metaMap && dataMap.Length == BYTES && metaMap.Length == BYTES
      && StoreOk(entries, dataMap[..], metaMap[..], totalAlloc)
    }

    /** A store with nothing in it; block 0 of either kind is never given out. */
    constructor (limit: nat, hysteresis: nat)
      ensures Valid() && fresh(dataMap) && fresh(metaMap) && entries == map[] && totalAlloc == 0
      ensures this.limit == limit && this.hysteresis == hysteresis
    {
      this.limit, this.hysteresis := limit, hysteresis;
      entries, totalAlloc := map[], 0;
      dataMap := new Byte[BYTES](_ => 0);
      metaMap := new Byte[BYTES](_ => 0);
      new;
      dataMap[0] := 1;
      metaMap[0] := 1;
      assert IsSet(1, 0);
    }

    function Map(kind: Kind): array<Byte> {
      if kind.DataKind? then dataMap else metaMap
    }

    // ----- invalidating -----

    /** The element's block is free again and its size no longer counts. */
    method InvalidateElement(e: Entry, kind: Kind)
      requires dataMap != metaMap && dataMap.Length == BYTES && metaMap.Length == BYTES
      requires Part(e, kind).block < BLOCKS && Part(e, kind).size <= totalAlloc
      modifies this`totalAlloc, Map(kind)
      ensures totalAlloc == old(totalAlloc) - Part(e, kind).size
      ensures Map(kind)[..] == Freed(old(Map(kind)[..]), Part(e, kind).block)
      ensures Part(e, kind).block == 0 ==> Map(kind)[..] == old(Map(kind)[..])
      ensures Part(e, kind).block != 0 ==> !Used(Map(kind)[..], Part(e, kind).block)
      ensures forall x: nat :: x < BLOCKS && x != Part(e, kind).block ==> (Used(Map(kind)[..], x) <==> Used(old(Map(kind)[..]), x))
    {
      var elem := Part(e, kind);
      FreedFrees(Map(kind)[..], elem.block);
      if elem.block != 0 {
        FreeBlock(Map(kind), elem.block);
      }
      totalAlloc := totalAlloc - elem.size;
    }

    /** As `Valid`, but the entry of `u` may be marked to go though nobody refers to it any longer. */
    ghost predicate ValidBut(u: Url)
      reads this, dataMap, metaMap
    {
      && dataMap != metaMap && dataMap.Length == BYTES && metaMap.Length == BYTES && u in entries
      && StoreOk(entries[u := entries[u].(invalid := false)], dataMap[..], metaMap[..], totalAlloc)
    }

    /** An entry someone still refers to is marked to go; any other goes. */
    method InvalidateEntry(u: Url)
      requires ValidBut(u)
      modifies this`entries, this`totalAlloc, dataMap, metaMap
      ensures Valid() && totalAlloc <= old(totalAlloc)
      ensures var e := old(entries)[u];
              if Referenced(e) then entries == old(entries)[u := e.(invalid := true)] && totalAlloc == old(totalAlloc)
              else entries == old(entries) - {u} && totalAlloc == old(totalAlloc) - Size(e)
      ensures Fewer(old(entries), entries)
      ensures FreedAll(old(entries), entries, DataKind, old(dataMap[..]), dataMap[..])
      ensures FreedAll(old(entries), entries, MetaKind, old(metaMap[..]), metaMap[..])
    {
      hide FreedAll;
      hide StoreOk;
      hide Freed;
      hide Used;
      hide BlocksOk;
      hide Total;
      hide Fewer;
      var e := entries[u].(invalid := true);
      ghost var dm, mm := dataMap[..], metaMap[..];
      ghost var es := entries[u := entries[u].(invalid := false)];
      assert es[u := e] == entries[u := e] && es - {u} == entries - {u};
      if e.data.heap || e.meta.heap {
        EntryInOrder(es, dm, mm, totalAlloc, u);
        EntryChanged(es, dataMap[..], metaMap[..], totalAlloc, u, e);
        entries := entries[u := e];
        NothingGone(old(entries), entries, dm, mm);
        SameBlocks(old(entries), u, e);
        return;
      }
      EntryRemoved(es, dataMap[..], metaMap[..], totalAlloc, u);
      BlocksBounded(u);
      FreedFrees(dm, e.data.block);
      FreedFrees(mm, e.meta.block);
      OneGone(entries, DataKind, dm, Freed(dm, e.data.block), u);
      FewerWithout(entries, u);
      OneGone(entries, MetaKind, mm, Freed(mm, e.meta.block), u);
      InvalidateElement(e, MetaKind);
      InvalidateElement(e, DataKind);
      entries := entries - {u};
    }

    lemma BlocksBounded(u: Url)
      requires ValidBut(u)
      ensures entries[u].data.block < BLOCKS && entries[u].meta.block < BLOCKS
    {
      var es := entries[u := entries[u].(invalid := false)];
      assert u in es && Part(es[u], DataKind).block == entries[u].data.block && Part(es[u], MetaKind).block == entries[u].meta.block;
      hide Total;
      hide EntriesOk;
      hide Used;
    }

    lemma ValidIsMore(u: Url)
      requires Valid() && u in entries
      ensures ValidBut(u)
    {
      EntryChanged(entries, dataMap[..], metaMap[..], totalAlloc, u, entries[u].(invalid := false));
      hide BlocksOk;
      hide Total;
    }

    // ----- evicting -----

    /** The entries in some order a sort by `Compar` may give. */
    method EvictionList() returns (order: seq<Url>)
      ensures EvictionOrder(order, entries)
    {
      order := [];
      var rest := entries.Keys;
      while rest != {}
        invariant rest <= entries.Keys
        invariant EvictionOrder(order, map u | u in entries && u !in rest :: entries[u])
        decreases |rest|
      {
        ghost var some := Some(rest);
        var u :| u in rest;
        var i := 0;
        while i < |order| && Compar(entries[order[i]], entries[u]) <= 0
          invariant i <= |order|
          invariant forall j :: 0 <= j < i ==> Compar(entries[order[j]], entries[u]) <= 0
        {
          i := i + 1;
        }
        ghost var done := map x | x in entries && x !in rest :: entries[x];
        PlaceFound(order, done, entries[u], i);
        InsertKeepsOrder(order, done, u, entries[u], i);
        order := Inserted(order, u, i);
        assert (map x | x in entries && x !in rest :: entries[x])[u := entries[u]]
            == map x | x in entries && x !in rest - {u} :: entries[x];
        rest := rest - {u};
      }
      assert (map u | u in entries && u !in rest :: entries[u]) == entries;
    }

    /**
     When there is too much, entries go in order until more than the hysteresis
     has gone or nothing is left that may go. What someone refers to stays, if only
     marked to go when it is released.
     */
    method Evict() returns (ghost order: seq<Url>, ghost evicted: nat)
      requires Valid()
      modifies this`entries, this`totalAlloc, dataMap, metaMap
      ensures Valid()
      ensures EvictionOrder(order, old(entries)) && EvictedTo(old(entries), entries, order, evicted)
      ensures old(totalAlloc) < limit ==> evicted == 0 && entries == old(entries) && totalAlloc == old(totalAlloc)
      ensures old(totalAlloc) >= limit ==>
        totalAlloc + hysteresis < old(totalAlloc) || forall u :: u in entries ==> Referenced(entries[u])
      ensures StopsInTime(old(entries), order, evicted, hysteresis)
      ensures LeastUsedGone(old(entries), entries)
      ensures Fewer(old(entries), entries)
      ensures FreedAll(old(entries), entries, DataKind, old(dataMap[..]), dataMap[..])
      ensures FreedAll(old(entries), entries, MetaKind, old(metaMap[..]), metaMap[..])
    {
      hide FreedAll;
      hide Fewer;
      hide StoreOk;
      hide EvictionOrder;
      hide EvictedTo;
      hide Evicting;
      hide StopsInTime;
      hide LeastUsedGone;
      var list := EvictionList();
      order, evicted := list, 0;
      EvictingStarts(entries, list, totalAlloc);
      NoneGone(entries, entries, DataKind, dataMap[..]);
      NoneGone(entries, entries, MetaKind, metaMap[..]);
      FewerItself(entries);
      if totalAlloc < limit {
        EvictingEnds(entries, entries, list, 0, 0, totalAlloc, totalAlloc);
        LeastUsedGo(entries, entries, list, 0);
        InTime(entries, entries, list, 0, 0, totalAlloc, totalAlloc, hysteresis);
        return;
      }
      var removed: nat := 0;
      ghost var was, total0 := entries, totalAlloc;
      for i := 0 to |list|
        invariant Valid() && Evicting(was, entries, list, i, removed, totalAlloc, total0) && evicted == i
        invariant removed <= hysteresis
        invariant Fewer(was, entries) && FreedAll(was, entries, DataKind, old(dataMap[..]), dataMap[..])
        invariant FreedAll(was, entries, MetaKind, old(metaMap[..]), metaMap[..])
      {
        EvictingNext(was, entries, list, i, removed, totalAlloc, total0);
        InTime(was, entries, list, i, removed, totalAlloc, total0, hysteresis);
        ghost var now, total, dm, mm := entries, totalAlloc, dataMap[..], metaMap[..];
        var size := Size(entries[list[i]]);
        ValidIsMore(list[i]);
        InvalidateEntry(list[i]);
        EvictingOn(was, now, list, i, removed, total, total0, entries, totalAlloc);
        FreedThen(was, now, entries, DataKind, old(dataMap[..]), dm, dataMap[..]);
        FreedThen(was, now, entries, MetaKind, old(metaMap[..]), mm, metaMap[..]);
        removed := removed + size;
        evicted := i + 1;
        if removed > hysteresis {
          EvictingEnds(was, entries, list, evicted, removed, totalAlloc, total0);
          LeastUsedGo(was, entries, list, evicted);
          return;
        }
      }
      EvictingEnds(was, entries, list, |list|, removed, totalAlloc, total0);
      LeastUsedGo(was, entries, list, |list|);
      InTime(was, entries, list, |list|, removed, totalAlloc, total0, hysteresis);
    }

    // ----- storing -----

    /** Put something new under a URL, evicting first if there is too much; what someone holds is not overwritten. */
    method SetStoreEntry(u: Url, kind: Kind, size: nat, now: int) returns (r: Result, ghost mid: Entries)
      requires Valid()
      modifies this`entries, this`totalAlloc, dataMap, metaMap
      ensures Valid()
      ensures r == Permission <==> u in mid && Part(mid[u], kind).heap
      ensures r == Permission ==> entries == mid
      ensures r != Permission ==>
        && r == Ok && u in entries
        && var block := Part(entries[u], kind).block;
           && entries == mid[u := Stored(if u in mid then mid[u] else NEW_ENTRY, kind, size, block, now)]
           && (size > BLOCK_SIZE ==> block == Part(if u in mid then mid[u] else NEW_ENTRY, kind).block)
      ensures r != Permission ==>
        var x := Part(entries[u], kind);
        entries[u].useCount == 1 && entries[u].lastUsed == now && x.size == size && x.ref == 1 && x.heap
      ensures old(totalAlloc) < limit ==> mid == old(entries)
      ensures Fewer(old(entries), mid)
      ensures var e := if u in mid then mid[u] else NEW_ENTRY;
              NoneLeaked(entries, kind, Map(kind)[..]) <==>
                NoneLeaked(old(entries), kind, old(Map(kind)[..]))
                && !(r != Permission && size <= BLOCK_SIZE && Part(e, kind).block != 0)
    {
      hide StoreOk;
      hide EvictionOrder;
      hide EvictedTo;
      hide StopsInTime;
      hide FreedAll;
      hide Fewer;
      hide NoneLeaked;
      ghost var order, evicted := Evict();
      mid := entries;
      RemovalLeaksNone(old(entries), mid, kind, old(Map(kind)[..]), Map(kind)[..]);
      var e := if u in entries then entries[u] else NEW_ENTRY;
      var elem := Part(e, kind);
      if elem.heap {
        r := Permission;
        return;
      }
      ghost var dm, mm, total := dataMap[..], metaMap[..], totalAlloc;
      var block := elem.block;
      BlocksInOrder(mid, dm, mm, total, kind);
      StoreOkSentinel(kind);
      if size <= BLOCK_SIZE {
        block := AllocBlock(Map(kind));
        EntryStored(mid, dm, mm, total, u, kind, size, block, now, true);
      } else {
        EntryStored(mid, dm, mm, total, u, kind, size, block, now, false);
      }
      StoringLeaks(mid, kind, if kind.DataKind? then dm else mm, Map(kind)[..], u, Stored(e, kind, size, block, now), size <= BLOCK_SIZE, block);
      totalAlloc := totalAlloc + size - elem.size;
      entries := entries[u := Stored(e, kind, size, block, now)];
      r := Ok;
    }

    /** What storing leaks, as the block was allocated. */
    static lemma StoringLeaks(es: Entries, kind: Kind, m: UseMap, m': UseMap, u: Url, e: Entry, alloc: bool, block: nat)
      requires BlocksOk(es, kind, m) && Part(e, kind).block == block && block < BLOCKS
      requires if !alloc then m' == m && block == (if u in es then Part(es[u], kind).block else 0)
               else if block == 0 then m' == m
               else !Used(m, block) && m' == Marked(m, block, true)
      ensures NoneLeaked(es[u := e], kind, m') <==>
              NoneLeaked(es, kind, m) && !(alloc && u in es && Part(es[u], kind).block != 0)
    {
      if alloc && block != 0 {
        MarksOne(m, block, true);
      }
      hide Used;
      hide Marked;
      StoringLeaksExactly(es, kind, m, m', u, e, alloc);
    }

    lemma StoreOkSentinel(kind: Kind)
      requires Valid()
      ensures Used(Map(kind)[..], 0)
    {
      hide Total;
    }

    // ----- fetching, releasing and invalidating -----

    /**
     Hold what is stored for a URL in memory, once more or for the first time; a
     failure to read it leaves it held by nobody new.
     */
    method Fetch(u: Url, kind: Kind, readable: bool, now: int) returns (r: Result)
      requires Valid() && (u in entries ==> Part(entries[u], kind).ref < MAX_REF)
      modifies this`entries
      ensures Valid()
      ensures r == NotFound <==> u !in old(entries)
      ensures r == NotFound ==> entries == old(entries)
      ensures u in old(entries) ==>
        var e := Used1(old(entries)[u], now);
        && r == (if Part(e, kind).heap || readable then Ok else ReadError)
        && entries == old(entries)[u := if r == Ok then WithPart(e, kind, Held(Part(e, kind))) else e]
      ensures u in old(entries) ==>
        u in entries && entries[u].useCount == old(entries)[u].useCount + 1 && entries[u].lastUsed == now
        && Part(entries[u], kind).ref == Part(old(entries)[u], kind).ref + (if r == Ok then 1 else 0)
        && Part(entries[u], kind).block == Part(old(entries)[u], kind).block
    {
      hide BlocksOk;
      hide Total;
      if u !in entries {
        return NotFound;
      }
      var e := Used1(entries[u], now);
      var elem := Held(Part(e, kind));
      r := Ok;
      if !Part(e, kind).heap && !readable {
        HeldAndLetGo(Part(e, kind));
        elem := LetGo(elem);
        r := ReadError;
      }
      EntryChanged(entries, dataMap[..], metaMap[..], totalAlloc, u, WithPart(e, kind, elem));
      entries := entries[u := WithPart(e, kind, elem)];
    }

    /** Let go of an element; an entry marked to go goes with the last hold on it. */
    method Release(u: Url, kind: Kind, now: int) returns (r: Result)
      requires Valid()
      modifies this`entries, this`totalAlloc, dataMap, metaMap
      ensures Valid()
      ensures r == (if u in old(entries) then Ok else NotFound) && (r == NotFound ==> entries == old(entries))
      ensures u in old(entries) ==>
        var e := Used1(old(entries)[u], now);
        var left := WithPart(e, kind, LetGo(Part(e, kind)));
        if e.invalid && !Referenced(left) then entries == old(entries) - {u} && totalAlloc == old(totalAlloc) - Size(e)
        else entries == old(entries)[u := left] && totalAlloc == old(totalAlloc)
      ensures u in entries ==>
        var x, y := Part(old(entries)[u], kind), Part(entries[u], kind);
        && entries[u].useCount == old(entries)[u].useCount + 1 && entries[u].lastUsed == now
        && y.ref == (if x.heap then x.ref - 1 else 0) && (y.heap <==> x.ref > 1)
      ensures Fewer(old(entries), entries)
      ensures FreedAll(old(entries), entries, DataKind, old(dataMap[..]), dataMap[..])
      ensures FreedAll(old(entries), entries, MetaKind, old(metaMap[..]), metaMap[..])
    {
      hide BlocksOk;
      hide FreedAll;
      hide Fewer;
      NothingGone(entries, entries, dataMap[..], metaMap[..]);
      hide Total;
      if u !in entries {
        return NotFound;
      }
      var e := Used1(entries[u], now);
      var left := WithPart(e, kind, LetGo(Part(e, kind)));
      HeldAndLetGo(Part(e, kind));
      EntryChanged(entries, dataMap[..], metaMap[..], totalAlloc, u, left.(invalid := false));
      SameBlocks(entries, u, left);
      NothingGone(entries, entries[u := left], dataMap[..], metaMap[..]);
      assert entries[u := left][u := left.(invalid := false)] == entries[u := left.(invalid := false)];
      if e.invalid {
        entries := entries[u := left];
        hide StoreOk;
        assert old(entries)[u := left] - {u} == old(entries) - {u};
        assert old(entries)[u := left][u := left] == old(entries)[u := left];
        ghost var mid, dm, mm := entries, dataMap[..], metaMap[..];
        InvalidateEntry(u);
        BothGone(old(entries), mid, entries, dm, mm, dataMap[..], metaMap[..]);
      } else {
        entries := entries[u := left];
      }
      r := Ok;
    }

    /** An entry is to be given out no more. */
    method Invalidate(u: Url, now: int) returns (r: Result)
      requires Valid()
      modifies this`entries, this`totalAlloc, dataMap, metaMap
      ensures Valid()
      ensures r == (if u in old(entries) then Ok else NotFound) && (r == NotFound ==> entries == old(entries))
      ensures u in old(entries) ==>
        var e := Used1(old(entries)[u], now);
        if Referenced(e) then entries == old(entries)[u := e.(invalid := true)] && totalAlloc == old(totalAlloc)
        else entries == old(entries) - {u} && totalAlloc == old(totalAlloc) - Size(e)
      ensures Fewer(old(entries), entries)
      ensures FreedAll(old(entries), entries, DataKind, old(dataMap[..]), dataMap[..])
      ensures FreedAll(old(entries), entries, MetaKind, old(metaMap[..]), metaMap[..])
    {
      hide BlocksOk;
      hide FreedAll;
      hide Fewer;
      NothingGone(entries, entries, dataMap[..], metaMap[..]);
      hide Total;
      if u !in entries {
        return NotFound;
      }
      var e := Used1(entries[u], now);
      EntryChanged(entries, dataMap[..], metaMap[..], totalAlloc, u, e);
      SameBlocks(entries, u, e);
      NothingGone(entries, entries[u := e], dataMap[..], metaMap[..]);
      entries := entries[u := e];
      ghost var mid, dm, mm := entries, dataMap[..], metaMap[..];
      ValidIsMore(u);
      hide StoreOk;
      InvalidateEntry(u);
      BothGone(old(entries), mid, entries, dm, mm, dataMap[..], metaMap[..]);
      r := Ok;
    }
  }
}
