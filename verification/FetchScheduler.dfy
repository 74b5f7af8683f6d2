// The fetch scheduler. A ring of fetches is the sequence of its elements from its head on.
module FetchScheduler {
  import opened Common

  type FetchId = nat
  type Host = int

  datatype Fetch = Fetch(host: Host, active: bool)

  type Fetches = map<FetchId, Fetch>

  /** How many of a ring's fetches are from a host. */
  function CountByHost(ring: seq<FetchId>, fs: Fetches, host: Host): (n: nat)
    requires forall f :: f in ring ==> f in fs
  {
    if ring == [] then 0
    else CountByHost(ring[..|ring| - 1], fs, host) + (if fs[ring[|ring| - 1]].host == host then 1 else 0)
  }

  /** It is the number of places in the ring that hold a fetch from the host. */
  lemma {:induction false} CountsPlaces(ring: seq<FetchId>, fs: Fetches, host: Host)
    requires forall f :: f in ring ==> f in fs
    ensures CountByHost(ring, fs, host) == |set i | 0 <= i < |ring| && fs[ring[i]].host == host|
  {
    var places := set i | 0 <= i < |ring| && fs[ring[i]].host == host;
    if ring == [] {
      assert places == {};
    } else {
      var n := |ring| - 1;
      var before := set i | 0 <= i < n && fs[ring[..n][i]].host == host;
      CountsPlaces(ring[..n], fs, host);
      assert before == set i | 0 <= i < |ring[..n]| && fs[ring[..n][i]].host == host;
      assert places == before + if fs[ring[n]].host == host then {n} else {};
    }
  }

  function Removed(s: seq<FetchId>, f: FetchId): (r: seq<FetchId>)
    ensures forall x :: x in r ==> x in s
  {
    if s == [] then [] else if s[0] == f then s[1..] else [s[0]] + Removed(s[1..], f)
  }

  /** All that happens to a ring is that one element goes. */
  lemma {:induction false} RemovedIs(s: seq<FetchId>, f: FetchId, k: nat)
    requires k < |s| && s[k] == f && f !in s[..k]
    ensures Removed(s, f) == s[..k] + s[k + 1..]
  {
    if k > 0 {
      assert s[0] == s[..k][0] && s[1..][..k - 1] == s[..k][1..];
      RemovedIs(s[1..], f, k - 1);
      assert s[1..][..k - 1] == s[1..k] && s[1..][k..] == s[k + 1..];
      assert [s[0]] + s[1..k] == s[..k];
    }
  }

  lemma {:induction false} NotThereNotRemoved(s: seq<FetchId>, f: FetchId)
    requires f !in s
    ensures Removed(s, f) == s
  {
    if s != [] {
      NotThereNotRemoved(s[1..], f);
    }
  }

  /** One comes before another in a ring. */
  ghost predicate Before(s: seq<FetchId>, f: FetchId, g: FetchId) {
    exists i, j :: 0 <= i < j < |s| && s[i] == f && s[j] == g
  }

  /** Those that stay keep their order, and there was no other. */
  lemma RemovedKeepsOrder(s: seq<FetchId>, f: FetchId, x: FetchId, y: FetchId)
    requires x != f && y != f
    ensures Before(Removed(s, f), x, y) <==> Before(s, x, y)
  {
    if f in s {
      var k := FirstAt(s, f);
      RemovedIs(s, f, k);
      var r := s[..k] + s[k + 1..];
      if i, j :| 0 <= i < j < |s| && s[i] == x && s[j] == y {
        assert r[if i < k then i else i - 1] == x && r[if j < k then j else j - 1] == y;
      }
      if i, j :| 0 <= i < j < |r| && r[i] == x && r[j] == y {
        assert s[if i < k then i else i + 1] == x && s[if j < k then j else j + 1] == y;
      }
    } else {
      NotThereNotRemoved(s, f);
    }
  }

  lemma {:induction false} FirstAt(s: seq<FetchId>, f: FetchId) returns (k: nat)
    requires f in s
    ensures k < |s| && s[k] == f && f !in s[..k]
  {
    k := 0;
    if s[0] != f {
      k := FirstAt(s[1..], f);
      k := k + 1;
      assert s[..k] == [s[0]] + s[1..][..k - 1];
    }
  }

  lemma {:induction false} OneMore(s: seq<FetchId>, f: FetchId)
    requires NoDup(s) && f !in s
    ensures NoDup(s + [f])
  {
    if s == [] {
      assert [f][1..] == [];
    } else {
      assert (s + [f])[1..] == s[1..] + [f];
      OneMore(s[1..], f);
    }
  }

  lemma {:induction false} RemovedOnce(s: seq<FetchId>, f: FetchId)
    requires NoDup(s) && f in s
    ensures f !in Removed(s, f) && NoDup(Removed(s, f)) && |Removed(s, f)| == |s| - 1
    ensures forall x :: x in s && x != f ==> x in Removed(s, f)
  {
    if s[0] != f {
      assert s[1..][..] == s[1..];
      RemovedOnce(s[1..], f);
      assert forall x :: x in s ==> x == s[0] || x in s[1..];
      assert s[0] !in s[1..];
    } else {
      assert forall x :: x in s ==> x == s[0] || x in s[1..];
    }
  }

  lemma {:induction false} CountRemoved(s: seq<FetchId>, fs: Fetches, f: FetchId, host: Host)
    requires f in s && forall x :: x in s ==> x in fs
    ensures CountByHost(Removed(s, f), fs, host) == CountByHost(s, fs, host) - (if fs[f].host == host then 1 else 0)
    ensures CountByHost(s, fs, host) >= (if fs[f].host == host then 1 else 0)
  {
    CountFirst(s, fs, host);
    if s[0] != f {
      CountRemoved(s[1..], fs, f, host);
      var r := [s[0]] + Removed(s[1..], f);
      CountFirst(r, fs, host);
      assert r[1..] == Removed(s[1..], f);
    }
  }

  lemma {:induction false} CountFirst(s: seq<FetchId>, fs: Fetches, host: Host)
    requires s != [] && forall x :: x in s ==> x in fs
    ensures CountByHost(s, fs, host) == (if fs[s[0]].host == host then 1 else 0) + CountByHost(s[1..], fs, host)
  {
    if |s| > 1 {
      var t := s[..|s| - 1];
      CountFirst(t, fs, host);
      assert t[1..] == s[1..][..|s[1..]| - 1];
    }
  }

  lemma CountAdded(s: seq<FetchId>, fs: Fetches, f: FetchId, host: Host)
    requires f in fs && forall x :: x in s ==> x in fs
    ensures CountByHost(s + [f], fs, host) == CountByHost(s, fs, host) + (if fs[f].host == host then 1 else 0)
  {
    assert (s + [f])[..|s + [f]| - 1] == s;
  }

  /** Counting looks at hosts only. */
  lemma {:induction false} CountSame(s: seq<FetchId>, fs: Fetches, gs: Fetches, host: Host)
    requires forall x :: x in s ==> x in fs && x in gs && fs[x].host == gs[x].host
    ensures CountByHost(s, fs, host) == CountByHost(s, gs, host)
  {
    if s != [] {
      CountSame(s[..|s| - 1], fs, gs, host);
    }
  }

  // ----- what holds between calls -----

  /** Every fetch is in one ring, once, and says which. */
  ghost predicate RingsOk(queue: seq<FetchId>, ring: seq<FetchId>, fs: Fetches) {
    && NoDup(queue) && NoDup(ring)
    && (forall f :: f in queue ==> f in fs && !fs[f].active)
    && (forall f :: f in ring ==> f in fs && fs[f].active)
    && (forall f :: f in fs ==> if fs[f].active then f in ring else f in queue)
  }

  ghost predicate WithinLimits(ring: seq<FetchId>, fs: Fetches, maxFetchers: nat, maxPerHost: nat) {
    && (forall f :: f in ring ==> f in fs)
    && |ring| <= maxFetchers
    && forall host :: CountByHost(ring, fs, host) <= maxPerHost
  }

  /** The host of a fetch has as many running as it may. */
  ghost predicate Saturated(ring: seq<FetchId>, fs: Fetches, maxPerHost: nat, f: FetchId) {
    f in fs && (forall x :: x in ring ==> x in fs) && CountByHost(ring, fs, fs[f].host) >= maxPerHost
  }

  lemma MovedToRing(queue: seq<FetchId>, ring: seq<FetchId>, fs: Fetches, f: FetchId)
    requires RingsOk(queue, ring, fs) && f in queue
    ensures RingsOk(Removed(queue, f), ring + [f], fs[f := fs[f].(active := true)])
  {
    hide Removed;
    hide NoDup;
    RemovedOnce(queue, f);
    OneMore(ring, f);
  }

  lemma MovedToEnd(queue: seq<FetchId>, ring: seq<FetchId>, fs: Fetches, f: FetchId)
    requires RingsOk(queue, ring, fs) && f in queue
    ensures RingsOk(Removed(queue, f) + [f], ring, fs)
  {
    hide Removed;
    hide NoDup;
    RemovedOnce(queue, f);
    OneMore(Removed(queue, f), f);
  }

  lemma LimitsKept(ring: seq<FetchId>, fs: Fetches, f: FetchId, maxFetchers: nat, maxPerHost: nat)
    requires WithinLimits(ring, fs, maxFetchers, maxPerHost) && f in fs && f !in ring
    requires |ring| < maxFetchers && CountByHost(ring, fs, fs[f].host) < maxPerHost
    ensures WithinLimits(ring + [f], fs[f := fs[f].(active := true)], maxFetchers, maxPerHost)
  {
    var gs := fs[f := fs[f].(active := true)];
    forall host ensures CountByHost(ring + [f], gs, host) <= maxPerHost {
      CountSame(ring, fs, gs, host);
      CountAdded(ring, gs, f, host);
    }
    hide CountByHost;
  }

  lemma LimitsAfterRemoval(ring: seq<FetchId>, fs: Fetches, f: FetchId, maxFetchers: nat, maxPerHost: nat)
    requires WithinLimits(ring, fs, maxFetchers, maxPerHost) && f in ring && NoDup(ring)
    ensures WithinLimits(Removed(ring, f), fs - {f}, maxFetchers, maxPerHost)
  {
    RemovedOnce(ring, f);
    var r := Removed(ring, f);
    forall host ensures CountByHost(r, fs - {f}, host) <= maxPerHost {
      CountRemoved(ring, fs, f, host);
      CountSame(r, fs, fs - {f}, host);
    }
    hide CountByHost;
    hide Removed;
    hide NoDup;
  }

  // ----- any number of dispatches -----

  function WithoutAll(queue: seq<FetchId>, jobs: seq<FetchId>): seq<FetchId> {
    if jobs == [] then queue else Removed(WithoutAll(queue, jobs[..|jobs| - 1]), jobs[|jobs| - 1])
  }

  function Started(fs: Fetches, jobs: seq<FetchId>): Fetches {
    map f | f in fs :: if f in jobs then fs[f].(active := true) else fs[f]
  }

  /** These jobs, and no others, have gone from the queue to the end of the ring; one may have gone to the end of the queue. */
  ghost predicate Dispatched(queue: seq<FetchId>, ring: seq<FetchId>, fs: Fetches, jobs: seq<FetchId>, refused: Option<FetchId>,
                             queue': seq<FetchId>, ring': seq<FetchId>, fs': Fetches)
  {
    var left := WithoutAll(queue, jobs);
    && queue' == (match refused case None => left case Some(f) => Removed(left, f) + [f])
    && ring' == ring + jobs && fs' == Started(fs, jobs)
  }

  lemma NothingDispatched(queue: seq<FetchId>, ring: seq<FetchId>, fs: Fetches)
    ensures Dispatched(queue, ring, fs, [], None, queue, ring, fs)
  {
    assert ring + [] == ring;
  }

  lemma OneDispatched(queue: seq<FetchId>, ring: seq<FetchId>, fs: Fetches, jobs: seq<FetchId>,
                      queue': seq<FetchId>, ring': seq<FetchId>, fs': Fetches, f: FetchId)
    requires Dispatched(queue, ring, fs, jobs, None, queue', ring', fs') && f in fs'
    ensures Dispatched(queue, ring, fs, jobs + [f], None, Removed(queue', f), ring' + [f], fs'[f := fs'[f].(active := true)])
    ensures Dispatched(queue, ring, fs, jobs, Some(f), Removed(queue', f) + [f], ring', fs')
  {
    hide Removed;
    assert (jobs + [f])[..|jobs|] == jobs;
    assert ring + jobs + [f] == ring + (jobs + [f]);
  }

  lemma {:induction false} WithoutAllKeepsOrder(queue: seq<FetchId>, jobs: seq<FetchId>, x: FetchId, y: FetchId)
    requires x !in jobs && y !in jobs
    ensures Before(WithoutAll(queue, jobs), x, y) <==> Before(queue, x, y)
  {
    hide Before;
    if jobs != [] {
      var rest := jobs[..|jobs| - 1];
      WithoutAllKeepsOrder(queue, rest, x, y);
      RemovedKeepsOrder(WithoutAll(queue, rest), jobs[|jobs| - 1], x, y);
    }
  }

  lemma BeforeEnd(s: seq<FetchId>, f: FetchId, x: FetchId, y: FetchId)
    requires x != f && y != f
    ensures Before(s + [f], x, y) <==> Before(s, x, y)
  {
    var r := s + [f];
    if i, j :| 0 <= i < j < |s| && s[i] == x && s[j] == y {
      assert r[i] == x && r[j] == y;
    }
    if i, j :| 0 <= i < j < |r| && r[i] == x && r[j] == y {
      assert s[i] == x && s[j] == y;
    }
  }

  lemma HostsStay(queue: seq<FetchId>, ring: seq<FetchId>, fs: Fetches, jobs: seq<FetchId>, refused: Option<FetchId>,
                  queue': seq<FetchId>, ring': seq<FetchId>, fs': Fetches)
    requires Dispatched(queue, ring, fs, jobs, refused, queue', ring', fs')
    ensures fs'.Keys == fs.Keys && forall f :: f in fs' ==> fs'[f].host == fs[f].host
  {
  }

  /** Any two fetches that were neither started nor refused are in the queue as they were. */
  lemma DispatchedKeepsOrder(queue: seq<FetchId>, ring: seq<FetchId>, fs: Fetches, jobs: seq<FetchId>, refused: Option<FetchId>,
                             queue': seq<FetchId>, ring': seq<FetchId>, fs': Fetches, x: FetchId, y: FetchId)
    requires Dispatched(queue, ring, fs, jobs, refused, queue', ring', fs')
    requires x !in ring' && y !in ring' && refused != Some(x) && refused != Some(y)
    ensures Before(queue', x, y) <==> Before(queue, x, y)
  {
    hide Before;
    WithoutAllKeepsOrder(queue, jobs, x, y);
    if refused.Some? {
      RemovedKeepsOrder(WithoutAll(queue, jobs), refused.value, x, y);
      BeforeEnd(Removed(WithoutAll(queue, jobs), refused.value), refused.value, x, y);
    }
  }

  // ----- the scheduler -----

  class Scheduler {
    const maxFetchers: nat
    const maxPerHost: nat

    var queue: seq<FetchId>
    var ring: seq<FetchId>
    var fetches: Fetches

    ghost predicate Valid()
      reads this
    {
      RingsOk(queue, ring, fetches) && WithinLimits(ring, fetches, maxFetchers, maxPerHost)
    }

    constructor (maxFetchers: nat, maxPerHost: nat)
      ensures Valid() && queue == ring == [] && fetches == map[]
      ensures this.maxFetchers == maxFetchers && this.maxPerHost == maxPerHost
    {
      this.maxFetchers, this.maxPerHost := maxFetchers, maxPerHost;
      queue, ring, fetches := [], [], map[];
    }

    /** Start a queued fetch; one that will not start goes to the end of the queue. */
    method DispatchJob(f: FetchId) returns (started: bool)
      requires Valid() && f in queue && |ring| < maxFetchers
      requires CountByHost(ring, fetches, fetches[f].host) < maxPerHost
      modifies this
      ensures Valid()
      ensures started ==> queue == Removed(old(queue), f) && ring == old(ring) + [f]
                          && fetches == old(fetches)[f := old(fetches)[f].(active := true)]
      ensures !started ==> queue == Removed(old(queue), f) + [f] && ring == old(ring) && fetches == old(fetches)
    {
      hide Removed;
      hide CountByHost;
      MovedToRing(queue, ring, fetches, f);
      MovedToEnd(queue, ring, fetches, f);
      LimitsKept(ring, fetches, f, maxFetchers, maxPerHost);
      hide RingsOk;
      hide WithinLimits;
      queue := Removed(queue, f);
      started := *;
      if !started {
        queue := queue + [f];
      } else {
        ring := ring + [f];
        fetches := fetches[f := fetches[f].(active := true)];
      }
    }

    /**
     Dispatch the first queued fetch whose host is not saturated. Fetches in a row
     from a saturated host are passed over together.
     */
    method ChooseAndDispatch() returns (started: bool, ghost chosen: nat)
      requires Valid() && queue != [] && |ring| < maxFetchers
      modifies this
      ensures Valid()
      ensures chosen <= |old(queue)|
      ensures forall j :: 0 <= j < chosen ==> Saturated(old(ring), old(fetches), maxPerHost, old(queue)[j])
      ensures chosen == |old(queue)| ==> !started && queue == old(queue) && ring == old(ring) && fetches == old(fetches)
      ensures chosen < |old(queue)| ==>
        var f := old(queue)[chosen];
        && !Saturated(old(ring), old(fetches), maxPerHost, f)
        && f in old(fetches) && |queue| == |old(queue)| - (if started then 1 else 0)
        && queue == (if started then Removed(old(queue), f) else Removed(old(queue), f) + [f])
        && ring == (if started then old(ring) + [f] else old(ring))
        && fetches == (if started then old(fetches)[f := old(fetches)[f].(active := true)] else old(fetches))
    {
      hide Removed;
      hide CountByHost;
      var item := 0;
      while item < |queue|
        invariant item <= |queue|
        invariant forall j :: 0 <= j < item ==> Saturated(ring, fetches, maxPerHost, queue[j])
        decreases |queue| - item
      {
        var count := CountByHost(ring, fetches, fetches[queue[item]].host);
        if count < maxPerHost {
          RemovedOnce(queue, queue[item]);
          chosen := item;
          started := DispatchJob(queue[item]);
          return;
        }
        var sameHost := true;
        ghost var start := item;
        while sameHost && item + 1 < |queue|
          invariant start <= item < |queue|
          invariant forall j :: 0 <= j <= item ==> Saturated(ring, fetches, maxPerHost, queue[j])
          decreases sameHost, |queue| - item
        {
          if fetches[queue[item]].host == fetches[queue[item + 1]].host {
            item := item + 1;
          } else {
            sameHost := false;
          }
        }
        item := item + 1;
      }
      started, chosen := false, |queue|;
    }

    /**
     Dispatch as many as there is room for. It ends only when nothing waits, the
     limit is reached, every waiting fetch's host is saturated or a fetch would not
     start, which goes to the end of the queue; all others stay in their order.
     */
    method DispatchJobs() returns (busy: bool, ghost jobs: seq<FetchId>, ghost refused: Option<FetchId>)
      requires Valid()
      modifies this
      ensures Valid() && (busy <==> ring != [])
      ensures queue == [] || |ring| >= maxFetchers || refused.Some?
              || forall f :: f in queue ==> Saturated(ring, fetches, maxPerHost, f)
      ensures Dispatched(old(queue), old(ring), old(fetches), jobs, refused, queue, ring, fetches)
      ensures |queue| + |ring| == old(|queue| + |ring|)
      ensures fetches.Keys == old(fetches).Keys && forall f :: f in fetches ==> fetches[f].host == old(fetches)[f].host
      ensures forall x, y :: x !in ring && y !in ring && refused != Some(x) && refused != Some(y) ==>
                (Before(queue, x, y) <==> Before(old(queue), x, y))
    {
      hide Removed;
      hide CountByHost;
      hide Dispatched;
      hide Before;
      jobs, refused := [], None;
      NothingDispatched(queue, ring, fetches);
      while queue != [] && |ring| < maxFetchers
        invariant Valid() && refused == None && |queue| + |ring| == old(|queue| + |ring|)
        invariant Dispatched(old(queue), old(ring), old(fetches), jobs, None, queue, ring, fetches)
        decreases |queue|
      {
        ghost var waiting, running, fs := queue, ring, fetches;
        var started;
        ghost var chosen;
        started, chosen := ChooseAndDispatch();
        if chosen < |waiting| {
          OneDispatched(old(queue), old(ring), old(fetches), jobs, waiting, running, fs, waiting[chosen]);
        }
        if !started {
          refused := if chosen < |waiting| then Some(waiting[chosen]) else None;
          break;
        }
        jobs := jobs + [waiting[chosen]];
      }
      busy := ring != [];
      HostsStay(old(queue), old(ring), old(fetches), jobs, refused, queue, ring, fetches);
      forall x, y | x !in ring && y !in ring && refused != Some(x) && refused != Some(y)
        ensures Before(queue, x, y) <==> Before(old(queue), x, y)
      {
        DispatchedKeepsOrder(old(queue), old(ring), old(fetches), jobs, refused, queue, ring, fetches, x, y);
      }
    }

    /** A new fetch joins the end of the queue, and the queue is seen to. */
    method Start(f: FetchId, host: Host) returns (busy: bool, ghost jobs: seq<FetchId>, ghost refused: Option<FetchId>)
      requires Valid() && f !in fetches
      modifies this
      ensures Valid() && (busy <==> ring != [])
      ensures queue == [] || |ring| >= maxFetchers || refused.Some?
              || forall x :: x in queue ==> Saturated(ring, fetches, maxPerHost, x)
      ensures Dispatched(old(queue) + [f], old(ring), old(fetches)[f := Fetch(host, false)], jobs, refused, queue, ring, fetches)
      ensures |queue| + |ring| == old(|queue| + |ring|) + 1
      ensures (f in queue || f in ring) && forall x :: x in old(queue) || x in old(ring) ==> x in queue || x in ring
    {
      JoinQueue(f, host);
      fetches := fetches[f := Fetch(host, false)];
      queue := queue + [f];
      assert RingsOk(old(queue), old(ring), old(fetches));
      hide RingsOk;
      hide WithinLimits;
      hide Removed;
      busy, jobs, refused := DispatchJobs();
      AllInARing(queue, ring, fetches);
      AllInARing(old(queue), old(ring), old(fetches));
    }

    lemma AllInARing(queue: seq<FetchId>, ring: seq<FetchId>, fs: Fetches)
      requires RingsOk(queue, ring, fs)
      ensures forall f :: f in fs <==> f in queue || f in ring
    {
    }

    lemma JoinQueue(f: FetchId, host: Host)
      requires Valid() && f !in fetches
      ensures RingsOk(queue + [f], ring, fetches[f := Fetch(host, false)])
      ensures WithinLimits(ring, fetches[f := Fetch(host, false)], maxFetchers, maxPerHost)
    {
      hide CountByHost;
      hide NoDup;
      OneMore(queue, f);
      var gs := fetches[f := Fetch(host, false)];
      forall h ensures CountByHost(ring, gs, h) <= maxPerHost {
        CountSame(ring, fetches, gs, h);
      }
    }

    /** A fetch leaves whichever ring it says it is in. */
    method RemoveFromQueues(f: FetchId)
      requires Valid() && f in fetches
      modifies this
      ensures Valid() && fetches == old(fetches) - {f}
      ensures queue == (if old(fetches)[f].active then old(queue) else Removed(old(queue), f))
      ensures ring == (if old(fetches)[f].active then Removed(old(ring), f) else old(ring))
    {
      hide CountByHost;
      if fetches[f].active {
        RemovedOnce(ring, f);
        LimitsAfterRemoval(ring, fetches, f, maxFetchers, maxPerHost);
        ring := Removed(ring, f);
      } else {
        RemovedOnce(queue, f);
        LeavesQueue(f);
        queue := Removed(queue, f);
      }
      hide Removed;
      hide NoDup;
      hide WithinLimits;
      fetches := fetches - {f};
    }

    lemma LeavesQueue(f: FetchId)
      requires Valid() && f in fetches && f !in ring
      ensures WithinLimits(ring, fetches - {f}, maxFetchers, maxPerHost)
    {
      forall h ensures CountByHost(ring, fetches - {f}, h) <= maxPerHost {
        CountSame(ring, fetches, fetches - {f}, h);
      }
      hide CountByHost;
    }
  }
}
