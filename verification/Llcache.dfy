/**
 The low-level cache: clients attach to objects through handles, objects are
 fetched, shared, revalidated, redirected, written out and discarded, and every
 client is brought up to date with the object it is attached to. Each method's
 contract is a relation between the cache before and after.
 */
module Llcache {
  import opened Common
  import opened LlcacheAnswers
  import opened LlcacheCalls
  import opened LlcacheFetch
  import opened LlcacheNotify
  import opened LlcacheState

  class Llcache {
    /** How many times a fetch that times out is attempted, and whether fetchers are prompt. */
    const rules: Rules

    var objects: Objects
    var users: Users
    var handles: Handles
    var cached: seq<ObjectId>
    var uncached: seq<ObjectId>
    var allCaughtUp: bool
    var next: nat

    /** A record of what clients and the rest of the world have decided; nothing is decided by it. */
    ghost var said: Outside

    ghost function Now(): Cache
      reads this
    {
      Cache(objects, users, handles, cached, uncached, next)
    }

    /** The state between calls; `t` is the user being notified, if one is. */
    ghost predicate Valid(t: Option<UserId>)
      reads this
    {
      Sane(Now(), rules, t)
    }

    constructor (rules: Rules)
      ensures Valid(None) && this.rules == rules && objects == map[]
    {
      this.rules := rules;
      objects, users, handles, cached, uncached, allCaughtUp, next := map[], map[], map[], [], [], true, 0;
      said := Outside([], [], [], 0, 0, 0, 0);
    }

    /** There are now users that have not been told all there is to tell. */
    method UsersNotCaughtUp()
      modifies this`allCaughtUp
      ensures !allCaughtUp
    {
      if allCaughtUp {
        allCaughtUp := false;
      }
    }

    /** The user a handle belongs to. */
    method FindUser(h: HandleId, ghost t: Option<UserId>) returns (u: UserId)
      requires KnownIn(Now(), rules, t, h)
      ensures u == handles[h].user
    {
      hide DeliveredTo;
      hide ObjectOk;
      hide NoDup;
      var list := objects[handles[h].object_].users;
      ghost var k :| 0 <= k < |list| && list[k] == handles[h].user;
      var i := 0;
      while users[list[i]].handle != Some(h)
        invariant 0 <= i <= k
        decreases k - i
      {
        i := i + 1;
      }
      u := list[i];
    }

    // ----- the calls clients make -----

    /** Take a user off its object's list and destroy it, with its handle if it still has one. */
    method DropUser(o: ObjectId, u: UserId)
      requires o in objects && u in users
      modifies this`objects, this`users, this`handles
      ensures objects == old(objects)[o := WithUsers(old(objects)[o], Without(old(objects)[o].users, u))]
      ensures users == old(users) - {u} && handles == Handleless(old(handles), old(users)[u].handle)
    {
      objects := objects[o := WithUsers(objects[o], Without(objects[o].users, u))];
      if users[u].handle.Some? {
        handles := handles - {users[u].handle.value};
      }
      users := users - {u};
    }

    /** A client is done with its handle. */
    method Release(h: HandleId, ghost t: Option<UserId>)
      requires h in handles && Valid(t)
      modifies this`objects, this`users, this`handles, this`said
      ensures Valid(t) && Keeps(old(Now()), Now(), t) && Releases(old(Now()), Now(), h)
      ensures said == LeftBy(old(said), h)
      ensures Stayed(old(Now()), old(said), Now(), said) && Queues(old(users), old(said), users, said)
    {
      hide Sane;
      hide Keeps;
      hide NoDup;
      hide DeliveredTo;
      hide ObjectOk;
      hide Stayed;
      hide Queues;
      SaneHandle(Now(), rules, t, h);
      var u := FindUser(h, t);
      if users[u].target {
        users := users[u := users[u].(queued := true)];
      } else {
        DropUser(handles[h].object_, u);
      }
      said := LeftBy(said, h);
      ReleasesKeeps(old(Now()), Now(), rules, t, h);
      ReleasedStayed(old(Now()), Now(), h, old(said));
      ReleasedQueues(old(Now()), Now(), rules, t, h, old(said));
    }

    /** A new user, with a new handle, at the head of an object's list. */
    method AddUser(o: ObjectId, state: FetchState, past: Standing) returns (r: HandleId)
      requires o in objects
      modifies this`objects, this`users, this`handles, this`next
      ensures Joins(old(Now()), Now(), o, state, past, r)
    {
      r := next;
      objects := objects[o := WithUsers(objects[o], [next] + objects[o].users)];
      users := users[next := User(Some(o), Some(r), false, false)];
      handles := handles[r := NewHandle(o, next, state, past)];
      next := next + 1;
    }

    /** Another handle on the same object, in the same state but owed all of the source. */
    method Clone(h: HandleId, ghost t: Option<UserId>) returns (r: HandleId)
      requires h in handles && Valid(t)
      modifies this`objects, this`users, this`handles, this`next
      ensures Valid(t) && Keeps(old(Now()), Now(), t) && Clones(old(Now()), Now(), h, r)
      ensures Stayed(old(Now()), said, Now(), said) && Queues(old(users), said, users, said)
    {
      hide Sane;
      hide Keeps;
      hide NoDup;
      hide DeliveredTo;
      hide ObjectOk;
      hide Stayed;
      hide Queues;
      SaneHandle(Now(), rules, t, h);
      r := AddUser(handles[h].object_, handles[h].state, ClonePast(handles[h].past));
      ClonesKeeps(old(Now()), Now(), rules, t, h, r);
      JoinedStayed(old(Now()), Now(), old(handles)[h].object_, old(handles)[h].state, ClonePast(old(handles)[h].past), r, said);
    }

    /**
     A client wants no more: alone, it stops the object; with others, it takes
     away a snapshot of what there is.
     */
    method Abort(h: HandleId, ghost t: Option<UserId>)
      requires h in handles && Valid(t)
      modifies this`objects, this`users, this`handles, this`uncached, this`next, this`said
      ensures Valid(t) && Keeps(old(Now()), Now(), t) && Aborts(old(Now()), Now(), h)
      ensures said == AbortedBy(old(said), h, old(handles)[h].object_, AloneOn(old(Now()), h))
      ensures Stayed(old(Now()), old(said), Now(), said) && Queues(old(users), old(said), users, said)
      ensures TakenAway(old(Now()), Now(), h)
    {
      hide Sane;
      hide Keeps;
      hide NoDup;
      hide DeliveredTo;
      hide ObjectOk;
      hide Stayed;
      hide Queues;
      hide TakenAway;
      SaneHandle(Now(), rules, t, h);
      ghost var o, alone := handles[h].object_, AloneOn(Now(), h);
      var u := FindUser(h, t);
      if |objects[handles[h].object_].users| > 1 {
        TakeSnapshotAway(h, u);
      } else {
        objects := objects[handles[h].object_ := Stopped(objects[handles[h].object_])];
      }
      said := AbortedBy(said, h, o, alone);
      AbortsKeeps(old(Now()), Now(), rules, t, h);
      AbortTakesAway(old(Now()), Now(), rules, t, h);
      AbortedStayed(old(Now()), Now(), h, old(said));
      AbortedQueues(old(Now()), Now(), h, old(said), alone);
    }

    /** The handle moves to a snapshot of its object, with its user unless that is being notified. */
    method TakeSnapshotAway(h: HandleId, u: UserId)
      requires h in handles && handles[h].object_ in objects && u == handles[h].user && u in users && next !in objects
      modifies this`objects, this`users, this`handles, this`uncached, this`next
      ensures AbortedShared(old(objects), old(users), old(handles), old(next), objects, users, handles, next, h)
      ensures uncached == [old(next)] + old(uncached)
    {
      var o := handles[h].object_;
      objects := objects[next := Snapshot(objects[o])];
      var mover := u;
      if users[u].target {
        mover := next;
        users := users[u := users[u].(handle := None, queued := true)];
        users := users[next := User(Some(next), Some(h), false, false)];
        handles := handles[h := handles[h].(object_ := next, user := next)];
      } else {
        objects := objects[o := WithUsers(objects[o], Without(objects[o].users, u))];
        users := users[u := users[u].(of := Some(next))];
        handles := handles[h := handles[h].(object_ := next)];
      }
      objects := objects[next := WithUsers(objects[next], [mover] + objects[next].users)];
      uncached := [next] + uncached;
      next := next + 1;
    }

    // ----- retrieving an object -----

    /** The most recently requested cached object for a URL, the first in the list of several such. */
    method NewestMatching(url: int, ghost t: Option<UserId>) returns (newest: Option<ObjectId>)
      requires Valid(t)
      ensures IsNewest(objects, cached, url, newest)
    {
      hide Sane;
      hide NoDup;
      hide NewestFirst;
      SaneLists(Now(), rules, t);
      SaneOrder(Now(), rules, t);
      assert NewestFirst(ListOf(Now(), true));
      newest := None;
      var i := 0;
      while i < |cached|
        invariant i <= |cached|
        invariant newest.Some? ==> newest.value in objects && newest.value in cached && objects[newest.value].url == url
        invariant newest.Some? ==> newest.value in cached[..i]
        invariant forall j :: 0 <= j < i && objects[cached[j]].url == url ==>
                    newest.Some? && (cached[j] == newest.value || objects[cached[j]].reqTime < objects[newest.value].reqTime
                                     || (objects[cached[j]].reqTime == objects[newest.value].reqTime && cached[j] < newest.value))
      {
        var o := cached[i];
        forall k | 0 <= k < i ensures o < cached[k] {
          LaterIsOlder(cached, k, i);
        }
        if (newest == None || objects[o].reqTime > objects[newest.value].reqTime) && objects[o].url == url {
          newest := Some(o);
        }
        i := i + 1;
      }
      forall o | o in cached ensures exists j :: 0 <= j < |cached| && cached[j] == o {
      }
    }

    /** Bring an object's source back into memory; only an object nobody uses can fail to have it. */
    method RetrievePersisted(x: ObjectId, ghost t: Option<UserId>) returns (ok: bool)
      requires x in objects && Valid(t)
      modifies this`objects, this`said
      ensures Valid(t) && Keeps(old(Now()), Now(), t)
      ensures x in objects && objects == old(objects)[x := objects[x]]
      ensures objects[x] == old(objects)[x].(source := objects[x].source, hasData := objects[x].hasData)
      ensures ok ==> (objects[x].onDisc ==> objects[x].hasData)
      ensures old(objects)[x].hasData || !old(objects)[x].onDisc ==> ok && objects == old(objects)
      ensures !ok ==> objects == old(objects) && objects[x].users == [] && objects[x].candidateCount == 0 && !Needed(objects[x])
      ensures UsedSurvive(old(objects), objects)
      ensures said == old(said).(unread := old(said).unread + if ok then 0 else 1)
    {
      hide Sane;
      hide Keeps;
      hide UsedSurvive;
      hide ReadBack;
      hide Needed;
      ghost var a := Now();
      KeepsItself(a, t);
      SurvivesItself(objects);
      SameSource(objects[x]);
      if objects[x].hasData || !objects[x].onDisc {
        ObjectItself(objects, x);
        return true;
      }
      var data: seq<Byte> := *;
      ok := *;
      WithDataSane(a, rules, t, x, data);
      WithDataSurvives(objects, x, ReadBack(objects[x], data));
      ReadBackIs(objects[x], data);
      if ok {
        objects := objects[x := ReadBack(objects[x], data)];
      } else {
        ObjectItself(objects, x);
        said := said.(unread := said.unread + 1);
      }
    }

    /** An object that is no longer wanted is taken off its list and destroyed; nobody uses it. */
    method Discard(x: ObjectId, ghost t: Option<UserId>)
      requires x in objects && objects[x].users == [] && objects[x].candidateCount == 0 && Valid(t)
      modifies this`objects, this`cached, this`uncached
      ensures Valid(t) && Keeps(old(Now()), Now(), t) && objects == old(objects) - {x}
      ensures !old(objects)[x].cached ==> cached == old(cached)
    {
      hide Sane;
      hide Keeps;
      DiscardedSane(Now(), rules, t, x);
      if objects[x].cached {
        cached := Without(cached, x);
      } else {
        uncached := Without(uncached, x);
      }
      objects := objects - {x};
    }

    /** Put a new object at the head of its list. */
    method Publish(obj: Object, ghost t: Option<UserId>) returns (r: ObjectId)
      requires obj.users == [] && ObjectOk(obj, rules) && Valid(t)
      requires obj.candidate.Some? ==>
        var c := obj.candidate.value;
        c in objects && objects[c].cached && |Referrers(objects, c)| < objects[c].candidateCount
      modifies this`objects, this`cached, this`uncached, this`next
      ensures Valid(t) && Keeps(old(Now()), Now(), t)
      ensures r !in old(objects) && objects == old(objects)[r := obj] && UsedSurvive(old(objects), objects)
      ensures r == old(next) && next == old(next) + 1
    {
      hide Sane;
      hide Keeps;
      hide ObjectOk;
      PublishedSane(Now(), rules, t, obj);
      r := next;
      objects := objects[r := obj];
      if obj.cached {
        cached := [r] + cached;
      } else {
        uncached := [r] + uncached;
      }
      next := next + 1;
    }

    /** The newest object in the cache or, if there is none, one the backing store knows of. */
    method CachedOrStored(url: int, redirects: nat, ghost t: Option<UserId>) returns (newest: Option<ObjectId>)
      requires redirects <= 11 && Valid(t)
      modifies this`objects, this`cached, this`uncached, this`next, this`said
      ensures Valid(t) && Keeps(old(Now()), Now(), t) && UsedSurvive(old(objects), objects)
      ensures newest.Some? ==> newest.value in objects && objects[newest.value].url == url && objects[newest.value].cached
      ensures forall n: ObjectId :: IsNewest(old(objects), old(cached), url, Some(n)) ==> newest == Some(n) && objects == old(objects)
      ensures newest.Some? && newest.value in old(objects) ==> IsNewest(old(objects), old(cached), url, newest)
      ensures forall x :: x in old(objects) ==> x in objects
      ensures IsNewest(old(objects), old(cached), url, None) && newest.Some? ==> newest.value !in old(objects)
      ensures said == old(said).(unknown := old(said).unknown + if newest == None then 1 else 0)
      ensures Undisturbed(old(objects), old(next), objects, next, [])
      ensures newest.Some? && newest.value !in old(objects) ==>
        objects[newest.value].redirects == redirects && !objects[newest.value].fetching
    {
      hide Sane;
      hide Keeps;
      hide IsNewest;
      hide UsedSurvive;
      hide Undisturbed;
      KeepsItself(Now(), t);
      SaneLists(Now(), rules, t);
      newest := NewestMatching(url, t);
      UndisturbedItself(objects, next);
      NewestIsThere(objects, cached, url, newest);
      SurvivesItself(objects);
      forall n: ObjectId | IsNewest(objects, cached, url, Some(n)) ensures newest == Some(n) {
        NewestIsOne(objects, cached, url, n, newest);
      }
      if newest == None {
        var stored: bool := *;
        if stored {
          var reqTime: int, expiry: int := *, *;
          UndisturbedByNew(objects, next, FromStore(url, redirects, reqTime, expiry));
          var o := Publish(FromStore(url, redirects, reqTime, expiry), t);
          newest := Some(o);
        } else {
          said := said.(unknown := said.unknown + 1);
        }
      }
    }

    /** A new object that will fall back on `c` if the server says it is still good. */
    method FetchWithCandidate(url: int, c: ObjectId, redirects: nat, hsts: bool, now: int, ghost t: Option<UserId>)
      returns (r: Option<ObjectId>)
      requires redirects <= 11 && c in objects && objects[c].cached && (objects[c].onDisc ==> objects[c].hasData) && Valid(t)
      modifies this`objects, this`cached, this`uncached, this`next, this`said
      ensures Valid(t) && Keeps(old(Now()), Now(), t) && UsedSurvive(old(objects), objects)
      ensures r.Some? ==> r.value in objects && objects[r.value] == FirstFetch(url, true, Some(c), redirects, hsts, rules, now)
      ensures r == None ==> objects == old(objects)
      ensures r.Some? ==>
        && r.value !in old(objects)
        && objects == old(objects)[c := Recounted(old(objects)[c], old(objects)[c].candidateCount + 1)][r.value := objects[r.value]]
      ensures said == old(said).(unstarted := old(said).unstarted + if r == None then 1 else 0)
      ensures Undisturbed(old(objects), old(next), objects, next, [])
      ensures r.Some? ==> Anew(objects[r.value], redirects, hsts, rules, now)
    {
      hide Sane;
      hide Keeps;
      hide UsedSurvive;
      hide ObjectOk;
      hide Recounted;
      hide Referrers;
      hide Undisturbed;
      hide Anew;
      RaisedSane(Now(), rules, t, c);
      KeepsItself(Now(), t);
      CountedUpAndDown(objects, c);
      var count := objects[c].candidateCount;
      objects := objects[c := Recounted(objects[c], count + 1)];
      var started: bool := *;
      if !started {
        objects := objects[c := Recounted(objects[c], count)];
        said := said.(unstarted := said.unstarted + 1);
        UndisturbedItself(objects, next);
        return None;
      }
      ghost var mid := Now();
      RecountedState(old(objects)[c], count + 1);
      UndisturbedByOne(old(objects), next, c, objects[c]);
      UndisturbedByNew(objects, next, FirstFetch(url, true, Some(c), redirects, hsts, rules, now));
      FirstFetchIs(url, true, Some(c), redirects, hsts, rules, now);
      FirstFetchOk(url, true, Some(c), redirects, hsts, rules, now);
      assert mid.os[c].cached by { RecountedIs(old(objects)[c], count + 1); }
      var o := Publish(FirstFetch(url, true, Some(c), redirects, hsts, rules, now), t);
      KeepsOn(old(Now()), mid, Now(), rules, t);
      UndisturbedBoth(old(objects), old(next), mid.os, mid.next, objects, next);
      SurviveOn(old(objects), mid.os, objects);
      r := Some(o);
    }

    /** A new object, fetched unconditionally. */
    method FetchNew(url: int, cacheable: bool, redirects: nat, hsts: bool, now: int, ghost t: Option<UserId>)
      returns (r: Option<ObjectId>)
      requires redirects <= 11 && Valid(t)
      modifies this`objects, this`cached, this`uncached, this`next, this`said
      ensures Valid(t) && Keeps(old(Now()), Now(), t) && UsedSurvive(old(objects), objects)
      ensures r.Some? ==> r.value in objects && objects[r.value] == FirstFetch(url, cacheable, None, redirects, hsts, rules, now)
      ensures r == None ==> objects == old(objects)
      ensures r.Some? ==> r.value !in old(objects) && objects == old(objects)[r.value := objects[r.value]]
      ensures r.Some? ==> r.value >= old(next)
      ensures said == old(said).(unstarted := old(said).unstarted + if r == None then 1 else 0) && Tried(old(said), said)
      ensures Undisturbed(old(objects), old(next), objects, next, [])
      ensures r.Some? ==> Anew(objects[r.value], redirects, hsts, rules, now)
    {
      hide Sane;
      hide Keeps;
      hide ObjectOk;
      hide Undisturbed;
      hide Anew;
      KeepsItself(Now(), t);
      var started: bool := *;
      if !started {
        said := said.(unstarted := said.unstarted + 1);
        UndisturbedItself(objects, next);
        return None;
      }
      FirstFetchIs(url, cacheable, None, redirects, hsts, rules, now);
      FirstFetchOk(url, cacheable, None, redirects, hsts, rules, now);
      UndisturbedByNew(objects, next, FirstFetch(url, cacheable, None, redirects, hsts, rules, now));
      var o := Publish(FirstFetch(url, cacheable, None, redirects, hsts, rules, now), t);
      r := Some(o);
    }

    /** The newest object for a URL, if it is fresh; or a new one that falls back on it; or, if its source is lost, one that does not. */
    method RetrieveNewest(n: ObjectId, redirects: nat, hsts: bool, now: int, ghost t: Option<UserId>) returns (r: Option<ObjectId>)
      requires redirects <= 11 && n in objects && objects[n].cached && Valid(t)
      modifies this`objects, this`cached, this`uncached, this`next, this`said
      ensures Valid(t) && Keeps(old(Now()), Now(), t) && UsedSurvive(old(objects), objects)
      ensures r.Some? ==> Retrieved(objects, r.value, old(objects)[n].url, true, now)
      ensures Served(old(objects), n, now, r, objects)
      ensures r.Some? ==> r == Some(n) || r.value !in old(objects)
      ensures Tried(old(said), said) && (r == None ==> said.unstarted > old(said).unstarted)
      ensures said.unread == old(said).unread ==> n in objects
      ensures Undisturbed(old(objects), old(next), objects, next, [])
      ensures r.Some? ==> r.value in objects
      ensures if r == Some(n) then objects[n].redirects == old(objects)[n].redirects && objects[n].fetching == old(objects)[n].fetching
              else r.Some? ==> Anew(objects[r.value], redirects, hsts, rules, now)
    {
      hide Sane;
      hide Keeps;
      hide UsedSurvive;
      hide Served;
      hide FirstFetch;
      hide Recounted;
      hide Retrieved;
      hide IsFresh;
      hide Needed;
      hide Undisturbed;
      hide Anew;
      ghost var a := Now();
      var usable, url := IsFresh(objects[n], now), objects[n].url;
      var ok := RetrievePersisted(n, t);
      ghost var b := Now();
      ReadState(a.os[n], objects[n].source, objects[n].hasData);
      UndisturbedByOne(a.os, next, n, objects[n]);
      if ok {
        BroughtBack(a.os, b.os, n, url, now);
        if usable {
          ServedFresh(a.os, b.os, n, now);
          return Some(n);
        }
        ServedStale(a.os, b.os, n, now);
        r := FetchWithCandidate(url, n, redirects, hsts, now, t);
        if r.Some? {
          NewlyRetrieved(objects, r.value, url, Some(n), redirects, hsts, rules, now);
          ServedAnew(a.os, b.os, objects, n, now, r.value, redirects, hsts, rules);
        }
        KeepsOn(a, b, Now(), rules, t);
        SurviveOn(a.os, b.os, objects);
        UndisturbedBoth(a.os, a.next, b.os, b.next, objects, next);
        return;
      }
      WithDataSurvives(objects, n, objects[n]);
      UndisturbedByLess(objects, next, n);
      Discard(n, t);
      ghost var c := Now();
      KeepsOn(a, b, c, rules, t);
      SurviveOn(a.os, b.os, c.os);
      OnlySeen(a, c, rules, t, n);
      r := FetchNew(url, true, redirects, hsts, now, t);
      if r.Some? {
        NewlyRetrieved(objects, r.value, url, None, redirects, hsts, rules, now);
      }
      ServedWithout(a.os, objects, n, now, r, url, redirects, hsts, rules);
      KeepsOn(a, c, Now(), rules, t);
      SurviveOn(a.os, c.os, objects);
      UndisturbedBoth(a.os, a.next, c.os, c.next, objects, next);
    }

    /**
     The newest cached object for a URL, by when it was requested, is used if it is
     fresh and revalidated if it is not; with none, or if its source cannot be read,
     the URL is fetched.
     */
    method RetrieveFromCache(url: int, redirects: nat, hsts: bool, now: int, ghost t: Option<UserId>)
      returns (r: Option<ObjectId>)
      requires redirects <= 11 && Valid(t)
      modifies this`objects, this`cached, this`uncached, this`next, this`said
      ensures Valid(t) && Keeps(old(Now()), Now(), t) && UsedSurvive(old(objects), objects)
      ensures r.Some? ==> Retrieved(objects, r.value, url, true, now)
      ensures forall n: ObjectId :: IsNewest(old(objects), old(cached), url, Some(n)) ==> Served(old(objects), n, now, r, objects)
      ensures IsNewest(old(objects), old(cached), url, None) && r.Some? ==> r.value !in old(objects)
      ensures Tried(old(said), said) && (r == None ==> said.unstarted > old(said).unstarted)
      ensures Undisturbed(old(objects), old(next), objects, next, [])
      ensures CountsRedirects(old(objects), r, objects, redirects, hsts, rules, now)
    {
      hide Sane;
      hide Keeps;
      hide UsedSurvive;
      hide Served;
      hide IsNewest;
      hide Retrieved;
      hide FirstFetch;
      hide Undisturbed;
      hide Anew;
      hide CountsRedirects;
      var newest := CachedOrStored(url, redirects, t);
      ghost var a := Now();
      if newest.Some? {
        r := RetrieveNewest(newest.value, redirects, hsts, now, t);
        NewestCounts(old(objects), a.os, newest.value, r, objects, redirects, hsts, rules, now);
      } else {
        r := FetchNew(url, true, redirects, hsts, now, t);
        if r.Some? {
          NewlyRetrieved(objects, r.value, url, None, redirects, hsts, rules, now);
        }
        AnewCounts(old(objects), r, objects, redirects, hsts, rules, now);
      }
      KeepsOn(old(Now()), a, Now(), rules, t);
      SurviveOn(old(objects), a.os, objects);
      UndisturbedBoth(old(objects), old(next), a.os, a.next, objects, next);
    }

    /** A client asks for a URL and is given a handle on an object, of which it has been told nothing yet. */
    method HandleRetrieve(url: int, cacheable: bool, hsts: bool, now: int, ghost t: Option<UserId>) returns (r: Option<HandleId>)
      requires Valid(t)
      modifies this
      ensures Valid(t) && Keeps(old(Now()), Now(), t) && (allCaughtUp ==> old(allCaughtUp))
      ensures r.Some? ==> !allCaughtUp && JoinedFresh(old(Now()), Now(), url, cacheable, now, r.value)
      ensures r.Some? && cacheable ==>
        forall n: ObjectId :: IsNewest(old(objects), old(cached), url, Some(n)) ==>
          r.value in handles && OnNewest(old(objects), n, now, handles[r.value].object_, objects)
      ensures r.Some? && !cacheable ==> r.value in handles && handles[r.value].object_ !in old(objects)
      ensures r == None && cacheable ==>
        forall n: ObjectId :: IsNewest(old(objects), old(cached), url, Some(n)) ==> Served(old(objects), n, now, None, objects)
      ensures Stayed(old(Now()), old(said), Now(), said) && Queues(old(users), old(said), users, said)
      ensures Tried(old(said), said) && (r == None ==> said.unstarted > old(said).unstarted)
    {
      hide Sane;
      hide Keeps;
      hide UsedSurvive;
      hide Served;
      hide OnNewest;
      hide IsNewest;
      hide Retrieved;
      hide Stayed;
      hide Queues;
      hide Undisturbed;
      hide Tried;
      var o: Option<ObjectId>;
      if cacheable {
        o := RetrieveFromCache(url, 0, hsts, now, t);
      } else {
        o := FetchNew(url, false, 0, hsts, now, t);
      }
      if o == None {
        RetrievedStayed(old(Now()), old(said), Now(), said);
        QueuesNone(users, old(said), said);
        return None;
      }
      ghost var mid := Now();
      SaneNext(mid, rules, t);
      if !cacheable {
        UncachedRetrieved(objects, o.value, url, hsts, rules, now);
      }
      RetrievedFacts(objects, o.value, url, cacheable, now);
      var h := AddUser(o.value, Init, Steady);
      RetrievedStayed(old(Now()), old(said), mid, said);
      JoinedStayed(mid, Now(), o.value, Init, Steady, h, said);
      StayedOn(old(Now()), old(said), mid, said, Now(), said);
      QueuesTried(old(users), old(said), users, said, said);
      JoiningKeeps(mid, Now(), rules, t, o.value, h);
      KeepsOn(old(Now()), mid, Now(), rules, t);
      StillThere(mid.os, objects, o.value, url, cacheable, now);
      forall n: ObjectId | cacheable && IsNewest(old(objects), old(cached), url, Some(n))
        ensures OnNewest(old(objects), n, now, o.value, objects)
      {
        ServedIsOn(old(objects), n, now, o.value, mid.os, objects);
      }
      UsersNotCaughtUp();
      r := Some(h);
    }

    /**
     A client is called, and with that has been told what its handle records: it may
     make any calls of its own, in any number, before it answers.
     */
    method Call(h: HandleId, told: Handle, ghost u: UserId) returns (reply: Reply)
      requires h in handles && told.object_ == handles[h].object_ && told.user == handles[h].user
      requires Sane(WithHandle(Now(), h, told), rules, Some(u)) && QueuedHaveLeft(users, said, said)
      modifies this
      ensures Valid(Some(u)) && Keeps(WithHandle(old(Now()), h, told), Now(), Some(u)) && (allCaughtUp ==> old(allCaughtUp))
      ensures Stayed(old(Now()), old(said), Now(), said) && QueuedHaveLeft(users, old(said), said)
      ensures said.answers == old(said).answers + [Answer(h, reply)]
    {
      hide Sane;
      hide Keeps;
      hide Stayed;
      hide QueuedHaveLeft;
      hide Queues;
      hide Since;
      StayedTold(Now(), said, h, told);
      handles := handles[h := told];
      ghost var b := Now();
      KeepsItself(b, Some(u));
      var calls: nat := *;
      while calls > 0
        invariant Valid(Some(u)) && Keeps(b, Now(), Some(u)) && (allCaughtUp ==> old(allCaughtUp))
        invariant Stayed(old(Now()), old(said), Now(), said) && QueuedHaveLeft(users, old(said), said)
        invariant said.answers == old(said).answers
      {
        ghost var mid, midSaid := Now(), said;
        var which: nat, g: HandleId := *, *;
        if which == 0 {
          var url: int, cacheable: bool, hsts: bool, now: int := *, *, *, *;
          var r := HandleRetrieve(url, cacheable, hsts, now, Some(u));
        } else if g in handles {
          if which == 1 {
            Release(g, Some(u));
          } else if which == 2 {
            var r := Clone(g, Some(u));
          } else {
            Abort(g, Some(u));
          }
        } else {
          KeepsItself(Now(), Some(u));
          StayedItself(Now(), said, said);
          QueuesNone(users, said, said);
        }
        KeepsOn(b, mid, Now(), rules, Some(u));
        StayedSince(old(Now()), old(said), mid, midSaid);
        StayedOn(old(Now()), old(said), mid, midSaid, Now(), said);
        QueuesOn(mid.us, old(said), midSaid, users, said);
        calls := calls - 1;
      }
      reply := *;
      StayedAnswered(old(Now()), old(said), Now(), said, Answer(h, reply));
      AnswerIsNoLeaving(users, old(said), said, Answer(h, reply));
      said := said.(answers := said.answers + [Answer(h, reply)]);
    }

    // ----- telling users -----

    /** The user behind another in its list. */
    method UserAfter(o: ObjectId, u: UserId) returns (n: Option<UserId>)
      requires o in objects && u in objects[o].users
      ensures n == First(After(objects[o].users, u))
    {
      var list, i := objects[o].users, 0;
      while list[i] != u
        invariant 0 <= i < |list| && u in list[i..] && After(list, u) == After(list[i..], u)
        decreases |list| - i
      {
        assert list[i..][1..] == list[i + 1..];
        i := i + 1;
      }
      assert list[i..][1..] == list[i + 1..];
      n := if i + 1 < |list| then Some(list[i + 1]) else None;
    }

    /**
     Call the client that is being notified and act on its answer: a user that
     was released meanwhile goes, one that asks for a replay gets its handle put
     back to `undo`, and an error ends the notification.
     */
    method Emit(o: ObjectId, u: UserId, h: HandleId, told: Handle, undo: Handle, ghost a: Cache) returns (v: Verdict, n: Option<UserId>)
      requires h in handles && told.object_ == handles[h].object_ && told.user == handles[h].user
      requires Telling1(a, WithHandle(Now(), h, told), rules, o, u, h)
      requires undo.object_ == o && undo.user == u && undo.state != Complete && Undoable(a, Now(), o, h, undo)
      modifies this
      ensures allCaughtUp ==> old(allCaughtUp)
      ensures v.Go? ==> Telling1(a, Now(), rules, o, u, h) && ToldSame(WithHandle(old(Now()), h, told), Now(), o, h)
      ensures !v.Go? ==> Sane(Now(), rules, None) && Notified(a, Now(), o, u, n)
      ensures v.NextUser? && (allCaughtUp || AllOk(old(said), said)) ==> IsGone(Now(), o, u)
      ensures Stayed(old(Now()), old(said), Now(), said) && Heard(old(said), said, h, v) && |said.answers| == |old(said).answers| + 1
      ensures v.NextUser? && !HasLeft(old(said), said, h) ==>
        h in handles && handles[h] == undo && o in objects && o in old(objects) && objects[o].source == old(objects)[o].source
    {
      hide Sane;
      hide Keeps;
      hide Going;
      hide Notified;
      hide DeliveredTo;
      hide ListNumbered;
      hide Numbered;
      hide NoDup;
      hide Stayed;
      hide Heard;
      hide QueuedHaveLeft;
      hide HasLeft;
      ghost var b := WithHandle(Now(), h, told);
      NotQueuedYet(a, b, rules, o, u, h, said);
      var reply := Call(h, told, u);
      TellingCalled(a, b, Now(), rules, o, u, h);
      ghost var c, cSaid := Now(), said;
      CallDecided(b, c, rules, u, h, old(Now()), old(said), said);
      if users[u].queued {
        GoneOn(a, Now(), rules, o, u);
        Dropping(Now(), rules, o, u);
        n := UserAfter(o, u);
        DroppedStayed(old(Now()), old(said), c, said, o, u);
        DropUser(o, u);
        v := if reply.Ok? then NextUser else Stop;
        HeardOnce(old(said), said, h, reply, v);
        return;
      }
      if reply.NeedData? {
        StillUndoable(a, old(Now()), Now(), o, h, undo);
        TellingTold(a, Now(), rules, o, u, h, undo);
        StayedTold(c, said, h, undo);
        handles := handles[h := undo];
        StayedOn(old(Now()), old(said), c, said, Now(), said);
      }
      HeardOnce(old(said), said, h, reply, Consequence(reply));
      if !reply.Ok? {
        GoneOn(a, Now(), rules, o, u);
        Unmarking(Now(), rules, u);
        n := UserAfter(o, u);
        ghost var d := Now();
        users := users[u := users[u].(target := false)];
        StayedAlike(old(Now()), old(said), d, said, Now());
        if reply.NeedData? {
          UsersNotCaughtUp();
          return NextUser, n;
        }
        return Stop, n;
      }
      v, n := Go, None;
    }

    /** A user not yet started is started, and shown the certificates the object holds. */
    method TellStart(o: ObjectId, u: UserId, h: HandleId, s: FetchState, ghost a: Cache) returns (v: Verdict, n: Option<UserId>)
      requires Telling1(a, Now(), rules, o, u, h) && o in a.os && s == a.os[o].state && Past(0, Now(), o, h, s)
      modifies this
      ensures allCaughtUp ==> old(allCaughtUp)
      ensures v.Go? ==> Telling1(a, Now(), rules, o, u, h) && Past(1, Now(), o, h, s)
      ensures !v.Go? ==> Sane(Now(), rules, None) && Notified(a, Now(), o, u, n)
      ensures v.NextUser? && (allCaughtUp || AllOk(old(said), said)) ==> IsGone(Now(), o, u)
      ensures Stayed(old(Now()), old(said), Now(), said) && Heard(old(said), said, h, v)
      ensures |said.answers| == |old(said).answers| + if old(handles)[h].state == Init && Rank(s) > 0 && old(objects)[o].certs then 1 else 0
      ensures v.NextUser? && !HasLeft(old(said), said, h) ==> PutBack(Now(), o, h, s)
    {
      hide Sane;
      hide Telling1;
      hide Notified;
      hide DeliveredTo;
      hide ObjectOk;
      hide Stayed;
      hide Heard;
      TellingFacts(a, Now(), rules, o, u, h);
      v, n := Go, None;
      StayedItself(Now(), said, said);
      HeardNothing(said, h);
      if handles[h].state == Init && Rank(s) > 0 {
        Tell(a, Now(), rules, o, u, h);
        var started := handles[h].(state := Headers);
        StayedTold(Now(), said, h, started);
        handles := handles[h := started];
        if objects[o].certs {
          ghost var b := Now();
          WithItself(handles, h);
          v, n := Emit(o, u, h, started, started, a);
          StayedOn(old(Now()), old(said), b, old(said), Now(), said);
        }
      }
    }

    /** HAD_HEADERS, once the object has data. */
    method TellHeaders(o: ObjectId, u: UserId, h: HandleId, s: FetchState, ghost a: Cache) returns (v: Verdict, n: Option<UserId>)
      requires Telling1(a, Now(), rules, o, u, h) && o in a.os && s == a.os[o].state && Past(1, Now(), o, h, s)
      modifies this
      ensures allCaughtUp ==> old(allCaughtUp)
      ensures v.Go? ==> Telling1(a, Now(), rules, o, u, h) && Past(2, Now(), o, h, s)
      ensures !v.Go? ==> Sane(Now(), rules, None) && Notified(a, Now(), o, u, n)
      ensures v.NextUser? && (allCaughtUp || AllOk(old(said), said)) ==> IsGone(Now(), o, u)
      ensures Stayed(old(Now()), old(said), Now(), said) && Heard(old(said), said, h, v)
      ensures |said.answers| == |old(said).answers| + if old(handles)[h].state == Headers && Rank(s) > 1 then 1 else 0
      ensures v.NextUser? && !HasLeft(old(said), said, h) ==> PutBack(Now(), o, h, s)
    {
      hide Sane;
      hide Telling1;
      hide Notified;
      hide DeliveredTo;
      hide ObjectOk;
      hide Stayed;
      hide Heard;
      TellingFacts(a, Now(), rules, o, u, h);
      v, n := Go, None;
      StayedItself(Now(), said, said);
      HeardNothing(said, h);
      if handles[h].state == Headers && Rank(s) > 1 {
        Tell(a, Now(), rules, o, u, h);
        var undo := handles[h];
        v, n := Emit(o, u, h, undo.(state := Data, log := undo.log + [HadHeaders]), undo, a);
      }
    }

    /** HAD_DATA with the source from where the user has got to; it is in memory. */
    method TellData(o: ObjectId, u: UserId, h: HandleId, s: FetchState, ghost a: Cache) returns (v: Verdict, n: Option<UserId>)
      requires Telling1(a, Now(), rules, o, u, h) && o in a.os && s == a.os[o].state && Past(2, Now(), o, h, s)
      modifies this
      ensures allCaughtUp ==> old(allCaughtUp)
      ensures v.Go? ==> Telling1(a, Now(), rules, o, u, h) && Past(3, Now(), o, h, s)
      ensures !v.Go? ==> Sane(Now(), rules, None) && Notified(a, Now(), o, u, n)
      ensures v.NextUser? && (allCaughtUp || AllOk(old(said), said)) ==> IsGone(Now(), o, u)
      ensures Stayed(old(Now()), old(said), Now(), said) && Heard(old(said), said, h, v)
      ensures |said.answers| == |old(said).answers|
        + if old(handles)[h].state == Data && Rank(s) > 1 && |old(objects)[o].source| > old(handles)[h].bytes then 1 else 0
      ensures v.NextUser? && !HasLeft(old(said), said, h) ==> PutBack(Now(), o, h, s)
    {
      hide Sane;
      hide Telling1;
      hide Notified;
      hide DeliveredTo;
      hide ObjectOk;
      hide Stayed;
      hide Heard;
      TellingFacts(a, Now(), rules, o, u, h);
      v, n := Go, None;
      StayedItself(Now(), said, said);
      HeardNothing(said, h);
      if handles[h].state == Data && Rank(s) > 1 && |objects[o].source| > handles[h].bytes {
        Tell(a, Now(), rules, o, u, h);
        assert objects[o].hasData;
        var undo, source := handles[h], objects[o].source;
        v, n := Emit(o, u, h, undo.(bytes := |source|, log := undo.log + [HadData(source[undo.bytes..])]), undo, a);
      }
    }

    /** DONE, once the object is complete. */
    method TellDone(o: ObjectId, u: UserId, h: HandleId, s: FetchState, ghost a: Cache) returns (v: Verdict, n: Option<UserId>)
      requires Telling1(a, Now(), rules, o, u, h) && o in a.os && s == a.os[o].state && Past(3, Now(), o, h, s)
      modifies this
      ensures allCaughtUp ==> old(allCaughtUp)
      ensures v.Go? ==> Telling1(a, Now(), rules, o, u, h) && Past(4, Now(), o, h, s)
      ensures !v.Go? ==> Sane(Now(), rules, None) && Notified(a, Now(), o, u, n)
      ensures v.NextUser? && (allCaughtUp || AllOk(old(said), said)) ==> IsGone(Now(), o, u)
      ensures Stayed(old(Now()), old(said), Now(), said) && Heard(old(said), said, h, v)
      ensures |said.answers| == |old(said).answers| + if old(handles)[h].state == Data && Rank(s) > 2 then 1 else 0
      ensures v.NextUser? && !HasLeft(old(said), said, h) ==> PutBack(Now(), o, h, s)
    {
      hide Sane;
      hide Telling1;
      hide Notified;
      hide DeliveredTo;
      hide ObjectOk;
      hide Stayed;
      hide Heard;
      TellingFacts(a, Now(), rules, o, u, h);
      v, n := Go, None;
      StayedItself(Now(), said, said);
      HeardNothing(said, h);
      if handles[h].state == Data && Rank(s) > 2 {
        Tell(a, Now(), rules, o, u, h);
        var undo := handles[h];
        v, n := Emit(o, u, h, undo.(state := Complete, log := undo.log + [Done]), undo, a);
      }
    }

    /** Bring one user up to date with its object, step by step, a call to its client at each. */
    method NotifyOne(o: ObjectId, u: UserId) returns (v: Verdict, n: Option<UserId>)
      requires o in objects && u in objects[o].users && Valid(None)
      modifies this
      ensures Valid(None) && Notified(old(Now()), Now(), o, u, n) && (allCaughtUp ==> old(allCaughtUp))
      ensures v != Stop && (allCaughtUp || AllOk(old(said), said)) ==>
        IsGone(Now(), o, u) || UserCaughtUp(Now(), o, u, old(objects)[o].state)
      ensures v != Go && HasBeenTold(old(Now()), old(said), Now(), said, o, u, v)
    {
      hide Sane;
      hide Telling1;
      hide Notified;
      hide Going;
      hide CaughtUp;
      hide DeliveredTo;
      hide ListNumbered;
      hide Numbered;
      hide NoDup;
      hide Past;
      hide Stayed;
      hide Heard;
      hide HasBeenTold;
      hide PutBack;
      hide HasLeft;
      hide AllOk;
      hide UserCaughtUp;
      hide IsGone;
      ghost var a := Now();
      TellingStarts(a, rules, o, u);
      var s, h := objects[o].state, users[u].handle.value;
      users := users[u := users[u].(target := true)];
      TellingMeans(a, Now(), rules, o, u, h);
      ghost var b, c, r := Now(), Now(), said;
      PastNone(b, o, h, s);
      v, n := TellStart(o, u, h, s, a);
      if v.Go? {
        c, r := Now(), said;
        v, n := TellHeaders(o, u, h, s, a);
        HeardFurther(b, old(said), c, r, Now(), said, h, v);
      }
      if v.Go? {
        c, r := Now(), said;
        v, n := TellData(o, u, h, s, a);
        HeardFurther(b, old(said), c, r, Now(), said, h, v);
      }
      if v.Go? {
        c, r := Now(), said;
        v, n := TellDone(o, u, h, s, a);
        HeardFurther(b, old(said), c, r, Now(), said, h, v);
      }
      StayedFrom(b, old(said), Now(), said, a);
      if v.Go? {
        c := Now();
        AllTold(a, c, rules, o, u, h);
        n := UserAfter(o, u);
        users := users[u := users[u].(target := false)];
        StayedAlike(a, old(said), c, said, Now());
        v := NextUser;
        ToldAll(a, Now(), old(said), said, o, u, h);
      } else {
        NotifiedFacts(a, Now(), o, u, n);
        ToldUntil(a, Now(), old(said), said, o, u, h, v);
      }
    }

    /**
     Bring every user of an object up to date. The next user is found only when
     one is done with, whatever its client did meanwhile. If nobody deferred,
     those who were there at the start are caught up or gone.
     */
    method NotifyUsers(o: ObjectId) returns (ok: bool)
      requires o in objects && Valid(None)
      modifies this
      ensures Valid(None) && Advances(old(Now()), Now()) && (allCaughtUp ==> old(allCaughtUp))
      ensures o in objects && ObjectKept(old(objects)[o], objects[o])
      ensures ok && (allCaughtUp || AllOk(old(said), said)) ==> AllCaughtUp(old(Now()), Now(), o)
      ensures Followed(old(objects), old(next), objects) && OthersCaughtUp(old(Now()), Now(), o)
      ensures UsersTold(old(Now()), old(said), Now(), said, o, ok)
    {
      hide Sane;
      hide Notified;
      hide Advances;
      hide AllCaughtUp;
      hide NoDup;
      hide EachTold;
      hide HasBeenTold;
      hide UsersTold;
      hide Rest;
      hide First;
      hide AllOk;
      hide Notifying;
      ghost var a, s := Now(), said;
      var user := First(objects[o].users);
      Beginning(a, rules, o);
      EachToldStarts(a, s, o);
      FirstIsAll(objects[o].users);
      while user.Some?
        invariant Valid(None) && (allCaughtUp ==> old(allCaughtUp))
        invariant Notifying(a, Now(), o, user, allCaughtUp || AllOk(s, said))
        invariant o in objects && EachTold(a, s, Now(), said, o, Rest(objects[o].users, user)) && s.answers <= said.answers
        decreases |Rest(if o in objects then objects[o].users else [], user)|
      {
        ghost var b, t := Now(), said;
        ghost var was := allCaughtUp || AllOk(s, t);
        NotifyingFacts(a, b, o, user, was);
        var v, n := NotifyOne(o, user.value);
        ToldSince(b, t, Now(), said, o, user.value, v);
        AllOkOn(s, t, said);
        Continuing(a, b, Now(), rules, o, user.value, n, v == Stop, was, allCaughtUp || AllOk(s, said));
        if v.Stop? {
          ToldUntilStopped(a, b, Now(), s, t, said, o, Rest(b.os[o].users, user), user.value);
          return false;
        }
        EachToldOn(a, b, Now(), rules, s, t, said, o, user.value, n);
        user := n;
      }
      Ending(a, Now(), o, allCaughtUp || AllOk(s, said));
      RestOfNone(objects[o].users);
      ToldEverybody(a, Now(), rules, s, said, o);
      ok := true;
    }

    /** Tell every user of an object of an event, until one answers with an error. */
    method SendEventToUsers(o: ObjectId) returns (reply: Reply)
      requires o in objects && Valid(None)
      modifies this
      ensures Valid(None) && Untold(old(Now()), Now(), o)
      ensures AllAsked(old(Now()), old(said), Now(), said, o, reply == Ok)
    {
      hide Sane;
      hide Untold;
      hide Numbered;
      hide AskedSoFar;
      hide AskedOne;
      hide AllAsked;
      hide Stayed;
      hide RestKept;
      hide Rest;
      hide First;
      ghost var a, s := Now(), said;
      UntoldItself(a, o);
      SaneNext(a, rules, None);
      AskedStarts(a, s, o);
      FirstIsAll(objects[o].users);
      FirstIsOne(objects[o].users);
      reply := Ok;
      var user := First(objects[o].users);
      while user.Some?
        invariant Valid(None) && Untold(a, Now(), o) && reply == Ok
        invariant o in objects && (user.Some? ==> user.value in objects[o].users)
        invariant AskedSoFar(a, s, Now(), said, o, Rest(objects[o].users, user))
        decreases |Rest(if o in objects then objects[o].users else [], user)|
      {
        ghost var b, t := Now(), said;
        var n;
        reply, n := SendEventTo(o, user.value);
        UntoldOn(a, b, Now(), o);
        RestKeptLength(b.os[o].users, user.value, objects[o].users, n, b.next);
        RestIsMore(b.os[o].users, user.value);
        if !reply.Ok? {
          AskedUntil(a, b, Now(), s, t, said, o, Rest(b.os[o].users, user), user.value, reply);
          return;
        }
        AskedOn(a, b, Now(), rules, s, t, said, o, user.value, n);
        user := n;
      }
      RestOfNone(objects[o].users);
      AskedAll(a, Now(), rules, s, said, o);
    }

    method SendEventTo(o: ObjectId, u: UserId) returns (reply: Reply, n: Option<UserId>)
      requires o in objects && u in objects[o].users && Valid(None)
      modifies this
      ensures Valid(None) && Untold(old(Now()), Now(), o)
      ensures o in objects && RestKept(old(objects)[o].users, u, objects[o].users, n, old(next))
      ensures AskedOne(old(Now()), old(said), said, u, reply) && Stayed(old(Now()), old(said), Now(), said)
    {
      hide Sane;
      hide Keeps;
      hide Untold;
      hide Going;
      hide ListNumbered;
      hide Numbered;
      hide NoDup;
      hide Stayed;
      hide QueuedHaveLeft;
      hide RestKept;
      hide HasLeft;
      ghost var a := Now();
      CalledForEvent(a, rules, o, u);
      var wasTarget := users[u].target;
      users := users[u := users[u].(target := true)];
      ghost var b := Now();
      var h := users[u].handle.value;
      WithItself(handles, h);
      NobodyQueued(b, rules, u, said);
      reply := Call(h, handles[h], u);
      ghost var c := Now();
      EventAnswered(a, b, c, rules, o, u);
      CallDecided(b, c, rules, u, h, b, old(said), said);
      StayedFrom(b, old(said), c, said, a);
      n := UserAfter(o, u);
      if users[u].queued && !wasTarget {
        DroppedStayed(a, old(said), c, said, o, u);
        DropUser(o, u);
      } else {
        users := users[u := users[u].(target := wasTarget)];
        StayedAlike(a, old(said), c, said, Now());
      }
    }

    /** A user leaves one object's list and joins another's, its handle with it. */
    method MoveUser(o: ObjectId, u: UserId, dest: ObjectId)
      requires o in objects && dest in objects && o != dest && u in users && users[u].handle.Some? && users[u].handle.value in handles
      modifies this`objects, this`users, this`handles
      ensures Now() == MovedUser(old(Now()), o, u, old(users)[u].handle.value, dest)
    {
      var h := users[u].handle.value;
      objects := objects[o := WithUsers(objects[o], Without(objects[o].users, u))];
      objects := objects[dest := WithUsers(objects[dest], [u] + objects[dest].users)];
      users := users[u := users[u].(of := Some(dest))];
      handles := handles[h := MovedHandle(handles[h], dest)];
    }

    /** Every user of an object moves to another object, however much it has been given. */
    method MoveUsers(o: ObjectId, dest: ObjectId)
      requires o in objects && dest in objects && o != dest && Valid(None) && Movable(handles, o, rules)
      requires objects[dest].onDisc ==> objects[dest].hasData
      modifies this`objects, this`users, this`handles
      ensures Valid(None) && HandlesMoved(old(handles), handles, o, dest) && users.Keys == old(users).Keys
      ensures Shifted(old(objects), objects, o, dest) && objects[o].users == []
    {
      hide Sane;
      hide Movable;
      hide SomeMoved;
      ShiftedItself(objects, o, dest);
      SomeMovedItself(handles, o, dest);
      while objects[o].users != []
        invariant Valid(None) && SomeMoved(old(handles), handles, o, dest) && users.Keys == old(users).Keys
        invariant Shifted(old(objects), objects, o, dest)
        decreases if o in objects then |objects[o].users| else 0
      {
        var u := objects[o].users[0];
        MovableStill(old(handles), handles, o, dest, rules);
        MovingUser(Now(), rules, o, u, dest);
        SomeMovedOn(old(handles), handles, o, dest, users[u].handle.value);
        ShiftedOn(old(objects), objects, o, dest);
        hide *;
        MoveUser(o, u, dest);
      }
      AllMoved(old(Now()), Now(), rules, o, dest);
    }

    // ----- what the fetcher says -----

    /** The object will not fall back on its candidate. */
    method DropCandidate(o: ObjectId)
      requires o in objects && Valid(None)
      modifies this`objects
      ensures Valid(None) && o in objects && objects[o] == old(objects)[o].(candidate := None)
      ensures objects.Keys == old(objects).Keys
      ensures old(objects)[o].candidate.Some? ==>
        var c := old(objects)[o].candidate.value;
        c in objects && c in old(objects) && old(objects)[c].candidateCount > 0
        && objects[c] == Recounted(old(objects)[c], old(objects)[c].candidateCount - 1)
      ensures OthersCounted(old(objects), objects, o)
    {
      hide Sane;
      if objects[o].candidate.Some? {
        DroppingCandidate(Now(), rules, o);
        var c := objects[o].candidate.value;
        objects := objects[o := objects[o].(candidate := None)];
        objects := objects[c := Recounted(objects[c], objects[c].candidateCount - 1)];
      }
    }

    method OnHeaderMessage(o: ObjectId, expiry: int, noCache: Validate)
      requires o in objects && objects[o].fetching && (Single(rules) ==> !objects[o].answered) && Valid(None)
      modifies this`objects
      ensures Valid(None) && objects == old(objects)[o := OnHeader(old(objects)[o], expiry, noCache)]
      ensures o in objects && Became(HeaderCame(expiry, noCache), old(objects)[o], objects[o])
    {
      hide Sane;
      hide ObjectOk;
      hide DeliveredTo;
      hide Tame;
      hide Became;
      SaneObject(Now(), rules, None, o);
      forall h ensures DeliveredTo(h, objects[o]) ==> DeliveredTo(h, OnHeader(objects[o], expiry, noCache)) {
        HeaderOk(objects[o], rules, expiry, noCache, h);
      }
      HeaderOk(objects[o], rules, expiry, noCache, NewHandle(0, 0, Init, Steady));
      ObjectSet(Now(), rules, None, o, OnHeader(objects[o], expiry, noCache));
      HeaderBecame(objects[o], expiry, noCache);
      objects := objects[o := OnHeader(objects[o], expiry, noCache)];
    }

    /** Data is appended to the source; with the first of it the candidate is given up. */
    method ProcessData(o: ObjectId, data: seq<Byte>, invalidate: bool)
      requires o in objects && objects[o].fetching && Valid(None)
      modifies this`objects
      ensures Valid(None) && o in objects && objects.Keys == old(objects).Keys
      ensures objects[o] == OnData(old(objects)[o].(candidate := None), data, invalidate)
      ensures Became(DataCame(data, invalidate), old(objects)[o], objects[o]) && OthersCounted(old(objects), objects, o)
    {
      hide Sane;
      hide OnData;
      hide Became;
      hide Recounted;
      if objects[o].state != Data {
        DropCandidate(o);
      } else {
        DataLeavesNoCandidate(Now(), rules, o);
      }
      DataBecame(old(objects)[o], data, invalidate);
      DataArrives(Now(), rules, o, data, invalidate);
      objects := objects[o := OnData(objects[o], data, invalidate)];
    }

    method OnFinishedMessage(o: ObjectId)
      requires o in objects && objects[o].fetching && Valid(None)
      modifies this`objects
      ensures Valid(None) && o in objects && objects.Keys == old(objects).Keys
      ensures objects[o].state == Complete && !objects[o].fetching && objects[o].source == old(objects)[o].source
      ensures Became(FetchFinished, old(objects)[o], objects[o]) && OthersCounted(old(objects), objects, o)
    {
      hide Sane;
      hide ObjectOk;
      hide DeliveredTo;
      hide Tame;
      hide Became;
      hide OthersCounted;
      var hasData: bool := *;
      SaneObject(Now(), rules, None, o);
      forall h ensures DeliveredTo(h, objects[o]) ==> DeliveredTo(h, OnFinished(objects[o], hasData)) {
        FinishedOk(objects[o], rules, hasData, h);
      }
      FinishedOk(objects[o], rules, hasData, NewHandle(0, 0, Init, Steady));
      ObjectSet(Now(), rules, None, o, OnFinished(objects[o], hasData));
      FinishedBecame(objects[o], hasData);
      OneChanged(objects, o, OnFinished(objects[o], hasData));
      objects := objects[o := OnFinished(objects[o], hasData)];
    }

    /** Nothing more will be fetched for the object. */
    method StopFetch(o: ObjectId)
      requires o in objects && Valid(None)
      modifies this`objects
      ensures Valid(None) && objects == old(objects)[o := Stopped(old(objects)[o])]
    {
      hide Sane;
      hide Stopped;
      StoppingKeeps(Now(), rules, None, o);
      objects := objects[o := Stopped(objects[o])];
    }

    /** The server says the candidate is still good: the clients move to it. Without one the object is kept, finished. */
    method NotModified(o: ObjectId) returns (replacement: ObjectId)
      requires o in objects && objects[o].fetching && Valid(None)
      modifies this`objects, this`users, this`handles
      ensures Valid(None) && replacement in objects && Advances(old(Now()), Now())
      ensures old(objects)[o].candidate == None ==> replacement == o && objects == old(objects)[o := Stopped(old(objects)[o])]
      ensures old(objects)[o].candidate.Some? ==>
        replacement == old(objects)[o].candidate.value && HandedOver(old(Now()), Now(), o, replacement)
      ensures o in objects && Became(StillGood, old(objects)[o], objects[o])
      ensures handles.Keys == old(handles).Keys
    {
      hide Sane;
      hide Became;
      hide GaveUp;
      hide Stopped;
      hide HandedOver;
      if objects[o].candidate.Some? {
        replacement := objects[o].candidate.value;
        HandOver(o, replacement);
      } else {
        replacement := o;
        StoppedGaveUp(objects[o]);
        StopFetch(o);
        SameClientsAdvance(old(Now()), Now());
      }
      GaveUpBecameSame(old(objects)[o], objects[o]);
    }

    method HandOver(o: ObjectId, c: ObjectId)
      requires o in objects && objects[o].fetching && objects[o].candidate == Some(c) && Valid(None)
      modifies this`objects, this`users, this`handles
      ensures Valid(None) && c in objects && Advances(old(Now()), Now()) && HandedOver(old(Now()), Now(), o, c)
      ensures o in objects && GaveUp(old(objects)[o], objects[o])
      ensures handles.Keys == old(handles).Keys
    {
      hide Sane;
      hide Movable;
      hide GivenNothing;
      hide Advances;
      hide HandlesMoved;
      hide Shifted;
      hide HandedOver;
      hide Stopped;
      hide Revalidated;
      hide Recounted;
      hide GaveUp;
      hide OthersCounted;
      ghost var a := Now();
      CandidateMeansUnread(a, rules, o);
      CandidateReadable(a, rules, o);
      MoveUsers(o, c);
      ghost var b := objects;
      MovedHandlesKeys(a.hs, handles, o, c);
      ShiftedKeys(a.os, b, o, c);
      DropCandidate(o);
      var expiry: int := *;
      Revalidating(Now(), rules, c, o, expiry);
      objects := objects[c := Revalidated(objects[c], objects[o], expiry)];
      StopFetch(o);
      assert Settled(b, objects, o, c, expiry);
      HandOverDone(a, b, Now(), o, c, expiry);
      MovedAdvance(a, Now(), o, c);
      HandedOverGaveUp(a.os[o], b[o].users);
    }

    /** Retrieve for a redirect: what is not cacheable is fetched anew. */
    method Retrieve(url: int, cacheable: bool, redirects: nat, hsts: bool, now: int) returns (r: Option<ObjectId>)
      requires redirects <= 11 && Valid(None)
      modifies this`objects, this`cached, this`uncached, this`next, this`said
      ensures Valid(None) && Keeps(old(Now()), Now(), None) && UsedSurvive(old(objects), objects)
      ensures r.Some? ==> Retrieved(objects, r.value, url, cacheable, now)
      ensures cacheable ==>
        forall n: ObjectId :: IsNewest(old(objects), old(cached), url, Some(n)) ==> Served(old(objects), n, now, r, objects)
      ensures Tried(old(said), said) && (r == None ==> said.unstarted > old(said).unstarted)
      ensures Undisturbed(old(objects), old(next), objects, next, [])
      ensures CountsRedirects(old(objects), r, objects, redirects, hsts, rules, now)
    {
      hide Sane;
      hide Keeps;
      hide Served;
      hide IsNewest;
      hide Undisturbed;
      if cacheable {
        r := RetrieveFromCache(url, redirects, hsts, now, None);
      } else {
        r := FetchNew(url, false, redirects, hsts, now, None);
      }
    }

    /**
     The server sends the object's clients elsewhere: they are told, and if the
     redirect is followed they move, whatever they have been given.
     */
    method OnRedirect(o: ObjectId, to: Redirection, now: int) returns (ok: bool, replacement: ObjectId)
      requires o in objects && objects[o].fetching && now >= 0 && Movable(handles, o, rules) && Valid(None)
      modifies this
      ensures Valid(None) && Drifts(old(Now()), Now(), Lateness(old(handles), o)) && replacement in objects
      ensures old(objects)[o].redirects > REDIRECT_LIMIT || !IsFollowed(to) ==> replacement == o
      ensures replacement != o ==>
        Retrieved(objects, replacement, to.url, to.cacheable, now) && o in objects && objects[o].users == []
      ensures o in objects && GaveUp(old(objects)[o].(candidate := None), objects[o].(candidate := None))
      ensures objects[o].candidate == old(objects)[o].candidate
      ensures ok && old(objects)[o].redirects <= REDIRECT_LIMIT && IsFollowed(to) ==> replacement != o
      ensures !ok ==> replacement == o
      ensures Remained(old(handles), old(said), handles, said)
      ensures Consulted(old(handles), old(said), said, o, AllOk(old(said), said))
      ensures old(objects)[o].redirects <= REDIRECT_LIMIT && IsFollowed(to) && AllOk(old(said), said) ==>
        replacement != o || said.unstarted > old(said).unstarted
      ensures replacement != o ==> AllMovedTo(old(handles), old(said), handles, said, o, replacement)
    {
      hide Sane;
      hide Untouched;
      hide Unfinished;
      hide Unread;
      hide Untold;
      hide Advances;
      hide Drifts;
      hide Lateness;
      hide NoFurther;
      hide Numbered;
      hide ObjectKept;
      hide Retrieved;
      hide GaveUp;
      hide OnlyMoved;
      hide Stayed;
      hide Remained;
      hide Consulted;
      hide AllAsked;
      hide AllOk;
      hide Tried;
      hide Since;
      hide HandlesMoved;
      hide AllMovedTo;
      ghost var a := Now();
      replacement := o;
      SaneNext(a, rules, None);
      NotOnDisc(a, rules, o);
      StopFetch(o);
      StoppedUntold(a, Now(), o);
      ghost var b := Now();
      var tooMany := objects[o].redirects > REDIRECT_LIMIT;
      var reply := SendEventToUsers(o);
      UntoldOn(a, b, Now(), o);
      UntoldFacts(a, Now(), o);
      UntoldFacts(b, Now(), o);
      AdvancesDrifts(a, Now(), Lateness(a.hs, o));
      ok := reply.Ok?;
      AskedMeans(b, old(said), Now(), said, o, ok);
      StoppedGaveUp(a.os[o]);
      KeptCandidate(a.os[o], b.os[o], objects[o]);
      if tooMany || !ok || !to.allowed || !to.canFetch {
        return;
      }
      if to.code !in {301, 302, 303} && (to.code != 307 || to.post) {
        return;
      }
      ghost var c, t := Now(), said;
      AskedStayed(b, old(said), c, t, o, true);
      KeptRedirect(b.os[o], c.os[o]);
      MovableOn(a.hs, c.hs, o, rules);
      NoLater(a.hs, c.hs, o);
      ok, replacement := FollowRedirect(o, to, now);
      ConsultedTried(a.hs, old(said), t, said, o, true);
      RemainedTried(a.hs, old(said), c.hs, t, handles, said);
      if replacement != o {
        AskedAndMoved(b, old(said), c, t, handles, said, o, replacement);
      }
      GaveUpMoved(a.os[o].(candidate := None), c.os[o], objects[o]);
      DriftsOn(a, c, Now(), Lateness(a.hs, o), Lateness(c.hs, o));
    }

    /** After a redirect that is followed, a client may hold what is not the beginning of its source exactly if one had been given data. */
    method FollowRedirect(o: ObjectId, to: Redirection, now: int) returns (ok: bool, replacement: ObjectId)
      requires o in objects && now >= 0 && Movable(handles, o, rules) && Valid(None)
      requires !objects[o].onDisc && objects[o].state == Complete && objects[o].expiry == 0 && objects[o].redirects <= REDIRECT_LIMIT
      modifies this
      ensures Valid(None) && Drifts(old(Now()), Now(), Lateness(old(handles), o)) && replacement in objects
      ensures replacement != o ==>
        Retrieved(objects, replacement, to.url, to.cacheable, now) && o in objects && objects[o].users == []
      ensures replacement != o ==> HandlesMoved(old(handles), handles, o, replacement)
      ensures replacement != o ==> (NoneMixed(old(handles), handles, o) <==> Unread(old(handles), o))
      ensures o in objects && OnlyMoved(old(objects)[o], objects[o])
      ensures ok <==> replacement != o
      ensures replacement != o && to.cacheable ==>
        forall n: ObjectId :: IsNewest(old(objects), old(cached), to.url, Some(n)) ==> OnNewest(old(objects), n, now, replacement, objects)
      ensures Tried(old(said), said) && handles.Keys == old(handles).Keys && (!ok ==> said.unstarted > old(said).unstarted)
      ensures replacement !in old(objects) ==> objects[replacement].redirects == old(objects)[o].redirects + 1
    {
      hide Sane;
      hide Movable;
      hide Advances;
      hide Drifts;
      hide Lateness;
      hide Keeps;
      hide Numbered;
      hide Retrieved;
      hide UsedSurvive;
      hide Shifted;
      hide HandlesMoved;
      hide NoneMixed;
      hide Unread;
      hide OnlyMoved;
      hide WithUsers;
      hide Served;
      hide IsNewest;
      hide OnNewest;
      hide Tried;
      ghost var a := Now();
      SaneNext(a, rules, None);
      var r := Retrieve(to.url, to.cacheable, objects[o].redirects + 1, to.hsts, now);
      RedirectedStays(a.os, objects, o, now);
      KeepsAdvances(a, Now());
      AdvancesDrifts(a, Now(), Lateness(a.hs, o));
      if r == None {
        OnlyMovedItself(a.os[o], objects[o]);
        return false, o;
      }
      ghost var b := Now();
      OnlyMovedItself(a.os[o], b.os[o]);
      RetrievedFacts(objects, r.value, to.url, to.cacheable, now);
      MoveUsers(o, r.value);
      MovedHandlesKeys(b.hs, handles, o, r.value);
      ShiftedKeys(b.os, objects, o, r.value);
      OnlyMovedOn(a.os[o], b.os[o], objects[o]);
      StillRetrieved(b.os, objects, o, r.value, to.url, to.cacheable, now);
      forall n: ObjectId | to.cacheable && IsNewest(a.os, a.cached, to.url, Some(n))
        ensures OnNewest(a.os, n, now, r.value, objects)
      {
        ShiftedServed(a.os, n, now, r.value, b.os, objects, o);
      }
      MovedDrift(b, Now(), o, r.value);
      DriftsOn(a, b, Now(), Lateness(a.hs, o), Lateness(b.hs, o));
      MixedExactly(b, Now(), rules, o, r.value);
      return true, r.value;
    }

    /** Start the fetch again, as prepared. */
    method Refetch(o: ObjectId, prepared: Object, now: int) returns (ok: bool)
      requires o in objects && objects[o].fetching && Prepared(objects[o], prepared, rules) && Valid(None)
      modifies this`objects, this`said
      ensures Valid(None) && objects == old(objects)[o := OnRefetch(prepared, ok, now)] && Advances(old(Now()), Now())
      ensures said == old(said).(unstarted := old(said).unstarted + if ok then 0 else 1)
      ensures Remained(old(handles), old(said), handles, said) && handles == old(handles)
    {
      hide Sane;
      hide Prepared;
      hide OnRefetch;
      hide Remained;
      ok := *;
      if !ok {
        said := said.(unstarted := said.unstarted + 1);
      }
      NothingAsked(handles, old(said), said);
      Refetching(Now(), rules, o, prepared, ok, now);
      objects := objects[o := OnRefetch(prepared, ok, now)];
      SameClientsAdvance(old(Now()), Now());
    }

    /** The fetch has failed for good: the object is finished and its users are told of the error. */
    method Fail(o: ObjectId) returns (ok: bool)
      requires o in objects && Valid(None)
      modifies this
      ensures Valid(None) && Advances(old(Now()), Now()) && o in objects && !objects[o].fetching
      ensures GaveUp(old(objects)[o], objects[o])
      ensures Remained(old(handles), old(said), handles, said)
      ensures Consulted(old(handles), old(said), said, o, ok) && (ok <==> AllOk(old(said), said))
    {
      hide Sane;
      hide Advances;
      hide Untold;
      hide GaveUp;
      hide Stayed;
      hide Remained;
      hide Consulted;
      hide AllAsked;
      hide AllOk;
      hide Tried;
      hide Since;
      ghost var a := Now();
      StopFetch(o);
      DropCandidate(o);
      SameClientsAdvance(a, Now());
      ghost var b := Now();
      var reply := SendEventToUsers(o);
      UntoldFacts(b, Now(), o);
      AskedMeans(b, old(said), Now(), said, o, reply == Ok);
      Reaching(a, b, Now(), rules);
      StoppedGaveUp(a.os[o]);
      GaveUpKept(a.os[o], b.os[o], objects[o]);
      ok := reply.Ok?;
    }

    /** The fetch timed out: try again while there are attempts left. */
    method OnTimeout(o: ObjectId, now: int) returns (ok: bool)
      requires o in objects && objects[o].fetching && Valid(None)
      modifies this
      ensures Valid(None) && Advances(old(Now()), Now()) && o in objects
      ensures Became(TimedOut, old(objects)[o], objects[o])
      ensures !ok ==> !objects[o].fetching
      ensures Remained(old(handles), old(said), handles, said)
      ensures SeenTo(TimedOut, o, old(handles), old(said), old(objects)[o], said, objects[o])
    {
      hide Sane;
      hide Advances;
      hide Untold;
      hide Prepared;
      hide Became;
      hide GaveUp;
      hide OnRefetch;
      hide Stopped;
      hide Stayed;
      hide Remained;
      hide Consulted;
      hide AllAsked;
      hide AllOk;
      hide Tried;
      hide Since;
      ghost var a := Now();
      if objects[o].retries > 1 {
        Preparing(a, rules, o);
        RetriedBecame(a.os[o], false, now);
        RetriedBecame(a.os[o], true, now);
        ok := Refetch(o, objects[o].(retries := objects[o].retries - 1), now);
        if !ok {
          // the fetch that timed out is still there, and is aborted
          ghost var b := Now();
          StopFetch(o);
          SameClientsAdvance(b, Now());
          Reaching(a, b, Now(), rules);
        }
      } else {
        ok := Fail(o);
        GaveUpBecameSame(a.os[o], objects[o]);
        AskedSeenTo(TimedOut, o, a.hs, old(said), a.os[o], said, objects[o], ok);
      }
    }

    /** The fetch ends, and the clients are asked for credentials. */
    method AskForCredentials(o: ObjectId) returns (ok: bool)
      requires o in objects && Valid(None)
      modifies this
      ensures Valid(None) && Advances(old(Now()), Now()) && o in objects
      ensures ObjectKept(Stopped(old(objects)[o]).(triedAuth := false), objects[o])
      ensures Remained(old(handles), old(said), handles, said)
      ensures Consulted(old(handles), old(said), said, o, ok) && (ok <==> AllOk(old(said), said))
    {
      hide Sane;
      hide Advances;
      hide Untold;
      hide Stopped;
      hide ObjectKept;
      hide Remained;
      hide Consulted;
      hide AllAsked;
      hide AllOk;
      hide Since;
      ghost var a := Now();
      StopFetch(o);
      HasStopped(old(objects)[o]);
      MarkingAuth(Now(), rules, o, false, objects[o].certs);
      objects := objects[o := objects[o].(triedAuth := false)];
      SameClientsAdvance(a, Now());
      ghost var b := Now();
      var reply := SendEventToUsers(o);
      UntoldFacts(b, Now(), o);
      AskedMeans(b, old(said), Now(), said, o, reply == Ok);
      Reaching(a, b, Now(), rules);
      ok := reply.Ok?;
    }

    /** Credentials are wanted: try with those there are, once; then ask. */
    method OnAuth(o: ObjectId, details: bool, now: int) returns (ok: bool)
      requires o in objects && objects[o].fetching && (Single(rules) ==> !objects[o].answered) && Valid(None)
      modifies this
      ensures Valid(None) && Advances(old(Now()), Now()) && o in objects
      ensures Became(NeedsAuth(details), old(objects)[o], objects[o])
      ensures !ok ==> !objects[o].fetching
      ensures Remained(old(handles), old(said), handles, said)
      ensures SeenTo(NeedsAuth(details), o, old(handles), old(said), old(objects)[o], said, objects[o])
    {
      hide Sane;
      hide Advances;
      hide Untold;
      hide Prepared;
      hide Became;
      hide OnRefetch;
      hide Stopped;
      hide OthersCounted;
      hide ObjectKept;
      hide Stayed;
      hide Remained;
      hide Consulted;
      hide AllAsked;
      hide AllOk;
      hide Tried;
      hide Since;
      ghost var a := Now();
      DropCandidate(o);
      SameClientsAdvance(a, Now());
      ghost var b := Now();
      if !details || objects[o].triedAuth {
        ok := AskForCredentials(o);
        AuthAsked(a.os[o], details, objects[o]);
        AskedSeenTo(NeedsAuth(details), o, a.hs, old(said), a.os[o], said, objects[o], ok);
      } else {
        Preparing(b, rules, o);
        AuthBecame(a.os[o], true, now);
        AuthBecame(a.os[o], false, now);
        ok := Refetch(o, objects[o].(triedAuth := true), now);
      }
      Reaching(a, b, Now(), rules);
    }

    /** The TLS connection failed: try an older version, once, unless the host insists on TLS. */
    method OnTlsFailure(o: ObjectId, now: int) returns (ok: bool)
      requires o in objects && objects[o].fetching && (Single(rules) ==> !objects[o].answered) && Valid(None)
      modifies this
      ensures Valid(None) && Advances(old(Now()), Now()) && o in objects
      ensures Became(TlsFailed, old(objects)[o], objects[o])
      ensures !ok ==> !objects[o].fetching
      ensures Remained(old(handles), old(said), handles, said)
      ensures SeenTo(TlsFailed, o, old(handles), old(said), old(objects)[o], said, objects[o])
    {
      hide Sane;
      hide Advances;
      hide Untold;
      hide Prepared;
      hide Became;
      hide GaveUp;
      hide OnRefetch;
      hide OthersCounted;
      hide Stayed;
      hide Remained;
      hide Consulted;
      hide AllAsked;
      hide AllOk;
      hide Tried;
      hide Since;
      ghost var a := Now();
      DropCandidate(o);
      SameClientsAdvance(a, Now());
      ghost var b := Now();
      if objects[o].hsts || objects[o].triedTls {
        ok := Fail(o);
        AskedSeenTo(TlsFailed, o, a.hs, old(said), a.os[o], said, objects[o], ok);
        GaveUpBecame(a.os[o], objects[o], Redirection(0, false, false, 0, false, false, false));
      } else {
        Preparing(b, rules, o);
        TlsBecame(a.os[o], true, now);
        TlsBecame(a.os[o], false, now);
        ok := Refetch(o, objects[o].(triedTls := true), now);
      }
      Reaching(a, b, Now(), rules);
    }

    /** Out-of-band news, passed on to the users. */
    method PassOn(o: ObjectId, certs: bool) returns (ok: bool)
      requires o in objects && Valid(None)
      modifies this
      ensures Valid(None) && Advances(old(Now()), Now()) && o in objects
      ensures Became(if certs then CertsCame else Progress, old(objects)[o], objects[o])
      ensures Remained(old(handles), old(said), handles, said)
      ensures Consulted(old(handles), old(said), said, o, ok) && (ok <==> AllOk(old(said), said))
      ensures StoppedOrSame(old(objects)[o], old(said), objects[o], said, o)
    {
      hide Sane;
      hide Advances;
      hide Untold;
      hide Became;
      hide ObjectKept;
      hide Stayed;
      hide Remained;
      hide Consulted;
      hide AllAsked;
      hide AllOk;
      hide Tried;
      hide Since;
      ghost var a := Now();
      if certs {
        MarkingAuth(a, rules, o, objects[o].triedAuth, true);
        objects := objects[o := objects[o].(certs := true)];
      }
      SameClientsAdvance(a, Now());
      ghost var b := Now();
      var reply := SendEventToUsers(o);
      UntoldFacts(b, Now(), o);
      AskedMeans(b, old(said), Now(), said, o, reply == Ok);
      AskedStoppedOrSame(b, rules, old(said), Now(), said, o, reply == Ok);
      Reaching(a, b, Now(), rules);
      ToldBecame(a.os[o], certs, objects[o]);
      ok := reply.Ok?;
    }

    /** A redirect gives the candidate up before it is looked at. */
    method OnRedirected(o: ObjectId, to: Redirection, now: int) returns (ok: bool, replacement: ObjectId)
      requires o in objects && objects[o].fetching && now >= 0 && Movable(handles, o, rules) && Valid(None)
      modifies this
      ensures Valid(None) && Drifts(old(Now()), Now(), Lateness(old(handles), o)) && replacement in objects
      ensures o in objects && Became(Redirected(to), old(objects)[o], objects[o])
      ensures ok && old(objects)[o].redirects <= REDIRECT_LIMIT && IsFollowed(to) ==> replacement != o
      ensures old(objects)[o].redirects > REDIRECT_LIMIT || !IsFollowed(to) ==> replacement == o
      ensures replacement != o ==> Retrieved(objects, replacement, to.url, to.cacheable, now) && objects[o].users == []
      ensures !ok ==> replacement == o
      ensures !objects[o].fetching
      ensures Remained(old(handles), old(said), handles, said)
      ensures Consulted(old(handles), old(said), said, o, AllOk(old(said), said))
      ensures old(objects)[o].redirects <= REDIRECT_LIMIT && IsFollowed(to) && AllOk(old(said), said) ==>
        replacement != o || said.unstarted > old(said).unstarted
      ensures replacement != o ==> AllMovedTo(old(handles), old(said), handles, said, o, replacement)
    {
      hide Sane;
      hide Advances;
      hide Drifts;
      hide Lateness;
      hide Movable;
      hide Retrieved;
      hide Numbered;
      hide Became;
      hide GaveUp;
      hide OthersCounted;
      hide Stayed;
      hide Remained;
      hide Consulted;
      hide AllAsked;
      hide AllOk;
      hide Tried;
      hide Since;
      hide AllMovedTo;
      ghost var a := Now();
      SaneNext(a, rules, None);
      DropCandidate(o);
      SameClientsAdvance(a, Now());
      AdvancesDrifts(a, Now(), Lateness(a.hs, o));
      ghost var b := Now();
      ok, replacement := OnRedirect(o, to, now);
      DriftsOn(a, b, Now(), Lateness(a.hs, o), Lateness(b.hs, o));
      GaveUpBecame(a.os[o], objects[o], to);
      GaveUpEnded(a.os[o], objects[o]);
    }

    /**
     The handler of all fetch messages. Whatever a message brings, and whatever
     clients do when told, the cache is sound, and clients have been given more of
     the same: all of them, unless a redirect has moved some that had been told of
     headers already, or given data even. An error stops the fetch that is still going on.
     */
    method FetchCallback(o: ObjectId, msg: Message, now: int)
      requires o in objects && objects[o].fetching && now >= 0 && Valid(None)
      requires rules.prompt ==> InTurn(msg, objects[o].state)
      modifies this
      ensures Valid(None) && !allCaughtUp
      ensures Drifts(old(Now()), Now(), if msg.Redirected? then Lateness(old(handles), o) else 0)
      ensures o in objects && Became(msg, old(objects)[o], objects[o])
      ensures msg.DataCame? || msg.FetchFinished? ==> OthersCounted(old(objects), objects, o)
      ensures msg.StillGood? && old(objects)[o].candidate.Some? ==> HandedOver(old(Now()), Now(), o, old(objects)[o].candidate.value)
      ensures msg.DataCame? ==>
        objects[o].source == old(objects)[o].source + msg.data && objects[o].state == Data && objects[o].candidate == None
      ensures msg.FetchFinished? ==>
        objects[o].source == old(objects)[o].source && objects[o].state == Complete && !objects[o].fetching
      ensures Remained(old(handles), old(said), handles, said)
      ensures SeenTo(msg, o, old(handles), old(said), old(objects)[o], said, objects[o])
      ensures IsNews(msg) ==>
        if AllOk(old(said), said) then StoppedOrSame(old(objects)[o], old(said), objects[o], said, o) else !objects[o].fetching
      ensures msg.Redirected? && old(objects)[o].redirects <= REDIRECT_LIMIT && IsFollowed(msg.to) && AllOk(old(said), said)
              && said.unstarted == old(said).unstarted ==>
        exists r :: SentOn(objects, old(handles), old(said), handles, said, o, msg.to, now, r)
    {
      hide Sane;
      hide Advances;
      hide Drifts;
      hide Lateness;
      hide Movable;
      hide Untold;
      hide Numbered;
      hide Became;
      hide OthersCounted;
      hide HandedOver;
      hide Stayed;
      hide Remained;
      hide Consulted;
      hide AllAsked;
      hide AllOk;
      hide Tried;
      hide Since;
      hide SentOn;
      hide StoppedOrSame;
      hide SeenTo;
      hide Stopped;
      ghost var a := Now();
      SaneNext(a, rules, None);
      ghost var limit := if msg.Redirected? then Lateness(a.hs, o) else 0;
      if rules.prompt ==> Rank(objects[o].state) < 2 {
        PromptIsMovable(a, rules, o);
      }
      var ok, object_ := Handled(o, msg, now);
      BecameMeans(msg, a.os[o], objects[o]);
      if !ok && objects[object_].fetching {
        ghost var b := Now();
        HasStopped(objects[o]);
        NewsSeenTo(msg, o, a.hs, old(said), a.os[o], said, objects[o], Stopped(objects[o]));
        ToldAndStopped(msg, a.os[o], objects[o]);
        StopFetch(object_);
        SameClientsAdvance(b, Now());
        AdvancesDrifts(b, Now(), 0);
        DriftsOn(a, b, Now(), limit, 0);
      }
      UsersNotCaughtUp();
    }

    method Handled(o: ObjectId, msg: Message, now: int) returns (ok: bool, object_: ObjectId)
      requires o in objects && objects[o].fetching && now >= 0 && Valid(None)
      requires InTurn(msg, objects[o].state) || !rules.prompt
      requires (rules.prompt ==> Rank(objects[o].state) < 2) ==>
        Movable(handles, o, rules) && (Single(rules) ==> !objects[o].answered)
      modifies this
      ensures Valid(None) && object_ in objects
      ensures Drifts(old(Now()), Now(), if msg.Redirected? then Lateness(old(handles), o) else 0)
      ensures o in objects && Became(msg, old(objects)[o], objects[o])
      ensures !ok ==> object_ == o && (objects[o].fetching ==> msg.Progress? || msg.CertsCame?)
      ensures msg.DataCame? || msg.FetchFinished? ==> OthersCounted(old(objects), objects, o)
      ensures msg.StillGood? && old(objects)[o].candidate.Some? ==> HandedOver(old(Now()), Now(), o, old(objects)[o].candidate.value)
      ensures Remained(old(handles), old(said), handles, said)
      ensures SeenTo(msg, o, old(handles), old(said), old(objects)[o], said, objects[o])
      ensures IsNews(msg) ==> (ok <==> AllOk(old(said), said)) && StoppedOrSame(old(objects)[o], old(said), objects[o], said, o)
      ensures msg.Redirected? && old(objects)[o].redirects <= REDIRECT_LIMIT && IsFollowed(msg.to) && AllOk(old(said), said) ==>
        SentOn(objects, old(handles), old(said), handles, said, o, msg.to, now, object_) || said.unstarted > old(said).unstarted
    {
      hide Sane;
      hide Advances;
      hide Drifts;
      hide Lateness;
      hide Movable;
      hide Untold;
      hide Became;
      hide GaveUp;
      hide OthersCounted;
      hide Stayed;
      hide Remained;
      hide Consulted;
      hide AllAsked;
      hide AllOk;
      hide Tried;
      hide Since;
      hide AllMovedTo;
      hide StoppedOrSame;
      hide Retrieved;
      hide SeenTo;
      hide Asks;
      ghost var a := Now();
      ok, object_ := true, o;
      match msg {
        case HeaderCame(expiry, noCache) =>
          OnHeaderMessage(o, expiry, noCache);
          SameClientsAdvance(a, Now());
          RemainedKeys(a.hs, said, handles);
          QuietSeenTo(msg, o, a.hs, said, a.os[o], objects[o]);
        case Redirected(to) =>
          ok, object_ := OnRedirected(o, to, now);
          AlwaysAsks(msg, a.os[o]);
          AskedSeenTo(msg, o, a.hs, old(said), a.os[o], said, objects[o], AllOk(old(said), said));
          return;
        case StillGood =>
          object_ := NotModified(o);
          RemainedKeys(a.hs, said, handles);
          QuietSeenTo(msg, o, a.hs, said, a.os[o], objects[o]);
        case DataCame(data, invalidate) =>
          ProcessData(o, data, invalidate);
          SameClientsAdvance(a, Now());
          RemainedKeys(a.hs, said, handles);
          QuietSeenTo(msg, o, a.hs, said, a.os[o], objects[o]);
        case FetchFinished =>
          OnFinishedMessage(o);
          SameClientsAdvance(a, Now());
          RemainedKeys(a.hs, said, handles);
          QuietSeenTo(msg, o, a.hs, said, a.os[o], objects[o]);
        case TimedOut =>
          ok := OnTimeout(o, now);
        case FetchError =>
          ok := Fail(o);
          GaveUpBecameSame(a.os[o], objects[o]);
          AlwaysAsks(msg, a.os[o]);
          AskedSeenTo(msg, o, a.hs, old(said), a.os[o], said, objects[o], ok);
        case Progress =>
          ok := PassOn(o, false);
          AlwaysAsks(msg, a.os[o]);
          AskedSeenTo(msg, o, a.hs, old(said), a.os[o], said, objects[o], ok);
        case CertsCame =>
          ok := PassOn(o, true);
          AlwaysAsks(msg, a.os[o]);
          AskedSeenTo(msg, o, a.hs, old(said), a.os[o], said, objects[o], ok);
        case NeedsAuth(details) =>
          ok := OnAuth(o, details, now);
        case BadCertificate =>
          ok := Fail(o);
          GaveUpBecameSame(a.os[o], objects[o]);
          AlwaysAsks(msg, a.os[o]);
          AskedSeenTo(msg, o, a.hs, old(said), a.os[o], said, objects[o], ok);
        case TlsFailed =>
          ok := OnTlsFailure(o, now);
      }
      AdvancesDrifts(a, Now(), 0);
    }

    // ----- the periodic work -----

    /** The object behind another in its list. */
    method ObjectAfter(o: ObjectId, cached_: bool) returns (n: Option<ObjectId>)
      requires o in (if cached_ then cached else uncached)
      ensures n == First(After(if cached_ then cached else uncached, o))
    {
      var list, i := if cached_ then cached else uncached, 0;
      while list[i] != o
        invariant 0 <= i < |list| && o in list[i..] && After(list, o) == After(list[i..], o)
        decreases |list| - i
      {
        assert list[i..][1..] == list[i + 1..];
        i := i + 1;
      }
      assert list[i..][1..] == list[i + 1..];
      n := if i + 1 < |list| then Some(list[i + 1]) else None;
    }

    /**
     Go along one of the lists of objects, as it is each time the users of one have
     been told. An object cannot go while its users are being told; others may, and
     new ones are put at the head.
     */
    method CatchUpList(cached_: bool, ghost a: Cache, ghost before: set<ObjectId>) returns (ghost well: bool, ghost done: set<ObjectId>)
      requires Valid(None) && Sane(a, rules, None) && Advances(a, Now()) && Followed(a.os, a.next, objects)
      modifies this
      ensures Valid(None) && Advances(a, Now()) && Followed(a.os, a.next, objects) && before <= done
      ensures Advances(old(Now()), Now()) && Followed(old(objects), old(next), objects) && (allCaughtUp ==> old(allCaughtUp))
      ensures PassedBy(a, Now(), cached_, None, done)
      ensures ((well && allCaughtUp) || AllOk(old(said), said)) && old(CaughtUpOn(a, Now(), before)) ==> CaughtUpOn(a, Now(), done)
      ensures Stayed(old(Now()), old(said), Now(), said)
    {
      hide Sane;
      hide Advances;
      hide AllCaughtUp;
      hide OthersCaughtUp;
      hide CaughtUpOn;
      hide PassedBy;
      hide Followed;
      hide ObjectKept;
      hide NewestFirst;
      hide Stayed;
      hide UsersTold;
      hide AllOk;
      ghost var s := Now();
      well, done := true, before;
      SameClientsAdvance(s, s);
      StayedItself(s, said, said);
      NobodyYet(s);
      SaneOrder(s, rules, None);
      NextOnward(a, s);
      NothingPassed(a, s, rules, cached_, done);
      var o := First(if cached_ then cached else uncached);
      while o.Some?
        invariant Valid(None) && Advances(a, Now()) && Followed(a.os, a.next, objects) && before <= done
        invariant Advances(s, Now()) && Followed(s.os, s.next, objects) && (allCaughtUp ==> old(allCaughtUp))
        invariant o.Some? ==> o.value in objects && objects[o.value].cached == cached_
        invariant PassedBy(a, Now(), cached_, o, done)
        invariant ((well && allCaughtUp) || AllOk(old(said), said)) && CaughtUpOn(a, s, before) ==> CaughtUpOn(a, Now(), done)
        invariant Stayed(s, old(said), Now(), said)
        decreases if o.Some? then o.value + 1 else 0
      {
        ghost var b, t := Now(), said;
        var ok := NotifyUsers(o.value);
        ListStays(b.os[o.value], objects[o.value]);
        FollowedSane(a, b, Now(), rules);
        FollowedSane(s, b, Now(), rules);
        Reaching(a, b, Now(), rules);
        Reaching(s, b, Now(), rules);
        NextOnward(b, Now());
        ToldStayed(b, t, Now(), said, o.value, ok);
        StayedOn(s, old(said), b, t, Now(), said);
        StayedSince(s, old(said), b, t);
        AllOkOn(old(said), t, said);
        if ((ok && well && allCaughtUp) || AllOk(old(said), said)) && CaughtUpOn(a, s, before) {
          OneMoreCaughtUp(a, b, Now(), rules, o.value, done);
        }
        OneMorePassed(a, b, Now(), rules, cached_, o.value, done);
        SaneOrder(Now(), rules, None);
        well, done := well && ok, done + {o.value};
        o := ObjectAfter(o.value, cached_);
      }
    }

    /**
     Bring the users of every object up to date. If all goes well, and nobody
     defers, everybody who was there at the start is caught up or gone.
     */
    method CatchUpAllUsers() returns (ghost well: bool)
      requires Valid(None)
      modifies this
      ensures Valid(None) && Advances(old(Now()), Now())
      ensures well && allCaughtUp ==> EverybodyCaughtUp(old(Now()), Now())
      ensures AllOk(old(said), said) ==> EverybodyCaughtUp(old(Now()), Now())
      ensures Stayed(old(Now()), old(said), Now(), said)
      ensures AllOk(old(said), said) ==>
        forall h :: h in old(handles) && !HasLeft(old(said), said, h) ==> ToldEverything(old(Now()), Now(), h)
    {
      hide Sane;
      hide Advances;
      hide CaughtUpOn;
      hide PassedBy;
      hide EverybodyCaughtUp;
      hide Followed;
      hide Stayed;
      hide AllOk;
      hide ToldEverything;
      ghost var a, s := Now(), said;
      SameClientsAdvance(a, a);
      NobodyYet(a);
      allCaughtUp := true;
      ghost var first, second, some, all;
      first, some := CatchUpList(true, a, {});
      ghost var b, t := Now(), said;
      NextOnward(a, b);
      second, all := CatchUpList(false, a, some);
      well := first && second;
      StayedOn(a, s, b, t, Now(), said);
      StayedSince(a, s, b, t);
      StayedSince(b, t, Now(), said);
      AllOkOn(s, t, said);
      if (well && allCaughtUp) || AllOk(s, said) {
        BothPassed(a, b, Now(), rules, some, all);
      }
      forall h | AllOk(s, said) && h in a.hs && !HasLeft(s, said, h)
        ensures ToldEverything(a, Now(), h)
      {
        EverybodyTold(a, Now(), rules, s, said, h);
      }
    }

    /** Offer one object to the backing store. */
    method OfferForStoring(o: ObjectId, minimum: nat, now: int, ghost was: Objects)
      requires o in objects && !objects[o].onDisc && MayBeWritten(objects[o], minimum, now) && Valid(None)
      requires Written(was, objects, minimum, now)
      modifies this`objects, this`said
      ensures Valid(None) && Written(was, objects, minimum, now)
      ensures said == old(said).(unwritten := said.unwritten) && said.unwritten >= old(said).unwritten
      ensures |NewOnDisc(was, objects)| <= |NewOnDisc(was, old(objects))| + 1
      ensures o in objects && objects == old(objects)[o := objects[o]]
      ensures said == old(said) ==> !Unstored(objects[o], minimum, now)
    {
      hide Sane;
      hide Written;
      hide NewOnDisc;
      OneMoreNew(was, objects, o);
      ObjectItself(objects, o);
      var stored: bool := *;
      if !stored {
        said := said.(unwritten := said.unwritten + 1);
      } else if objects[o].hasData || !InUse(objects[o]) {
        WritingOut(Now(), rules, o);
        WrittenOn(was, objects, o, minimum, now);
        objects := objects[o := objects[o].(onDisc := true)];
      }
    }

    /**
     Offer the fresh, finished objects that are in memory only to the backing store,
     at most 128 of them; it may refuse them. The source does not look whether one in
     use has a buffer: `WriteOutIsSafeExactly` says that it need not have one only if
     its source is empty, so such an object is not written out here.
     */
    method Persist(minimum: nat, now: int) returns (tried: nat)
      requires Valid(None)
      modifies this`objects, this`said
      ensures Valid(None) && Written(old(objects), objects, minimum, now)
      ensures tried <= 128 && |NewOnDisc(old(objects), objects)| <= tried
      ensures tried < 128 && said == old(said) ==> NoneOf(cached, objects, (x: Object) => Unstored(x, minimum, now))
    {
      hide Sane;
      hide Written;
      hide NoDup;
      hide NewestFirst;
      hide NoneOf;
      hide NewOnDisc;
      hide MayBeWritten;
      hide Lifetime;
      hide Unstored;
      SaneLists(Now(), rules, None);
      WrittenItself(objects, minimum, now);
      NothingNew(objects);
      tried := 0;
      ghost var left := (x: Object) => Unstored(x, minimum, now);
      NoneYet(cached, objects, left);
      for i := 0 to |cached|
        invariant Valid(None) && Written(old(objects), objects, minimum, now)
        invariant tried <= 128 && |NewOnDisc(old(objects), objects)| <= tried
        invariant said == old(said).(unwritten := said.unwritten) && said.unwritten >= old(said).unwritten
        invariant tried < 128 && said == old(said) ==> NoneOf(cached[..i], objects, left)
      {
        var o := cached[i];
        assert o in old(objects) && old(objects)[o].cached;
        WrittenMeans(old(objects), objects, minimum, now);
        WorthWriting(objects[o], minimum, now);
        ghost var was := objects;
        if objects[o].candidateCount == 0 && !objects[o].fetching && !objects[o].onDisc
           && Lifetime(objects[o], now) > minimum && tried < 128 {
          tried := tried + 1;
          OfferForStoring(o, minimum, now, old(objects));
        }
        if tried < 128 && said == old(said) {
          NoneOn(cached, i, was, objects, left);
        }
      }
      assert cached[..|cached|] == cached;
    }

    /** Discard an object that cleaning may discard. */
    method CleanAway(o: ObjectId, ghost was: Objects)
      requires o in objects && Idle(objects[o]) && Valid(None) && PreciousKept(was, objects)
      modifies this`objects, this`cached, this`uncached
      ensures Valid(None) && objects == old(objects) - {o} && PreciousKept(was, objects)
      ensures !old(objects)[o].cached ==> cached == old(cached)
    {
      hide Sane;
      hide PreciousKept;
      hide Keeps;
      PreciousLose(objects, o);
      PreciousOn(was, objects, objects - {o});
      Discard(o, None);
    }

    /** Uncacheable objects without users or fetches go, and no others; what is left of them is added up. */
    method CleanUncached(rest: Object -> nat) returns (size: int)
      requires Valid(None)
      modifies this`objects, this`cached, this`uncached
      ensures Valid(None) && PreciousKept(old(objects), objects) && cached == old(cached)
      ensures objects == map o | o in old(objects) && !(o in old(uncached) && Idle(old(objects)[o])) :: old(objects)[o]
      ensures size == TotalOf(old(uncached), objects, rest)
    {
      hide Sane;
      hide PreciousKept;
      hide Ahead;
      hide NoDup;
      hide NewestFirst;
      hide Sweeping;
      hide TotalSize;
      hide TotalOf;
      AheadStarts(Now(), rules);
      PreciousItself(objects);
      SaneOrder(Now(), rules, None);
      size := 0;
      var list := uncached;
      assert list == ListOf(Now(), false);
      ghost var was := objects;
      ghost var mayGo := (x: Object) => Idle(x);
      SweepingStarts(was, list, mayGo, rest);
      for i := 0 to |list|
        invariant Valid(None) && PreciousKept(was, objects) && Ahead(list, i, objects)
        invariant Sweeping(was, objects, list, i, mayGo, rest, size) && cached == old(cached)
      {
        AheadNext(list, i, objects);
        OnceInList(list, i);
        SweepingOn(was, objects, list, i, mayGo, rest, size);
        var o := list[i];
        if objects[o].users == [] && objects[o].candidateCount == 0 && !objects[o].fetching {
          CleanAway(o, was);
        } else {
          size := size + TotalSize(objects[o], rest);
        }
      }
      SweepingEnds(was, objects, list, mayGo, rest, size);
    }

    /** Stale cacheable objects without users, fetches or objects that name them go, and no others; what is left is added up. */
    method CleanStale(now: int, rest: Object -> nat) returns (size: int)
      requires Valid(None)
      modifies this`objects, this`cached, this`uncached
      ensures Valid(None) && PreciousKept(old(objects), objects)
      ensures objects == map o | o in old(objects) && !(o in old(cached) && IdleAndStale(old(objects)[o], now)) :: old(objects)[o]
      ensures size == TotalOf(old(cached), objects, rest)
    {
      hide Sane;
      hide PreciousKept;
      hide Ahead;
      hide NoDup;
      hide NewestFirst;
      hide Sweeping;
      hide TotalSize;
      hide TotalOf;
      AheadStarts(Now(), rules);
      PreciousItself(objects);
      SaneOrder(Now(), rules, None);
      size := 0;
      var list := cached;
      assert list == ListOf(Now(), true);
      ghost var was := objects;
      ghost var mayGo := (x: Object) => IdleAndStale(x, now);
      SweepingStarts(was, list, mayGo, rest);
      for i := 0 to |list|
        invariant Valid(None) && PreciousKept(was, objects) && Ahead(list, i, objects)
        invariant Sweeping(was, objects, list, i, mayGo, rest, size)
      {
        AheadNext(list, i, objects);
        OnceInList(list, i);
        SweepingOn(was, objects, list, i, mayGo, rest, size);
        var o := list[i];
        if objects[o].users == [] && objects[o].candidateCount == 0 && !objects[o].fetching && Lifetime(objects[o], now) <= 0 {
          CleanAway(o, was);
        } else {
          size := size + TotalSize(objects[o], rest);
        }
      }
      SweepingEnds(was, objects, list, mayGo, rest, size);
    }

    /** While the cache is too big, the source of unused objects that are on disc is forgotten. */
    method CleanSources(limit: int, size0: int) returns (size: int)
      requires Valid(None)
      modifies this`objects
      ensures Valid(None) && PreciousKept(old(objects), objects) && Shrunk(old(objects), objects)
      ensures size0 <= limit ==> objects == old(objects) && size == size0
      ensures forall o :: o in old(objects) ==> o in objects
      ensures limit < size ==> NoneOf(cached, objects, (x: Object) => Idle(x) && x.onDisc && x.hasData)
    {
      hide Sane;
      hide PreciousKept;
      hide Ahead;
      hide NoDup;
      hide Shrunk;
      hide NoneOf;
      AheadStarts(Now(), rules);
      PreciousItself(objects);
      ShrunkItself(objects);
      size := size0;
      var list := cached;
      var i := 0;
      ghost var none := (x: Object) => Idle(x) && x.onDisc && x.hasData;
      NoneYet(list, objects, none);
      while i < |list| && limit < size
        invariant i <= |list| && Valid(None) && PreciousKept(old(objects), objects) && Ahead(list, i, objects)
        invariant Shrunk(old(objects), objects) && NoneOf(list[..i], objects, none)
        invariant size0 <= limit ==> objects == old(objects) && size == size0
        invariant forall o :: o in old(objects) ==> o in objects
      {
        AheadNext(list, i, objects);
        var o := list[i];
        ghost var was := objects;
        if objects[o].users == [] && objects[o].candidateCount == 0 && !objects[o].fetching && objects[o].onDisc {
          Forgetting(Now(), rules, o);
          PreciousLose(objects, o);
          PreciousOn(old(objects), objects, objects[o := objects[o].(hasData := false)]);
          ShrunkByOne(objects, o);
          ShrunkOn(old(objects), objects, objects[o := objects[o].(hasData := false)]);
          objects := objects[o := objects[o].(hasData := false)];
          size := TakenOff(size, |objects[o].source|);
        }
        NoneOn(list, i, was, objects, none);
        i := i + 1;
      }
      assert limit < size ==> list[..i] == list;
    }

    /** While the cache is still too big, unused objects go: those on disc without their source first, then those in memory only. */
    method CleanUnused(limit: int, size0: int, onDisc: bool, rest: Object -> nat, record: nat) returns (size: int)
      requires Valid(None)
      modifies this`objects, this`cached, this`uncached
      ensures Valid(None) && PreciousKept(old(objects), objects)
      ensures forall o :: o in objects ==> o in old(objects) && objects[o] == old(objects)[o]
      ensures size0 <= limit ==> objects == old(objects) && size == size0
      ensures limit < size ==> NoneOf(old(cached), objects, (x: Object) => Idle(x) && MayGo(x, onDisc))
    {
      hide Sane;
      hide PreciousKept;
      hide Ahead;
      hide NoDup;
      hide NoneOf;
      AheadStarts(Now(), rules);
      PreciousItself(objects);
      size := size0;
      var list := cached;
      var i := 0;
      ghost var none := (x: Object) => Idle(x) && MayGo(x, onDisc);
      NoneYet(list, objects, none);
      while i < |list| && limit < size
        invariant i <= |list| && Valid(None) && PreciousKept(old(objects), objects) && Ahead(list, i, objects)
        invariant NoneOf(list[..i], objects, none)
        invariant forall o :: o in objects ==> o in old(objects) && objects[o] == old(objects)[o]
        invariant size0 <= limit ==> objects == old(objects) && size == size0
      {
        AheadNext(list, i, objects);
        var o := list[i];
        ghost var was := objects;
        if objects[o].users == [] && objects[o].candidateCount == 0 && !objects[o].fetching
           && (if onDisc then objects[o].onDisc && !objects[o].hasData else !objects[o].onDisc) {
          size := TakenOff(size, if onDisc then TotalSize(objects[o], rest) else |objects[o].source| + record);
          CleanAway(o, old(objects));
        }
        NoneOn(list, i, was, objects, none);
        i := i + 1;
      }
      assert limit < size ==> list[..i] == list;
    }

    /**
     Objects are discarded in order of increasing value until the cache is small
     enough. Nothing that is used, named as a candidate or being fetched is
     discarded or loses its source; nothing useless is left. If the useless were all
     there was too much, nothing else changes; if the count in the end is still above
     the limit, nothing idle is left. `rest` is what an object takes up besides its
     source, `record` the constant part of it.
     */
    method Clean(limit: int, minimum: nat, now: int, rest: Object -> nat, record: nat) returns (size: int)
      requires Valid(None)
      modifies this`objects, this`cached, this`uncached, this`said
      ensures Valid(None) && PreciousKept(old(objects), objects)
      ensures forall o :: o in objects ==> !Useless(objects[o], now)
      ensures TotalOf(old(uncached), Swept(old(objects), now), rest) + TotalOf(old(cached), Swept(old(objects), now), rest) <= limit
              ==> objects == Swept(old(objects), now)
      ensures limit < size ==> forall o :: o in objects ==> !Idle(objects[o])
    {
      hide Sane;
      hide PreciousKept;
      hide Swept;
      hide Useless;
      hide TotalOf;
      hide NoneOf;
      hide Shrunk;
      ghost var a := Now();
      var uncachedSize := CleanUncached(rest);
      ghost var b := Now();
      var cachedSize := CleanStale(now, rest);
      ghost var c := objects;
      SaneLists(b, rules, None);
      SweptTwice(a, rules, b.os, c, a.uncached, b.cached, now);
      SweptIsSwept(a.os, now);
      TotalsOfSwept(a, rules, b.os, rest, now);
      PreciousOn(a.os, b.os, c);
      size := uncachedSize + cachedSize;
      ghost var d := c;
      ShrunkItself(c);
      if limit < size {
        var tried := Persist(minimum, now);
        WrittenMeans(c, objects, minimum, now);
        PreciousOn(a.os, c, objects);
        d := objects;
      }
      size := CleanSources(limit, size);
      ghost var e := Now();
      ghost var excess := limit < size;
      PreciousOn(a.os, d, e.os);
      ShrunkOn(c, d, e.os);
      ShrunkStaysSwept(c, e.os, now);
      size := CleanUnused(limit, size, true, rest, record);
      ghost var f := Now();
      PreciousOn(a.os, e.os, f.os);
      size := CleanUnused(limit, size, false, rest, record);
      PreciousOn(a.os, f.os, objects);
      if limit < size {
        NoIdleLeft(e, f, objects, rules, now);
      }
    }
  }
}
