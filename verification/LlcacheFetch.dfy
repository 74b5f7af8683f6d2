/**
 What the fetcher's messages do to an object, and what they do to its clients:
 nothing disturbs what a client has been given, except a redirect that comes when
 data has been given already. How often an object is fetched, what stays in
 memory, and what writing out and discarding leave alone, is here as well.
 */
module LlcacheFetch {
  import opened Common
  import opened LlcacheCalls
  import opened LlcacheNotify
  import opened LlcacheState

  ghost function WithObject(a: Cache, o: ObjectId, now: Object): Cache {
    a.(os := a.os[o := now])
  }

  lemma ObjectSet(a: Cache, rules: Rules, t: Option<UserId>, o: ObjectId, now: Object)
    requires Sane(a, rules, t) && o in a.os && Tame(a.os[o], now) && ObjectOk(now, rules)
    requires forall h :: h in a.hs && a.hs[h].object_ == o ==> DeliveredTo(a.hs[h], now)
    ensures Sane(WithObject(a, o, now), rules, t)
  {
    hide Inv;
    hide Tame;
    hide ObjectOk;
    hide DeliveredTo;
    ObjectChanged(a.os, a.us, a.hs, a.cached, a.uncached, rules, t, o, now);
    NumberedOn(a.os, a.us, a.hs, a.next, a.os[o := now], a.us, a.hs);
    hide Numbered;
  }

  /** A header has come; it may bear on how long the object stays fresh. */
  function OnHeader(o: Object, expiry: int, noCache: Validate): Object {
    o.(state := Headers, expiry := expiry, noCache := noCache)
  }

  /** Data has come; the first of it may show that the object must not be cached. */
  function OnData(o: Object, data: seq<Byte>, invalidate: bool): Object {
    var first := o.state != Data;
    o.(state := Data, answered := true, source := o.source + data, hasData := true,
       reqTime := if first && invalidate then 0 else o.reqTime,
       expiry := if first && invalidate then 0 else o.expiry,
       noCache := if first && invalidate then Fresh else o.noCache)
  }

  /** All has come. An empty source may or may not have a buffer. */
  function OnFinished(o: Object, hasData: bool): Object {
    o.(state := Complete, answered := true, fetching := false, hasData := o.source != [] || hasData)
  }

  /** A fetch is tried again; the object starts over, keeping what source it has. */
  function OnRefetch(o: Object, started: bool, now: int): Object {
    o.(state := Init, fetching := started, starts := o.starts + 1, reqTime := now, expiry := 0, noCache := Fresh)
  }

  lemma HeaderOk(o: Object, rules: Rules, expiry: int, noCache: Validate, h: Handle)
    requires ObjectOk(o, rules) && o.fetching && (Single(rules) ==> !o.answered)
    ensures ObjectOk(OnHeader(o, expiry, noCache), rules) && Tame(o, OnHeader(o, expiry, noCache))
    ensures DeliveredTo(h, o) ==> DeliveredTo(h, OnHeader(o, expiry, noCache))
  {
    hide Sound;
  }

  lemma DataOk(o: Object, rules: Rules, data: seq<Byte>, invalidate: bool, h: Handle)
    requires ObjectOk(o, rules) && o.fetching && o.candidate == None
    ensures ObjectOk(OnData(o, data, invalidate), rules) && Tame(o, OnData(o, data, invalidate))
    ensures DeliveredTo(h, o) ==> DeliveredTo(h, OnData(o, data, invalidate))
  {
    hide Tallied;
    hide Payload;
    if DeliveredTo(h, o) && h.past != Mixed {
      SourceGrows(h, o.source, data);
    }
  }

  /** Data may be added to an object being fetched that has no candidate. */
  lemma DataArrives(a: Cache, rules: Rules, o: ObjectId, data: seq<Byte>, invalidate: bool)
    requires Sane(a, rules, None) && o in a.os && a.os[o].fetching && a.os[o].candidate == None
    ensures Sane(WithObject(a, o, OnData(a.os[o], data, invalidate)), rules, None)
  {
    hide Sane;
    hide ObjectOk;
    hide DeliveredTo;
    hide Tame;
    hide OnData;
    SaneObject(a, rules, None, o);
    forall h: Handle ensures DeliveredTo(h, a.os[o]) ==> DeliveredTo(h, OnData(a.os[o], data, invalidate)) {
      DataOk(a.os[o], rules, data, invalidate, h);
    }
    DataOk(a.os[o], rules, data, invalidate, NewHandle(0, 0, Init, Steady));
    ObjectSet(a, rules, None, o, OnData(a.os[o], data, invalidate));
  }

  /** An object in the data state has no candidate any more. */
  lemma DataLeavesNoCandidate(a: Cache, rules: Rules, o: ObjectId)
    requires Sane(a, rules, None) && o in a.os && a.os[o].fetching && a.os[o].state == Data
    ensures a.os[o].candidate == None
  {
    hide Sane;
    hide DeliveredTo;
    SaneObject(a, rules, None, o);
  }

  lemma FinishedOk(o: Object, rules: Rules, hasData: bool, h: Handle)
    requires ObjectOk(o, rules) && o.fetching
    ensures ObjectOk(OnFinished(o, hasData), rules) && Tame(o, OnFinished(o, hasData))
    ensures DeliveredTo(h, o) ==> DeliveredTo(h, OnFinished(o, hasData))
  {
    hide Sound;
  }

  /** Every retry uses up something: a timed attempt, the one try with credentials, the one with older TLS. */
  lemma RefetchOk(o: Object, was: Object, rules: Rules, started: bool, now: int, h: Handle)
    requires ObjectOk(was, rules) && was.fetching
    requires o == was.(retries := o.retries, triedAuth := o.triedAuth, triedTls := o.triedTls)
    requires o.retries <= was.retries && (rules.attempts > 0 ==> o.retries > 0)
    requires Single(rules) ==> !was.answered
    requires o.retries < was.retries || (o.triedAuth && !was.triedAuth) || (o.triedTls && !was.triedTls)
    requires (was.triedAuth ==> o.triedAuth) && (was.triedTls ==> o.triedTls)
    ensures ObjectOk(OnRefetch(o, started, now), rules) && Tame(was, OnRefetch(o, started, now))
    ensures DeliveredTo(h, was) ==> DeliveredTo(h, OnRefetch(o, started, now))
  {
    hide Sound;
  }

  /** An object is passed to the fetcher at most this often, and made by following at most eleven redirects. */
  lemma FetchingIsBounded(a: Cache, rules: Rules, t: Option<UserId>, o: ObjectId)
    requires Sane(a, rules, t) && o in a.os
    ensures a.os[o].starts <= Max(1, rules.attempts) + 2 && a.os[o].redirects <= 11
  {
    SaneObject(a, rules, t, o);
    hide Sane;
  }

  /**
   What a client holds, at any time: the beginning of its object's source, in
   order; unless it had been given data when it was moved here from another object.
   Its events come in order in any case, and every byte it was given is counted.
   */
  lemma ClientsHoldThePrefix(a: Cache, rules: Rules, t: Option<UserId>, h: HandleId)
    requires Sane(a, rules, t) && h in a.hs
    ensures a.hs[h].object_ in a.os
    ensures var c := a.hs[h]; InOrder(c.base, c.state, c.log) && |Payload(c.log)| == c.bytes
    ensures a.hs[h].past != Mixed ==>
      var c, source := a.hs[h], a.os[a.hs[h].object_].source;
      && c.bytes <= |source| && Payload(c.log) == source[..c.bytes]
      && (c.state == Complete && c.base != Complete ==> Payload(c.log) == source)
  {
    hide Sane;
    hide ObjectOk;
    hide NoDup;
    hide InOrder;
    hide Payload;
    SaneHandle(a, rules, t, h);
    var source := a.os[a.hs[h].object_].source;
    assert source[..|source|] == source;
  }

  /** If no fetch is attempted again once it has brought data, all clients hold the beginning of the source, at any time. */
  lemma AllHoldThePrefix(a: Cache, rules: Rules, t: Option<UserId>, h: HandleId)
    requires Sane(a, rules, t) && h in a.hs && Single(rules)
    ensures a.hs[h].object_ in a.os && a.hs[h].past == Steady
    ensures var c, source := a.hs[h], a.os[a.hs[h].object_].source;
      && c.bytes <= |source| && Payload(c.log) == source[..c.bytes] && InOrder(c.base, c.state, c.log)
      && (c.state == Complete && c.base != Complete ==> Payload(c.log) == source)
  {
    hide Sane;
    hide InOrder;
    hide Payload;
    CloneIsSteadfast(a, rules, t, h);
    ClientsHoldThePrefix(a, rules, t, h);
  }

  /** Whatever is in use and may be read is in memory, on disc or not; and a candidate outlives those that name it. */
  lemma UsedSourceIsInMemory(a: Cache, rules: Rules, t: Option<UserId>, o: ObjectId)
    requires Sane(a, rules, t) && o in a.os
    ensures (a.os[o].users != [] || a.os[o].candidateCount > 0) && (a.os[o].onDisc || a.os[o].source != []) ==> a.os[o].hasData
    ensures a.os[o].candidate.Some? ==>
      a.os[o].candidate.value in a.os && a.os[a.os[o].candidate.value].candidateCount > 0
  {
    SaneObject(a, rules, t, o);
    if a.os[o].candidate.Some? {
      CandidateIsCounted(a, rules, t, o);
    }
    hide Sane;
  }

  lemma CandidateIsCounted(a: Cache, rules: Rules, t: Option<UserId>, o: ObjectId)
    requires Sane(a, rules, t) && o in a.os && a.os[o].candidate.Some?
    ensures a.os[o].candidate.value in a.os && a.os[a.os[o].candidate.value].candidateCount > 0
  {
    hide Linked;
    hide Placed;
    hide Marked;
    hide Delivered;
    hide ObjectsOk;
    hide Listed;
    var c := a.os[o].candidate.value;
    assert o in Referrers(a.os, c);
  }

  /** Writing an object out keeps what is read of it in memory exactly when it has a buffer or nobody uses it. */
  lemma WriteOutIsSafeExactly(o: Object)
    requires Resident(o) && !o.onDisc
    ensures Resident(o.(onDisc := true)) <==> (o.hasData || !InUse(o))
  {
  }

  // ----- sending an event to every user -----

  /** Every client's record is as it was; the object may have been stopped and its users may have left. */
  ghost predicate Untold(a: Cache, b: Cache, o: ObjectId) {
    && KeysKept(a, b) && (forall h :: h in a.hs && h in b.hs ==> SameProgress(a.hs[h], b.hs[h]))
    && o in a.os && o in b.os && ObjectKept(a.os[o], b.os[o])
    && NoFurther(a.hs, b.hs, o)
  }

  lemma UntoldItself(a: Cache, o: ObjectId)
    requires o in a.os
    ensures Untold(a, a, o)
  {
    hide NoFurther;
    NoFurtherItself(a.hs, o);
  }

  lemma UntoldOn(a: Cache, b: Cache, c: Cache, o: ObjectId)
    requires Numbered(a.os, a.us, a.hs, a.next) && Untold(a, b, o) && Untold(b, c, o)
    ensures Untold(a, c, o)
  {
    hide NoFurther;
    NoFurtherOn(a.hs, b.hs, c.hs, o);
  }

  /** The user called to be told of an event, before its client answers. */
  lemma CalledForEvent(a: Cache, rules: Rules, o: ObjectId, u: UserId)
    requires Sane(a, rules, None) && o in a.os && u in a.os[o].users
    ensures u in a.us && a.us[u].handle.Some? && a.us[u].handle.value in a.hs && !a.us[u].target && !a.us[u].queued
    ensures a.hs[a.us[u].handle.value].user == u
    ensures var b := WithUser(a, u, a.us[u].(target := true));
            Sane(b, rules, Some(u)) && Untold(a, b, o) && b.us[u].of == Some(o) && Going(a, b, o, u)
    ensures ListNumbered(a.os, a.us, a.next, u) && Numbered(a.os, a.us, a.hs, a.next)
  {
    ListedFacts(a, rules, None, o, u);
    Marking(a, rules, u);
    StartGoing(a, rules, o, u);
    ListsAreNumbered(a, rules, None, u);
    SaneNext(a, rules, None);
    UntoldItself(a, o);
    hide Sane;
    hide Going;
    hide NoFurther;
    hide Numbered;
    hide ListNumbered;
  }

  lemma KeepsUntold(b: Cache, c: Cache, o: ObjectId, u: UserId)
    requires Keeps(b, c, Some(u)) && u in b.us && b.us[u].of == Some(o) && o in b.os
    ensures Untold(b, c, o)
  {
    hide NoFurther;
    hide After;
  }

  /** The client has answered; its user goes if it was released meanwhile. */
  lemma EventAnswered(a: Cache, b: Cache, c: Cache, rules: Rules, o: ObjectId, u: UserId)
    requires Sane(a, rules, None) && Going(a, b, o, u) && Untold(a, b, o) && b.us[u].of == Some(o)
    requires Keeps(b, c, Some(u)) && Sane(c, rules, Some(u))
    requires ListNumbered(a.os, a.us, a.next, u) && Numbered(a.os, a.us, a.hs, a.next)
    ensures Untold(a, c, o) && o in c.os && u in c.us && u in c.os[o].users && NoDup(c.os[o].users)
    ensures var n := First(After(c.os[o].users, u));
            && (c.us[u].queued ==>
                  var d := Dropped(c, o, u);
                  Sane(d, rules, None) && Untold(a, d, o) && RestKept(a.os[o].users, u, d.os[o].users, n, a.next))
            && (!c.us[u].queued ==>
                  var d := WithUser(c, u, c.us[u].(target := false));
                  Sane(d, rules, None) && Untold(a, d, o) && RestKept(a.os[o].users, u, d.os[o].users, n, a.next))
  {
    hide Sane;
    hide Keeps;
    KeepsUntold(b, c, o, u);
    UntoldOn(a, b, c, o);
    GoingOn(a, b, c, o, u);
    GoneOn(a, c, rules, o, u);
    if c.us[u].queued {
      Dropping(c, rules, o, u);
      DroppedUntold(a, c, o, u);
    } else {
      Unmarking(c, rules, u);
    }
    hide Untold;
    hide Going;
    hide RestKept;
    hide After;
    hide Numbered;
    hide ListNumbered;
  }

  lemma DroppedUntold(a: Cache, c: Cache, o: ObjectId, u: UserId)
    requires Untold(a, c, o) && u in c.us
    ensures Untold(a, Dropped(c, o, u), o)
  {
    hide Without;
    hide NoFurther;
    FewerGoNoFurther(c.hs, c.us[u].handle, o);
    NoFurtherOn(a.hs, c.hs, Handleless(c.hs, c.us[u].handle), o);
  }

  lemma FewerGoNoFurther(hs: Handles, h: Option<HandleId>, o: ObjectId)
    ensures NoFurther(hs, Handleless(hs, h), o)
  {
  }

  lemma RestKeptLength(was: seq<UserId>, u: UserId, now: seq<UserId>, n: Option<UserId>, next: nat)
    requires RestKept(was, u, now, n, next)
    ensures |Rest(now, n)| <= |After(was, u)| && (n.Some? ==> n.value in now)
  {
  }

  // ----- moving every user of one object to another -----

  /** A list put in front of another, one element at a time. */
  function Onto(list: seq<UserId>, tail: seq<UserId>): seq<UserId> {
    if list == [] then tail else Onto(list[1..], [list[0]] + tail)
  }

  lemma {:induction false} OntoHolds(list: seq<UserId>, tail: seq<UserId>)
    ensures forall u :: u in Onto(list, tail) <==> u in list || u in tail
    ensures |Onto(list, tail)| == |list| + |tail|
  {
    if list != [] {
      OntoHolds(list[1..], [list[0]] + tail);
      assert list == [list[0]] + list[1..];
    }
  }

  ghost function MovedUser(a: Cache, o: ObjectId, u: UserId, h: HandleId, dest: ObjectId): Cache
    requires o in a.os && dest in a.os && u in a.us && h in a.hs
  {
    a.(os := Moved(a.os, o, u, dest), us := a.us[u := a.us[u].(of := Some(dest))], hs := a.hs[h := MovedHandle(a.hs[h], dest)])
  }

  /** Whether the users of an object may be moved: none is done, and, if nobody is to be moved too late, none has been told of headers. */
  ghost predicate Movable(hs: Handles, o: ObjectId, rules: Rules) {
    Unfinished(hs, o) && (Single(rules) ==> Untouched(hs, o))
  }

  /** A user may then be moved to any object whose source can be read. */
  lemma MovingUser(a: Cache, rules: Rules, o: ObjectId, u: UserId, dest: ObjectId)
    requires Sane(a, rules, None) && o in a.os && dest in a.os && o != dest && u in a.os[o].users
    requires Movable(a.hs, o, rules) && (a.os[dest].onDisc ==> a.os[dest].hasData)
    ensures u in a.us && a.us[u].handle.Some? && a.us[u].handle.value in a.hs && a.hs[a.us[u].handle.value].object_ == o
    ensures Sane(MovedUser(a, o, u, a.us[u].handle.value, dest), rules, None)
  {
    hide Inv;
    hide DeliveredTo;
    hide ObjectOk;
    hide NoDup;
    hide Moved;
    hide MovedHandle;
    hide Numbered;
    ListedFacts(a, rules, None, o, u);
    var h := a.us[u].handle.value;
    assert a.hs[h].state != Complete && (Single(rules) ==> Rank(a.hs[h].state) < 2);
    MovedIsDelivered(a.hs[h], a.os[o], a.os[dest], dest);
    if Single(rules) {
      CloneIsSteadfast(a, rules, None, h);
    }
    UserMoved(a.os, a.us, a.hs, a.cached, a.uncached, rules, None, o, u, h, dest, MovedHandle(a.hs[h], dest));
    MovedKeys(a.os, o, u, dest);
    NumberedOn(a.os, a.us, a.hs, a.next, Moved(a.os, o, u, dest), a.us[u := a.us[u].(of := Some(dest))],
               a.hs[h := MovedHandle(a.hs[h], dest)]);
  }

  /** A client that is not done may be moved anywhere: if it has been given data, that is on record. */
  lemma MovedIsDelivered(h: Handle, was: Object, o: Object, dest: ObjectId)
    requires DeliveredTo(h, was) && h.state != Complete
    ensures var now := MovedHandle(h, dest);
      DeliveredTo(now, o) && now.object_ == dest && now.user == h.user && (Rank(h.state) < 2 ==> now.past == h.past)
  {
    hide InOrder;
    MoveIsSafeExactlyWhenNothingRead(h);
    if Rank(h.state) < 2 {
      NothingSeenYet(h);
    }
    if h.bytes == 0 {
      assert Sound(h, o.source);
    }
  }

  lemma MovedKeys(os: Objects, o: ObjectId, u: UserId, dest: ObjectId)
    requires o in os && dest in os
    ensures Moved(os, o, u, dest).Keys == os.Keys
  {
  }

  /** Every handle on one object is on another, and no client has been told anything by the way. */
  ghost predicate HandlesMoved(a: Handles, b: Handles, o: ObjectId, dest: ObjectId) {
    b.Keys == a.Keys && forall h :: h in a ==> b[h] == if a[h].object_ == o then MovedHandle(a[h], dest) else a[h]
  }

  /** Half way: some of the handles have moved. */
  ghost predicate SomeMoved(a: Handles, b: Handles, o: ObjectId, dest: ObjectId) {
    && b.Keys == a.Keys
    && forall h :: h in a ==> b[h] == a[h] || (a[h].object_ == o && b[h] == MovedHandle(a[h], dest))
  }

  lemma MovableStill(a: Handles, b: Handles, o: ObjectId, dest: ObjectId, rules: Rules)
    requires SomeMoved(a, b, o, dest) && Movable(a, o, rules) && o != dest
    ensures Movable(b, o, rules)
  {
  }

  lemma AllMoved(a: Cache, b: Cache, rules: Rules, o: ObjectId, dest: ObjectId)
    requires Sane(b, rules, None) && o in b.os && b.os[o].users == [] && SomeMoved(a.hs, b.hs, o, dest) && o != dest
    ensures HandlesMoved(a.hs, b.hs, o, dest)
  {
    hide Sane;
    hide ObjectOk;
    hide DeliveredTo;
    hide MovedHandle;
    SaneObject(b, rules, None, o);
    forall h | h in a.hs && a.hs[h].object_ == o ensures b.hs[h] == MovedHandle(a.hs[h], dest) {
      assert b.hs[h].object_ != o;
    }
  }

  /** Two objects' lists are all that differs, users having moved from the head of the one to the head of the other. */
  ghost predicate Shifted(os: Objects, os': Objects, o: ObjectId, dest: ObjectId) {
    && o in os && dest in os && os'.Keys == os.Keys
    && os'[o] == WithUsers(os[o], os'[o].users) && os'[dest] == WithUsers(os[dest], os'[dest].users)
    && Onto(os'[o].users, os'[dest].users) == Onto(os[o].users, os[dest].users)
    && forall x :: x in os && x != o && x != dest ==> os'[x] == os[x]
  }

  lemma ShiftedItself(os: Objects, o: ObjectId, dest: ObjectId)
    requires o in os && dest in os
    ensures Shifted(os, os, o, dest)
  {
  }

  lemma ShiftedOn(os: Objects, os': Objects, o: ObjectId, dest: ObjectId)
    requires Shifted(os, os', o, dest) && o != dest && os'[o].users != []
    ensures Shifted(os, Moved(os', o, os'[o].users[0], dest), o, dest)
    ensures |Moved(os', o, os'[o].users[0], dest)[o].users| < |os'[o].users|
  {
  }

  lemma SomeMovedOn(a: Handles, b: Handles, o: ObjectId, dest: ObjectId, h: HandleId)
    requires SomeMoved(a, b, o, dest) && h in b && b[h].object_ == o && o != dest
    ensures SomeMoved(a, b[h := MovedHandle(b[h], dest)], o, dest)
  {
  }

  lemma SomeMovedItself(a: Handles, o: ObjectId, dest: ObjectId)
    ensures SomeMoved(a, a, o, dest)
  {
  }

  /** All the users of one object now precede those of the other. */
  lemma ShiftedAll(os: Objects, os': Objects, o: ObjectId, dest: ObjectId)
    requires Shifted(os, os', o, dest) && os'[o].users == []
    ensures os'[o] == WithUsers(os[o], []) && os'[dest] == WithUsers(os[dest], Onto(os[o].users, os[dest].users))
  {
  }

  // ----- giving a candidate up -----

  ghost function WithoutCandidate(a: Cache, o: ObjectId): Cache
    requires o in a.os && a.os[o].candidate.Some? && a.os[o].candidate.value in a.os && a.os[o].candidate.value != o
    requires a.os[a.os[o].candidate.value].candidateCount > 0
  {
    a.(os := Uncandidated(a.os, o))
  }

  lemma DroppingCandidate(a: Cache, rules: Rules, o: ObjectId)
    requires Sane(a, rules, None) && o in a.os && a.os[o].candidate.Some?
    ensures a.os[o].candidate.value in a.os && a.os[o].candidate.value != o
    ensures a.os[a.os[o].candidate.value].candidateCount > 0
    ensures Sane(WithoutCandidate(a, o), rules, None)
  {
    hide Inv;
    CandidateDropped(a.os, a.us, a.hs, a.cached, a.uncached, rules, None, o);
    NumberedOn(a.os, a.us, a.hs, a.next, Uncandidated(a.os, o), a.us, a.hs);
    hide Numbered;
  }

  /**
   While a candidate is held and the fetch goes on, no client has been given
   data, and none but one moved here too late has been told of headers.
   */
  lemma CandidateMeansUnread(a: Cache, rules: Rules, o: ObjectId)
    requires Sane(a, rules, None) && o in a.os && a.os[o].candidate.Some? && a.os[o].fetching
    ensures Movable(a.hs, o, rules)
    ensures forall h :: h in a.hs && a.hs[h].object_ == o ==> GivenNothing(a.hs[h])
  {
    hide Sane;
    hide ObjectsOk;
    SaneObject(a, rules, None, o);
    forall h | h in a.hs && a.hs[h].object_ == o
      ensures a.hs[h].state != Complete && GivenNothing(a.hs[h]) && (Single(rules) ==> Rank(a.hs[h].state) < 2)
    {
      UnansweredGivesNothing(a.hs[h], a.os[o], rules);
      if Single(rules) {
        CloneIsSteadfast(a, rules, None, h);
      }
    }
  }

  /** What a client on an object without any source yet has been given: nothing, unless it was moved here too late. */
  ghost predicate GivenNothing(h: Handle) {
    (h.past == Steady ==> Rank(h.state) < 2 && h.log == []) && (h.past != Mixed ==> h.bytes == 0)
  }

  lemma UnansweredGivesNothing(h: Handle, o: Object, rules: Rules)
    requires DeliveredTo(h, o) && ObjectOk(o, rules) && o.fetching && (o.candidate.Some? || !o.answered)
    ensures GivenNothing(h) && h.state != Complete && (h.past == Steady ==> Rank(h.state) < 2)
  {
    hide Payload;
    if Rank(h.state) < 2 {
      NothingSeenYet(h);
    }
  }

  /** As long as no attempt at a fetch has brought data, clients that were not moved too late have been told nothing. */
  lemma NoDataNothingTold(a: Cache, rules: Rules, t: Option<UserId>, o: ObjectId)
    requires Sane(a, rules, t) && o in a.os && !a.os[o].answered
    requires forall h :: h in a.hs && a.hs[h].object_ == o ==> a.hs[h].past == Steady
    ensures Untouched(a.hs, o)
  {
    hide Sane;
    hide ObjectOk;
    hide Tallied;
    SaneObject(a, rules, t, o);
  }

  /** When an answer that comes before any data comes in its turn, the clients may be moved. */
  lemma PromptIsMovable(a: Cache, rules: Rules, o: ObjectId)
    requires Sane(a, rules, None) && o in a.os && a.os[o].fetching && (rules.prompt ==> Rank(a.os[o].state) < 2)
    ensures Movable(a.hs, o, rules) && (Single(rules) ==> !a.os[o].answered)
  {
    hide Sane;
    hide Tallied;
    SaneObject(a, rules, None, o);
    if Single(rules) {
      forall h | h in a.hs && a.hs[h].object_ == o ensures a.hs[h].past == Steady {
        CloneIsSteadfast(a, rules, None, h);
      }
      NoDataNothingTold(a, rules, None, o);
    }
  }

  /**
   Whatever the object its clients are redirected to holds, what each has been
   given is the beginning of that: so it is exactly if none has been given data.
   */
  lemma RedirectIsSafeExactly(a: Cache, rules: Rules, o: ObjectId)
    requires Sane(a, rules, None) && o in a.os && a.os[o].fetching
    ensures (forall h, source: seq<Byte> :: h in a.hs && a.hs[h].object_ == o ==> Sound(a.hs[h], source)) <==> Unread(a.hs, o)
  {
    hide Sane;
    hide Sound;
    SaneObject(a, rules, None, o);
    forall h | h in a.hs && a.hs[h].object_ == o
      ensures (forall source: seq<Byte> :: Sound(a.hs[h], source)) <==> a.hs[h].bytes == 0
    {
      MoveIsSafeExactlyWhenNothingRead(a.hs[h]);
    }
  }

  lemma SameClientsAdvance(a: Cache, b: Cache)
    requires b.hs == a.hs && b.us == a.us && b.next == a.next
    ensures Advances(a, b)
  {
  }

  lemma MovedAdvance(a: Cache, b: Cache, o: ObjectId, dest: ObjectId)
    requires HandlesMoved(a.hs, b.hs, o, dest) && b.us.Keys == a.us.Keys && b.next >= a.next
    requires forall h :: h in a.hs && a.hs[h].object_ == o ==> GivenNothing(a.hs[h])
    ensures Advances(a, b)
  {
  }

  /** As `Advances`, but that clients may have been moved too late, as far as the limit says. */
  ghost predicate Drifts(a: Cache, b: Cache, limit: nat) {
    KeysKept(a, b) && forall h :: h in a.hs && h in b.hs ==>
      && Rank(a.hs[h].state) <= Rank(b.hs[h].state) && a.hs[h].bytes <= b.hs[h].bytes
      && a.hs[h].base == b.hs[h].base && a.hs[h].log <= b.hs[h].log
      && (b.hs[h].past == a.hs[h].past || PastRank(a.hs[h].past) < PastRank(b.hs[h].past) <= limit)
  }

  /** How badly the clients of an object may fare if they are moved from it. */
  ghost function Lateness(hs: Handles, o: ObjectId): nat {
    if Untouched(hs, o) then 0 else if Unread(hs, o) then 1 else 2
  }

  lemma MovedDrift(a: Cache, b: Cache, o: ObjectId, dest: ObjectId)
    requires HandlesMoved(a.hs, b.hs, o, dest) && b.us.Keys == a.us.Keys && b.next >= a.next
    ensures Drifts(a, b, Lateness(a.hs, o))
  {
  }

  lemma NoLater(a: Handles, b: Handles, o: ObjectId)
    requires NoFurther(a, b, o)
    ensures Lateness(b, o) <= Lateness(a, o)
  {
  }

  lemma AdvancesDrifts(a: Cache, b: Cache, limit: nat)
    requires Advances(a, b)
    ensures Drifts(a, b, limit)
  {
  }

  lemma DriftsOn(a: Cache, b: Cache, c: Cache, m: nat, n: nat)
    requires Numbered(a.os, a.us, a.hs, a.next) && Drifts(a, b, m) && Drifts(b, c, n) && n <= m
    ensures Drifts(a, c, m)
  {
  }

  /** No client but those on an object in which there was data can come to hold what is not the beginning of its source. */
  lemma DriftMeans(a: Cache, b: Cache, limit: nat)
    requires Drifts(a, b, limit)
    ensures limit == 0 ==> Advances(a, b)
    ensures limit < 2 ==> forall h :: h in a.hs && h in b.hs && b.hs[h].past == Mixed ==> a.hs[h].past == Mixed
  {
  }

  /** A candidate the server says is still good takes over what the answer said of its freshness. */
  function Revalidated(c: Object, o: Object, expiry: int): Object {
    var noCache := if o.noCache != Fresh then o.noCache else c.noCache;
    c.(reqTime := o.reqTime, expiry := expiry, noCache := if noCache == Once then Fresh else noCache)
  }

  lemma RevalidatedOk(c: Object, o: Object, expiry: int, rules: Rules)
    requires ObjectOk(c, rules)
    ensures ObjectOk(Revalidated(c, o, expiry), rules) && Tame(c, Revalidated(c, o, expiry))
    ensures forall h: Handle :: DeliveredTo(h, c) ==> DeliveredTo(h, Revalidated(c, o, expiry))
  {
    hide Sound;
  }

  lemma Revalidating(a: Cache, rules: Rules, c: ObjectId, o: ObjectId, expiry: int)
    requires Sane(a, rules, None) && c in a.os && o in a.os
    ensures Sane(WithObject(a, c, Revalidated(a.os[c], a.os[o], expiry)), rules, None)
  {
    hide Sane;
    SaneObject(a, rules, None, c);
    RevalidatedOk(a.os[c], a.os[o], expiry, rules);
    hide ObjectOk;
    hide DeliveredTo;
    hide Tame;
    hide Revalidated;
    ObjectSet(a, rules, None, c, Revalidated(a.os[c], a.os[o], expiry));
  }

  /** A 304 answer: every client moves, having been told nothing, to the candidate, which is no longer one. */
  ghost predicate HandedOver(a: Cache, b: Cache, o: ObjectId, c: ObjectId) {
    && o in a.os && c in a.os && o in b.os && c in b.os
    && HandlesMoved(a.hs, b.hs, o, c)
    && (forall h :: h in a.hs && a.hs[h].object_ == o ==> GivenNothing(a.hs[h]))
    && b.os[o].users == [] && b.os[c].users == Onto(a.os[o].users, a.os[c].users)
    && b.os[o].candidate == None && b.os[c].candidateCount + 1 == a.os[c].candidateCount
    && b.os[o].state == Complete && !b.os[o].fetching
    && b.os[c].source == a.os[c].source && b.os[c].hasData == a.os[c].hasData && b.os[c].state == a.os[c].state
    && b.os[c].reqTime == a.os[o].reqTime && b.os[c].noCache != Once
  }

  // ----- retries -----

  /** An object prepared for another try: one timed attempt fewer, or with credentials or older TLS for the first time. */
  predicate Prepared(was: Object, o: Object, rules: Rules) {
    && o == was.(retries := o.retries, triedAuth := o.triedAuth, triedTls := o.triedTls)
    && o.retries <= was.retries && (rules.attempts > 0 ==> o.retries > 0) && (Single(rules) ==> !was.answered)
    && (o.retries < was.retries || (o.triedAuth && !was.triedAuth) || (o.triedTls && !was.triedTls))
    && (was.triedAuth ==> o.triedAuth) && (was.triedTls ==> o.triedTls)
  }

  lemma Refetching(a: Cache, rules: Rules, o: ObjectId, prepared: Object, started: bool, now: int)
    requires Sane(a, rules, None) && o in a.os && a.os[o].fetching && Prepared(a.os[o], prepared, rules)
    ensures Sane(WithObject(a, o, OnRefetch(prepared, started, now)), rules, None)
  {
    hide Sane;
    hide ObjectOk;
    hide DeliveredTo;
    hide Tame;
    hide OnRefetch;
    SaneObject(a, rules, None, o);
    RefetchIsOk(prepared, a.os[o], rules, started, now);
    ObjectSet(a, rules, None, o, OnRefetch(prepared, started, now));
  }

  lemma RefetchIsOk(o: Object, was: Object, rules: Rules, started: bool, now: int)
    requires ObjectOk(was, rules) && was.fetching && Prepared(was, o, rules)
    ensures ObjectOk(OnRefetch(o, started, now), rules) && Tame(was, OnRefetch(o, started, now))
    ensures forall h: Handle :: DeliveredTo(h, was) ==> DeliveredTo(h, OnRefetch(o, started, now))
  {
    hide ObjectOk;
    hide DeliveredTo;
    hide Tame;
    hide OnRefetch;
    forall h ensures DeliveredTo(h, was) ==> DeliveredTo(h, OnRefetch(o, started, now)) {
      RefetchOk(o, was, rules, started, now, h);
    }
    RefetchOk(o, was, rules, started, now, NewHandle(0, 0, Init, Steady));
  }

  lemma MarkingAuth(a: Cache, rules: Rules, o: ObjectId, tried: bool, certs: bool)
    requires Sane(a, rules, None) && o in a.os && (tried == a.os[o].triedAuth || !a.os[o].fetching)
    ensures Sane(WithObject(a, o, a.os[o].(triedAuth := tried, certs := certs)), rules, None)
  {
    hide Sane;
    SaneObject(a, rules, None, o);
    var now := a.os[o].(triedAuth := tried, certs := certs);
    hide Sound;
    assert ObjectOk(now, rules) && Tame(a.os[o], now);
    assert forall h: Handle :: DeliveredTo(h, a.os[o]) ==> DeliveredTo(h, now);
    hide ObjectOk;
    hide DeliveredTo;
    hide Tame;
    ObjectSet(a, rules, None, o, now);
  }

  /** A candidate's source is in memory, and it is not the object that names it. */
  lemma CandidateReadable(a: Cache, rules: Rules, o: ObjectId)
    requires Sane(a, rules, None) && o in a.os && a.os[o].candidate.Some?
    ensures a.os[o].candidate.value in a.os && a.os[o].candidate.value != o
    ensures var c := a.os[a.os[o].candidate.value]; c.candidateCount > 0 && (c.onDisc ==> c.hasData)
  {
    hide Sane;
    DroppingCandidate(a, rules, o);
    SaneObject(a, rules, None, a.os[o].candidate.value);
    hide DeliveredTo;
  }

  /** What becomes of the two objects after the clients have moved from `o` to `c`. */
  ghost predicate Settled(b: Objects, z: Objects, o: ObjectId, c: ObjectId, expiry: int) {
    && o in b && c in b && o != c && b[c].candidateCount > 0 && o in z && c in z
    && z[o] == Stopped(b[o].(candidate := None))
    && z[c] == Revalidated(Recounted(b[c], b[c].candidateCount - 1), b[o].(candidate := None), expiry)
  }

  lemma HandOverDone(a: Cache, b: Objects, z: Cache, o: ObjectId, c: ObjectId, expiry: int)
    requires Shifted(a.os, b, o, c) && b[o].users == [] && Settled(b, z.os, o, c, expiry)
    requires HandlesMoved(a.hs, z.hs, o, c) && a.os[o].candidate == Some(c)
    requires forall h :: h in a.hs && a.hs[h].object_ == o ==> GivenNothing(a.hs[h])
    ensures HandedOver(a, z, o, c)
  {
    ShiftedAll(a.os, b, o, c);
    hide HandlesMoved;
    hide Onto;
  }

  lemma ShiftedKeys(os: Objects, os': Objects, o: ObjectId, dest: ObjectId)
    requires Shifted(os, os', o, dest)
    ensures o in os' && dest in os' && os'[o] == WithUsers(os[o], os'[o].users) && os'[dest] == WithUsers(os[dest], os'[dest].users)
    ensures os'[o].candidate == os[o].candidate && os'[dest].candidateCount == os[dest].candidateCount
  {
  }

  // ----- redirects -----

  /** What is known of a redirect: where to, whether it may be followed and fetched, the answer's code, and the request. */
  datatype Redirection = Redirection(
    url: int,
    allowed: bool,
    canFetch: bool,
    code: int,
    post: bool,
    cacheable: bool,
    hsts: bool)

  const REDIRECT_LIMIT := 10

  /** A redirect that is followed: the answer calls for a plain GET, or repeats one. */
  predicate IsFollowed(r: Redirection) {
    r.allowed && r.canFetch && (r.code in {301, 302, 303} || (r.code == 307 && !r.post))
  }

  /** The object that redirects is finished, is not fresh, and stays in memory while another is retrieved. */
  lemma RedirectedStays(a: Objects, b: Objects, o: ObjectId, now: int)
    requires o in a && UsedSurvive(a, b) && !a[o].onDisc && a[o].state == Complete && a[o].expiry == 0 && now >= 0
    ensures o in b && !IsFresh(b[o], now) && b[o].users == a[o].users
    ensures b[o] == a[o].(candidateCount := b[o].candidateCount)
  {
  }

  lemma MovableOn(a: Handles, b: Handles, o: ObjectId, rules: Rules)
    requires NoFurther(a, b, o) && Movable(a, o, rules)
    ensures Movable(b, o, rules)
  {
    hide Untouched;
    hide Unfinished;
    hide Unread;
  }

  /** None of the clients that were on an object has been moved with data of it. */
  ghost predicate NoneMixed(a: Handles, b: Handles, o: ObjectId) {
    forall h :: h in a && h in b && a[h].object_ == o ==> b[h].past != Mixed
  }

  lemma MixedExactly(a: Cache, b: Cache, rules: Rules, o: ObjectId, dest: ObjectId)
    requires Sane(a, rules, None) && o in a.os && HandlesMoved(a.hs, b.hs, o, dest)
    ensures NoneMixed(a.hs, b.hs, o) <==> Unread(a.hs, o)
  {
    hide Sane;
    hide ObjectOk;
    SaneObject(a, rules, None, o);
    forall h | h in a.hs && a.hs[h].object_ == o ensures b.hs[h].past != Mixed <==> a.hs[h].bytes == 0 {
      if Rank(a.hs[h].state) < 2 {
        NothingSeenYet(a.hs[h]);
      }
    }
  }

  lemma KeepsAdvances(a: Cache, b: Cache)
    requires Keeps(a, b, None)
    ensures Advances(a, b)
  {
  }

  lemma StoppedUntold(a: Cache, b: Cache, o: ObjectId)
    requires o in a.os && b == a.(os := a.os[o := Stopped(a.os[o])])
    ensures Untold(a, b, o) && o in b.os && b.os[o].state == Complete && b.os[o].expiry == 0
    ensures b.os[o].redirects == a.os[o].redirects && b.os[o].onDisc == a.os[o].onDisc
  {
    hide NoFurther;
    NoFurtherItself(a.hs, o);
  }

  lemma UntoldFacts(a: Cache, b: Cache, o: ObjectId)
    requires Untold(a, b, o)
    ensures o in a.os && o in b.os && ObjectKept(a.os[o], b.os[o]) && NoFurther(a.hs, b.hs, o) && Advances(a, b)
  {
    hide NoFurther;
  }

  lemma RetrievedFacts(os: Objects, r: ObjectId, url: int, cached: bool, now: int)
    requires Retrieved(os, r, url, cached, now)
    ensures r in os && (os[r].onDisc ==> os[r].hasData) && IsFresh(os[r], now)
  {
  }

  lemma ShiftedServed(a: Objects, n: ObjectId, now: int, x: ObjectId, mid: Objects, b: Objects, o: ObjectId)
    requires Served(a, n, now, Some(x), mid) && x in mid && Shifted(mid, b, o, x)
    ensures OnNewest(a, n, now, x, b)
  {
    hide Served;
    hide OnNewest;
    hide Onto;
    ServedIsOn(a, n, now, x, mid, b);
  }

  lemma StillRetrieved(os: Objects, os': Objects, o: ObjectId, r: ObjectId, url: int, cached: bool, now: int)
    requires Retrieved(os, r, url, cached, now) && Shifted(os, os', o, r)
    ensures Retrieved(os', r, url, cached, now) && os'[r].redirects == os[r].redirects
  {
    hide Onto;
  }

  lemma NotOnDisc(a: Cache, rules: Rules, o: ObjectId)
    requires Sane(a, rules, None) && o in a.os && a.os[o].fetching
    ensures !a.os[o].onDisc
  {
    SaneObject(a, rules, None, o);
    hide Sane;
    hide DeliveredTo;
  }

  lemma KeptRedirect(a: Object, b: Object)
    requires ObjectKept(a, b) && a.state == Complete && a.expiry == 0
    ensures b.state == Complete && b.expiry == 0 && b.onDisc == a.onDisc && b.redirects == a.redirects
  {
  }

  /** What the fetcher may say. */
  datatype Message =
    | HeaderCame(expiry: int, noCache: Validate)
    | Redirected(to: Redirection)
    | StillGood
    | DataCame(data: seq<Byte>, invalidate: bool)
    | FetchFinished
    | TimedOut
    | FetchError
    | Progress
    | CertsCame
    | NeedsAuth(details: bool)
    | BadCertificate
    | TlsFailed

  // ----- what a message does to an object -----

  /** What no message changes. */
  predicate SameFetch(a: Object, b: Object) {
    b.url == a.url && b.redirects == a.redirects && b.cached == a.cached && b.hsts == a.hsts
  }

  predicate HasEnded(o: Object) {
    o.state == Complete && !o.fetching
  }

  /** Other objects are as they were, but for how often they are counted as candidates. */
  ghost predicate OthersCounted(a: Objects, b: Objects, o: ObjectId) {
    b.Keys == a.Keys && forall x :: x in a && x != o ==> b[x] == a[x].(candidateCount := b[x].candidateCount)
  }

  /** The fetch was started again, if it could be. */
  predicate StartedAgain(a: Object, b: Object) {
    b.starts == a.starts + 1 && (b.fetching ==> b.state == Init)
  }

  /** The fetch has failed for good. */
  predicate GaveUp(a: Object, b: Object) {
    SameFetch(a, b) && SameTries(a, b) && HasEnded(b) && b.candidate == None && b.source == a.source
  }

  /** What an object has become once a message about it has been seen to, whatever its clients did when told. */
  predicate Became(msg: Message, was: Object, now: Object) {
    && SameFetch(was, now)
    && now.source == (if msg.DataCame? then was.source + msg.data else was.source)
    && match msg
       case HeaderCame(expiry, noCache) =>
         now == was.(state := Headers, expiry := expiry, noCache := noCache)
       case DataCame(_, invalidate) =>
         && now.state == Data && now.fetching && now.hasData && now.candidate == None && now.users == was.users && SameTries(was, now)
         && (if invalidate && was.state != Data then now.expiry == 0 && now.reqTime == 0
             else now.expiry == was.expiry && now.reqTime == was.reqTime && now.noCache == was.noCache)
       case FetchFinished =>
         && HasEnded(now) && now.users == was.users && SameTries(was, now) && now.candidate == was.candidate
         && now.expiry == was.expiry && now.reqTime == was.reqTime && now.noCache == was.noCache
       case StillGood => GaveUp(was, now)
       case Redirected(_) => GaveUp(was, now)
       case TimedOut =>
         if was.retries > 1 then
           && StartedAgain(was, now) && now.retries == was.retries - 1 && now.triedAuth == was.triedAuth
           && now.triedTls == was.triedTls && now.candidate == was.candidate && now.users == was.users
           && (!now.fetching ==> now.state == Complete)
         else GaveUp(was, now)
       case FetchError => GaveUp(was, now)
       case Progress =>
         SameTries(was, now) && now.candidate == was.candidate && (now.state == was.state || now.state == Complete)
       case CertsCame =>
         SameTries(was, now) && now.candidate == was.candidate && (now.state == was.state || now.state == Complete) && now.certs
       case NeedsAuth(details) =>
         && now.candidate == None && now.retries == was.retries && now.triedTls == was.triedTls
         && if details && !was.triedAuth then StartedAgain(was, now) && now.triedAuth && now.users == was.users
            else HasEnded(now) && now.starts == was.starts && !now.triedAuth
       case BadCertificate => GaveUp(was, now)
       case TlsFailed =>
         if !was.hsts && !was.triedTls then
           && StartedAgain(was, now) && now.triedTls && now.candidate == None && now.retries == was.retries
           && now.triedAuth == was.triedAuth && now.users == was.users
         else GaveUp(was, now)
  }

  lemma BecameMeans(msg: Message, a: Object, b: Object)
    requires Became(msg, a, b)
    ensures msg.DataCame? ==> b.source == a.source + msg.data && b.state == Data && b.candidate == None
    ensures msg.FetchFinished? ==> b.source == a.source && b.state == Complete && !b.fetching
  {
  }

  lemma HeaderBecame(o: Object, expiry: int, noCache: Validate)
    ensures Became(HeaderCame(expiry, noCache), o, OnHeader(o, expiry, noCache))
  {
  }

  lemma DataBecame(o: Object, data: seq<Byte>, invalidate: bool)
    requires o.fetching
    ensures Became(DataCame(data, invalidate), o, OnData(o.(candidate := None), data, invalidate))
  {
  }

  lemma FinishedBecame(o: Object, hasData: bool)
    ensures Became(FetchFinished, o, OnFinished(o, hasData))
  {
  }

  lemma StoppedGaveUp(o: Object)
    ensures GaveUp(o, Stopped(o.(candidate := None))) && GaveUp(o, Stopped(o).(candidate := None))
    ensures o.candidate == None ==> GaveUp(o, Stopped(o))
    ensures GaveUp(o.(candidate := None), Stopped(o).(candidate := None)) && Stopped(o).candidate == o.candidate
  {
  }

  lemma HandedOverGaveUp(o: Object, users: seq<UserId>)
    ensures GaveUp(o, Stopped(WithUsers(o, users).(candidate := None)))
  {
  }

  lemma HasStopped(o: Object)
    ensures HasEnded(Stopped(o))
  {
  }

  lemma GaveUpEnded(a: Object, b: Object)
    requires GaveUp(a.(candidate := None), b)
    ensures HasEnded(b)
  {
  }

  /** Users that have come or gone, and how often an object is counted, make the only difference. */
  predicate OnlyMoved(a: Object, b: Object) {
    b == a.(users := b.users, candidateCount := b.candidateCount)
  }

  lemma OnlyMovedItself(a: Object, b: Object)
    requires b == a.(candidateCount := b.candidateCount)
    ensures OnlyMoved(a, b)
  {
  }

  lemma OnlyMovedOn(a: Object, b: Object, c: Object)
    requires OnlyMoved(a, b) && c == WithUsers(b, c.users)
    ensures OnlyMoved(a, c)
  {
  }

  lemma GaveUpKept(a: Object, b: Object, c: Object)
    requires GaveUp(a, b) && ObjectKept(b, c)
    ensures GaveUp(a, c)
  {
  }

  lemma GaveUpMoved(a: Object, b: Object, c: Object)
    requires GaveUp(a, b.(candidate := None)) && OnlyMoved(b, c)
    ensures GaveUp(a, c.(candidate := None)) && c.candidate == b.candidate
  {
  }

  lemma GaveUpBecame(a: Object, b: Object, to: Redirection)
    requires GaveUp(a.(candidate := None), b)
    ensures GaveUp(a, b) && Became(StillGood, a, b) && Became(FetchError, a, b) && Became(BadCertificate, a, b) && Became(Redirected(to), a, b)
    ensures a.retries <= 1 ==> Became(TimedOut, a, b)
    ensures a.hsts || a.triedTls ==> Became(TlsFailed, a, b)
  {
  }

  lemma GaveUpBecameSame(a: Object, b: Object)
    requires GaveUp(a, b)
    ensures Became(StillGood, a, b) && Became(FetchError, a, b) && Became(BadCertificate, a, b)
    ensures a.retries <= 1 ==> Became(TimedOut, a, b)
  {
  }

  lemma KeptCandidate(a: Object, b: Object, c: Object)
    requires b == Stopped(a) && ObjectKept(b, c)
    ensures GaveUp(a.(candidate := None), c.(candidate := None)) && c.candidate == a.candidate
  {
  }

  lemma OneChanged(os: Objects, o: ObjectId, now: Object)
    requires o in os
    ensures OthersCounted(os, os[o := now], o)
  {
  }

  lemma RetriedBecame(o: Object, started: bool, now: int)
    requires o.retries > 1
    ensures var next := OnRefetch(o.(retries := o.retries - 1), started, now);
            (started ==> Became(TimedOut, o, next)) && Became(TimedOut, o, Stopped(next)) && !Stopped(next).fetching
            && next.fetching == started
  {
  }

  lemma AuthBecame(o: Object, started: bool, now: int)
    requires !o.triedAuth
    ensures var next := OnRefetch(o.(candidate := None).(triedAuth := true), started, now);
            Became(NeedsAuth(true), o, next) && next.fetching == started
  {
  }

  lemma AuthAsked(o: Object, details: bool, b: Object)
    requires !details || o.triedAuth
    requires ObjectKept(Stopped(o.(candidate := None)).(triedAuth := false), b)
    ensures Became(NeedsAuth(details), o, b) && HasEnded(b)
  {
  }

  lemma TlsBecame(o: Object, started: bool, now: int)
    requires !o.hsts && !o.triedTls
    ensures var next := OnRefetch(o.(candidate := None).(triedTls := true), started, now);
            Became(TlsFailed, o, next) && next.fetching == started
  {
  }

  lemma ToldBecame(o: Object, certs: bool, b: Object)
    requires ObjectKept(if certs then o.(certs := true) else o, b)
    ensures Became(if certs then CertsCame else Progress, o, b)
  {
  }

  /** An object whose client answered news with an error is finished, but otherwise as it was. */
  lemma ToldAndStopped(msg: Message, a: Object, b: Object)
    requires Became(msg, a, b) && (msg.Progress? || msg.CertsCame?)
    ensures Became(msg, a, Stopped(b))
  {
  }

  /** What clients do in between alters none of that. */
  ghost predicate Went(msg: Message, was: Object, now: Object) {
    exists mid :: Became(msg, was, mid) && ObjectKept(mid, now)
  }

  /** All the data messages bring, end to end. */
  function DataOf(msgs: seq<Message>): seq<Byte> {
    if msgs == [] then []
    else DataOf(msgs[..|msgs| - 1]) + (if msgs[|msgs| - 1].DataCame? then msgs[|msgs| - 1].data else [])
  }

  /** The source of an object is all the data that came for it, of all attempts, and in order. */
  lemma {:induction false} SourceIsWhatCame(os: seq<Object>, msgs: seq<Message>)
    requires |os| == |msgs| + 1 && forall i :: 0 <= i < |msgs| ==> Went(msgs[i], os[i], os[i + 1])
    ensures os[|msgs|].source == os[0].source + DataOf(msgs)
  {
    hide Became;
    hide ObjectKept;
    if msgs != [] {
      var n := |msgs| - 1;
      SourceIsWhatCame(os[..n + 1], msgs[..n]);
      assert Went(msgs[n], os[n], os[n + 1]);
      var mid :| Became(msgs[n], os[n], mid) && ObjectKept(mid, os[n + 1]);
      SourceOfOne(msgs[n], os[n], mid, os[n + 1]);
      var d := if msgs[n].DataCame? then msgs[n].data else [];
      assert os[0].source + DataOf(msgs[..n]) + d == os[0].source + (DataOf(msgs[..n]) + d);
    }
  }

  lemma SourceOfOne(msg: Message, was: Object, mid: Object, now: Object)
    requires Became(msg, was, mid) && ObjectKept(mid, now)
    ensures now.source == was.source + (if msg.DataCame? then msg.data else [])
  {
    assert was.source + [] == was.source;
  }

  lemma {:induction false} DataOfBoth(a: seq<Message>, b: seq<Message>)
    ensures DataOf(a + b) == DataOf(a) + DataOf(b)
  {
    if b == [] {
      assert a + b == a;
    } else {
      var n := |b| - 1;
      assert (a + b)[..|a + b| - 1] == a + b[..n] && (a + b)[|a + b| - 1] == b[n];
      DataOfBoth(a, b[..n]);
      var d := if b[n].DataCame? then b[n].data else [];
      assert DataOf(a) + DataOf(b[..n]) + d == DataOf(a) + (DataOf(b[..n]) + d);
    }
  }

  /** An object fetched anew holds what the last attempt brought exactly if those before it had brought nothing. */
  lemma LastAttemptIsWholeExactly(os: seq<Object>, before: seq<Message>, last: seq<Message>)
    requires |os| == |before + last| + 1 && os[0].source == []
    requires forall i :: 0 <= i < |before + last| ==> Went((before + last)[i], os[i], os[i + 1])
    ensures os[|before + last|].source == DataOf(last) <==> DataOf(before) == []
  {
    SourceIsWhatCame(os, before + last);
    DataOfBoth(before, last);
    var a, b := DataOf(before), DataOf(last);
    assert [] + (a + b) == a + b && (a == [] ==> a + b == b);
    assert |a + b| == |a| + |b|;
    hide Went;
  }

  lemma Reaching(a: Cache, b: Cache, c: Cache, rules: Rules)
    requires Sane(a, rules, None) && Advances(a, b) && Advances(b, c)
    ensures Advances(a, c)
  {
    hide Inv;
    AdvancesOn(a, b, c);
  }

  /** Whether a message may come while an attempt is in a state, if fetchers are prompt. */
  predicate InTurn(msg: Message, state: FetchState) {
    (msg.HeaderCame? || msg.Redirected? || msg.StillGood? || msg.NeedsAuth? || msg.TlsFailed?) ==> Rank(state) < 2
  }

  lemma TimeoutPrepares(o: Object, rules: Rules)
    requires ObjectOk(o, rules) && o.fetching && o.retries > 1
    ensures Prepared(o, o.(retries := o.retries - 1), rules)
  {
  }

  lemma FlagPrepares(o: Object, rules: Rules)
    requires ObjectOk(o, rules) && o.fetching && (Single(rules) ==> !o.answered)
    ensures !o.triedAuth ==> Prepared(o, o.(triedAuth := true), rules)
    ensures !o.triedTls ==> Prepared(o, o.(triedTls := true), rules)
  {
  }

  /** What the three ways to try again take to be prepared. */
  lemma Preparing(a: Cache, rules: Rules, o: ObjectId)
    requires Sane(a, rules, None) && o in a.os && a.os[o].fetching
    ensures var was := a.os[o];
      && (was.retries > 1 ==> Prepared(was, was.(retries := was.retries - 1), rules))
      && (!was.triedAuth && (Single(rules) ==> !was.answered) ==> Prepared(was, was.(triedAuth := true), rules))
      && (!was.triedTls && (Single(rules) ==> !was.answered) ==> Prepared(was, was.(triedTls := true), rules))
  {
    hide Sane;
    hide ObjectOk;
    hide Prepared;
    hide DeliveredTo;
    SaneObject(a, rules, None, o);
    if a.os[o].retries > 1 {
      TimeoutPrepares(a.os[o], rules);
    }
    if Single(rules) ==> !a.os[o].answered {
      FlagPrepares(a.os[o], rules);
    }
  }

  // ----- writing out and discarding -----

  lemma WritingOut(a: Cache, rules: Rules, o: ObjectId)
    requires Sane(a, rules, None) && o in a.os && a.os[o].cached && !a.os[o].fetching
    requires a.os[o].hasData || !InUse(a.os[o])
    ensures Sane(WithObject(a, o, a.os[o].(onDisc := true)), rules, None)
  {
    hide Sane;
    SaneObject(a, rules, None, o);
    var now := a.os[o].(onDisc := true);
    hide Sound;
    assert ObjectOk(now, rules) && Tame(a.os[o], now);
    assert forall h: Handle :: DeliveredTo(h, a.os[o]) ==> DeliveredTo(h, now);
    hide ObjectOk;
    hide DeliveredTo;
    hide Tame;
    ObjectSet(a, rules, None, o, now);
  }

  /** Memory is given back for the source of an object that is on disc and not in use. */
  lemma Forgetting(a: Cache, rules: Rules, o: ObjectId)
    requires Sane(a, rules, None) && o in a.os && a.os[o].onDisc && !InUse(a.os[o])
    ensures Sane(WithObject(a, o, a.os[o].(hasData := false)), rules, None)
  {
    hide Sane;
    SaneObject(a, rules, None, o);
    var now := a.os[o].(hasData := false);
    hide Sound;
    assert ObjectOk(now, rules) && Tame(a.os[o], now);
    assert forall h: Handle :: DeliveredTo(h, a.os[o]) ==> DeliveredTo(h, now);
    hide ObjectOk;
    hide DeliveredTo;
    hide Tame;
    ObjectSet(a, rules, None, o, now);
  }

  /** An object that cleaning may neither discard nor forget the source of. */
  predicate Precious(o: Object) {
    InUse(o) || o.fetching
  }

  /** Cleaning leaves the precious objects there and their source in memory; it may write them out. */
  ghost predicate PreciousKept(os: Objects, os': Objects) {
    && (forall o :: o in os' ==> o in os)
    && forall o :: o in os && Precious(os[o]) ==> o in os' && os'[o] == os[o].(onDisc := os'[o].onDisc)
  }

  lemma PreciousOn(a: Objects, b: Objects, c: Objects)
    requires PreciousKept(a, b) && PreciousKept(b, c)
    ensures PreciousKept(a, c)
  {
    forall o | o in a && Precious(a[o]) ensures o in c && c[o] == a[o].(onDisc := c[o].onDisc) {
      assert Precious(b[o]);
    }
  }

  lemma PreciousItself(a: Objects)
    ensures PreciousKept(a, a)
  {
  }

  lemma PreciousLose(a: Objects, o: ObjectId)
    requires o in a && !Precious(a[o])
    ensures PreciousKept(a, a - {o}) && PreciousKept(a, a[o := a[o].(hasData := false)])
  {
  }

  /** What an object takes up in memory: its source, if it is there, and the rest. */
  function TotalSize(o: Object, rest: Object -> nat): nat {
    rest(o) + if o.hasData then |o.source| else 0
  }

  /** The size of the cache is counted in an unsigned word, from which more may be taken off than was added. */
  function TakenOff(size: int, n: nat): int {
    (size - n) % 0x1_0000_0000
  }

  function Lifetime(o: Object, now: int): int {
    if o.noCache == Fresh && o.expiry > now then o.expiry - now else 0
  }

  /** Part of a list is still to be looked at: what is in it is still there. */
  ghost predicate Ahead(list: seq<ObjectId>, i: nat, os: Objects) {
    i <= |list| && NoDup(list[i..]) && forall x :: x in list[i..] ==> x in os
  }

  lemma AheadStarts(a: Cache, rules: Rules)
    requires Sane(a, rules, None)
    ensures Ahead(a.cached, 0, a.os) && Ahead(a.uncached, 0, a.os)
  {
    hide Sane;
    hide NoDup;
    SaneLists(a, rules, None);
    assert a.cached[0..] == a.cached && a.uncached[0..] == a.uncached;
  }

  lemma AheadNext(list: seq<ObjectId>, i: nat, os: Objects)
    requires Ahead(list, i, os) && i < |list|
    ensures list[i] in os && Ahead(list, i + 1, os) && Ahead(list, i + 1, os - {list[i]})
    ensures Ahead(list, i + 1, os[list[i] := os[list[i]].(hasData := false)])
  {
    assert list[i..][0] == list[i] && list[i..][1..] == list[i + 1..];
    forall x | x in list[i + 1..] ensures x in list[i..] && x != list[i] {
      assert x in list[i..][1..];
    }
  }

  // ----- what cleaning must discard -----

  /** Nobody uses the object, names it as a candidate or fetches it. */
  predicate Idle(o: Object) {
    o.users == [] && o.candidateCount == 0 && !o.fetching
  }

  /** Idle, and its lifetime is over. */
  predicate IdleAndStale(o: Object, now: int) {
    Idle(o) && (o.noCache != Fresh || o.expiry <= now)
  }

  /** What is discarded for room, among the idle: first what is on disc only, then what is in memory only. */
  predicate MayGo(o: Object, onDisc: bool) {
    if onDisc then o.onDisc && !o.hasData else !o.onDisc
  }

  /** What is worth writing out: cacheable objects that are complete, wanted by no other and fresh for long enough. */
  predicate MayBeWritten(o: Object, minimum: nat, now: int) {
    && o.cached && o.candidateCount == 0 && !o.fetching
    && o.noCache == Fresh && o.expiry - now > minimum
  }

  /** Idle, and of no use to anyone who might ask for it. */
  predicate Useless(o: Object, now: int) {
    Idle(o) && (!o.cached || o.noCache != Fresh || o.expiry <= now)
  }

  /** What there is without what is useless. */
  ghost function Swept(os: Objects, now: int): Objects {
    map o | o in os && !Useless(os[o], now) :: os[o]
  }

  /** Some objects have gone, the others are as they were, but for where their source is. */
  ghost predicate Shrunk(a: Objects, b: Objects) {
    forall o :: o in b ==> o in a && b[o] == a[o].(onDisc := b[o].onDisc, hasData := b[o].hasData)
  }

  lemma ShrunkOn(a: Objects, b: Objects, c: Objects)
    requires Shrunk(a, b) && Shrunk(b, c)
    ensures Shrunk(a, c)
  {
  }

  lemma ShrunkItself(a: Objects)
    ensures Shrunk(a, a)
  {
  }

  lemma ShrunkByOne(a: Objects, o: ObjectId)
    ensures Shrunk(a, a - {o}) && (o in a ==> Shrunk(a, a[o := a[o].(hasData := false)]) && Shrunk(a, a[o := a[o].(onDisc := true)]))
  {
  }

  /** What was swept stays so, and what was idle. */
  lemma ShrunkStaysSwept(a: Objects, b: Objects, now: int)
    requires Shrunk(a, b) && forall o :: o in a ==> !Useless(a[o], now)
    ensures forall o :: o in b ==> !Useless(b[o], now)
  {
    forall o | o in b ensures Useless(b[o], now) <==> Useless(a[o], now) {
      assert b[o] == a[o].(onDisc := b[o].onDisc, hasData := b[o].hasData);
    }
  }

  /** What the objects of a list that are there take up. */
  ghost function TotalOf(list: seq<ObjectId>, os: Objects, rest: Object -> nat): nat {
    if list == [] then 0
    else TotalOf(list[..|list| - 1], os, rest) + (if list[|list| - 1] in os then TotalSize(os[list[|list| - 1]], rest) else 0)
  }

  lemma {:induction false} TotalWithoutOne(list: seq<ObjectId>, os: Objects, o: ObjectId, rest: Object -> nat)
    requires o !in list
    ensures TotalOf(list, os - {o}, rest) == TotalOf(list, os, rest)
  {
    if list != [] {
      TotalWithoutOne(list[..|list| - 1], os, o, rest);
      assert list[|list| - 1] in list;
    }
  }

  /** The first objects of a list have been looked at: those that may go have gone, and what is left has been added up. */
  ghost predicate Sweeping(was: Objects, now: Objects, list: seq<ObjectId>, i: nat, mayGo: Object -> bool, rest: Object -> nat, size: int) {
    && i <= |list| && size == TotalOf(list[..i], now, rest)
    && (forall o :: o in now <==> o in was && !(o in list[..i] && mayGo(was[o])))
    && (forall o :: o in now ==> now[o] == was[o])
  }

  lemma SweepingStarts(was: Objects, list: seq<ObjectId>, mayGo: Object -> bool, rest: Object -> nat)
    ensures Sweeping(was, was, list, 0, mayGo, rest, 0)
  {
    assert list[..0] == [];
  }

  lemma SweepingOn(was: Objects, now: Objects, list: seq<ObjectId>, i: nat, mayGo: Object -> bool, rest: Object -> nat, size: int)
    requires Sweeping(was, now, list, i, mayGo, rest, size) && i < |list| && list[i] in now && list[i] !in list[..i]
    ensures now[list[i]] == was[list[i]]
    ensures if mayGo(now[list[i]]) then Sweeping(was, now - {list[i]}, list, i + 1, mayGo, rest, size)
            else Sweeping(was, now, list, i + 1, mayGo, rest, size + TotalSize(now[list[i]], rest))
  {
    hide TotalSize;
    var o := list[i];
    assert list[..i + 1] == list[..i] + [o] && (list[..i] + [o])[..i] == list[..i];
    TotalWithoutOne(list[..i], now, o, rest);
    assert forall x :: x in list[..i + 1] <==> x in list[..i] || x == o;
  }

  lemma SweepingEnds(was: Objects, now: Objects, list: seq<ObjectId>, mayGo: Object -> bool, rest: Object -> nat, size: int)
    requires Sweeping(was, now, list, |list|, mayGo, rest, size)
    ensures size == TotalOf(list, now, rest)
    ensures now == map o | o in was && !(o in list && mayGo(was[o])) :: was[o]
  {
    assert list[..|list|] == list;
  }

  lemma {:induction false} OnceInList(list: seq<ObjectId>, i: nat)
    requires NewestFirst(list) && i < |list|
    ensures list[i] !in list[..i]
  {
    forall k | 0 <= k < i ensures list[k] != list[i] {
      LaterIsOlder(list, k, i);
    }
  }

  /** After both sweeps nothing useless is left, and nothing else has gone. */
  lemma SweptTwice(a: Cache, rules: Rules, b: Objects, c: Objects, uncached: seq<ObjectId>, cached: seq<ObjectId>, now: int)
    requires Sane(a, rules, None) && uncached == a.uncached && forall o :: o in b && b[o].cached ==> o in cached
    requires forall o :: o in cached ==> o in b && b[o].cached
    requires b == map o | o in a.os && !(o in uncached && Idle(a.os[o])) :: a.os[o]
    requires c == map o | o in b && !(o in cached && IdleAndStale(b[o], now)) :: b[o]
    ensures c == Swept(a.os, now)
  {
    hide Sane;
    SaneOrder(a, rules, None);
    forall o | o in a.os ensures o in c <==> o in Swept(a.os, now) {
      if !a.os[o].cached {
        assert o in ListOf(a, false);
      }
      if o in b && b[o].cached {
        assert o in cached;
      }
      if a.os[o].cached && o in uncached {
        assert o in ListOf(a, false);
      }
    }
  }

  lemma SweptIsSwept(os: Objects, now: int)
    ensures forall o :: o in Swept(os, now) ==> !Useless(Swept(os, now)[o], now)
    ensures Shrunk(os, Swept(os, now))
  {
  }

  lemma {:induction false} TotalOfSame(list: seq<ObjectId>, a: Objects, b: Objects, rest: Object -> nat)
    requires forall o :: o in list ==> (o in a <==> o in b) && (o in a ==> b[o] == a[o])
    ensures TotalOf(list, a, rest) == TotalOf(list, b, rest)
  {
    if list != [] {
      TotalOfSame(list[..|list| - 1], a, b, rest);
      assert list[|list| - 1] in list;
    }
  }

  /** What the sweeps count is what the swept cache takes up. */
  lemma TotalsOfSwept(a: Cache, rules: Rules, b: Objects, rest: Object -> nat, now: int)
    requires Sane(a, rules, None)
    requires b == map o | o in a.os && !(o in a.uncached && Idle(a.os[o])) :: a.os[o]
    ensures TotalOf(a.uncached, b, rest) == TotalOf(a.uncached, Swept(a.os, now), rest)
  {
    hide Sane;
    hide TotalOf;
    SaneOrder(a, rules, None);
    assert a.uncached == ListOf(a, false);
    TotalOfSame(a.uncached, b, Swept(a.os, now), rest);
  }

  /** Nothing has happened but that some objects worth it have been written out. */
  ghost predicate Written(a: Objects, b: Objects, minimum: nat, now: int) {
    && (forall x :: x in a <==> x in b)
    && forall x :: x in b ==> b[x] == a[x] || (MayBeWritten(a[x], minimum, now) && b[x] == a[x].(onDisc := true))
  }

  lemma WrittenItself(a: Objects, minimum: nat, now: int)
    ensures Written(a, a, minimum, now)
  {
  }

  lemma WrittenOn(a: Objects, b: Objects, o: ObjectId, minimum: nat, now: int)
    requires Written(a, b, minimum, now) && o in b && MayBeWritten(b[o], minimum, now)
    ensures Written(a, b[o := b[o].(onDisc := true)], minimum, now)
  {
  }

  /** Worth writing out, and not written out though that would leave it as it should be. */
  predicate Unstored(o: Object, minimum: nat, now: int) {
    MayBeWritten(o, minimum, now) && !o.onDisc && (o.hasData || !InUse(o))
  }

  lemma WorthWriting(o: Object, minimum: nat, now: int)
    requires o.cached
    ensures o.candidateCount == 0 && !o.fetching && Lifetime(o, now) > minimum ==> MayBeWritten(o, minimum, now)
    ensures Unstored(o, minimum, now) ==> o.candidateCount == 0 && !o.fetching && !o.onDisc && Lifetime(o, now) > minimum
  {
  }

  ghost function NewOnDisc(a: Objects, b: Objects): set<ObjectId> {
    set x | x in b && b[x].onDisc && x in a && !a[x].onDisc
  }

  lemma NothingNew(a: Objects)
    ensures NewOnDisc(a, a) == {}
  {
  }

  lemma OneMoreNew(a: Objects, b: Objects, o: ObjectId)
    requires o in b
    ensures |NewOnDisc(a, b[o := b[o].(onDisc := true)])| <= |NewOnDisc(a, b)| + 1
  {
    var more := NewOnDisc(a, b[o := b[o].(onDisc := true)]);
    assert more <= NewOnDisc(a, b) + {o};
    FewerOf(more, NewOnDisc(a, b) + {o});
  }

  lemma FewerOf(a: set<ObjectId>, b: set<ObjectId>)
    requires a <= b
    ensures |a| <= |b|
  {
    assert b == a + (b - a);
  }

  lemma WrittenMeans(a: Objects, b: Objects, minimum: nat, now: int)
    requires Written(a, b, minimum, now)
    ensures PreciousKept(a, b) && Shrunk(a, b)
    ensures forall x :: x in a ==> x in b && b[x].cached == a[x].cached
  {
    hide MayBeWritten;
    hide Precious;
    forall x | x in b ensures b[x] == a[x].(onDisc := b[x].onDisc) && b[x].hasData == a[x].hasData && b[x].cached == a[x].cached {
      WrittenObject(a[x], b[x]);
    }
  }

  lemma WrittenObject(a: Object, b: Object)
    requires b == a || b == a.(onDisc := true)
    ensures b == a.(onDisc := b.onDisc) && b == a.(onDisc := b.onDisc, hasData := b.hasData)
  {
  }

  /** None of the objects of a list that are there is of a kind. */
  ghost predicate NoneOf(list: seq<ObjectId>, os: Objects, kind: Object -> bool) {
    forall o :: o in list && o in os ==> !kind(os[o])
  }

  lemma NoneYet(list: seq<ObjectId>, os: Objects, kind: Object -> bool)
    ensures NoneOf(list[..0], os, kind)
  {
  }

  lemma NoneOn(list: seq<ObjectId>, i: nat, a: Objects, b: Objects, kind: Object -> bool)
    requires i < |list| && NoneOf(list[..i], a, kind)
    requires forall o :: o in b && o != list[i] ==> o in a && b[o] == a[o]
    requires list[i] in b ==> !kind(b[list[i]])
    ensures NoneOf(list[..i + 1], b, kind)
  {
    assert list[..i + 1] == list[..i] + [list[i]];
  }

  /** If every pass ran to its end, nothing idle is left. */
  lemma NoIdleLeft(e: Cache, f: Cache, g: Objects, rules: Rules, now: int)
    requires Sane(e, rules, None) && Sane(f, rules, None)
    requires forall o :: o in e.os ==> !Useless(e.os[o], now)
    requires forall o :: o in f.os ==> o in e.os && f.os[o] == e.os[o]
    requires forall o :: o in g ==> o in f.os && g[o] == f.os[o]
    requires NoneOf(e.cached, e.os, (x: Object) => Idle(x) && x.onDisc && x.hasData)
    requires NoneOf(e.cached, f.os, (x: Object) => Idle(x) && MayGo(x, true))
    requires NoneOf(f.cached, g, (x: Object) => Idle(x) && MayGo(x, false))
    ensures forall o :: o in g ==> !Idle(g[o])
  {
    hide Sane;
    SaneLists(e, rules, None);
    SaneLists(f, rules, None);
    forall o | o in g ensures !Idle(g[o]) {
      assert !Useless(e.os[o], now);
      if g[o].cached {
        assert o in e.cached && o in f.cached;
      }
    }
  }
}
