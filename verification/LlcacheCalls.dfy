/**
 What the calls a client may make do to the cache: releasing, cloning, aborting
 and retrieving. Each keeps the cache sound and leaves alone what clients have
 been given, whether or not it is made from within a notification; then, too,
 the user being notified stays where it is, and nobody joins the list behind it.

 The same is then said of the cache as a whole, which is what methods need.
 */
module LlcacheCalls {
  import opened Common
  import opened LlcacheState

  lemma NumberedOn(os: Objects, us: Users, hs: Handles, next: nat, os': Objects, us': Users, hs': Handles)
    requires Numbered(os, us, hs, next)
    requires os'.Keys <= os.Keys && us'.Keys <= us.Keys && hs'.Keys <= hs.Keys
    ensures Numbered(os', us', hs', next)
  {
    assert forall o :: o in os' ==> o in os.Keys;
    assert forall u :: u in us' ==> u in us.Keys;
    assert forall h :: h in hs' ==> h in hs.Keys;
  }

  // ----- release -----

  /** The user of a released handle goes, handle and all, or is queued to go if it is being notified. */
  ghost predicate Released(os: Objects, us: Users, hs: Handles, os': Objects, us': Users, hs': Handles, h: HandleId) {
    && h in hs && hs[h].object_ in os && hs[h].user in us
    && var o, u := hs[h].object_, hs[h].user;
       if us[u].target then os' == os && hs' == hs && us' == us[u := us[u].(queued := true)]
       else os' == os[o := WithUsers(os[o], Without(os[o].users, u))] && us' == us - {u} && hs' == hs - {h}
  }

  lemma UserQueued(os: Objects, us: Users, hs: Handles, cached: seq<ObjectId>, uncached: seq<ObjectId>, rules: Rules,
                   t: Option<UserId>, u: UserId)
    requires Inv(os, us, hs, cached, uncached, rules, t) && u in us && us[u].target
    ensures Inv(os, us[u := us[u].(queued := true)], hs, cached, uncached, rules, t)
  {
    hide Counted;
    hide Delivered;
    hide ObjectsOk;
    hide Listed;
    hide Linked;
    hide Placed;
    assert Marked(us, t);
    assert Marked(us[u := us[u].(queued := true)], t);
    hide Marked;
    UserMarked(os, us, hs, cached, uncached, rules, t, u, us[u].(queued := true), t);
  }

  /** Another list of users leaves an object as it is for those on it. */
  lemma WithUsersKept(o: Object, users: seq<UserId>)
    ensures ObjectKept(o, WithUsers(o, users)) && WithUsers(o, users).users == users && ObjectKept(o, o)
  {
  }

  lemma HandlelessNoFurther(hs: Handles, h: Option<HandleId>, o: ObjectId)
    ensures NoFurther(hs, Handleless(hs, h), o)
  {
  }

  lemma DropKeepsTarget(os: Objects, us: Users, hs: Handles, next: nat, t: UserId, o: ObjectId, u: UserId, h: Option<HandleId>)
    requires o in os && u in os[o].users && NoDup(os[o].users) && t != u
    ensures TargetKept(os, us, hs, next, os[o := WithUsers(os[o], Without(os[o].users, u))], us - {u}, Handleless(hs, h), t)
  {
    hide NoDup;
    hide Without;
    hide After;
    hide ObjectKept;
    hide WithUsers;
    hide NoFurther;
    AfterWithout(os[o].users, u, t);
    WithUsersKept(os[o], Without(os[o].users, u));
    if u != t && t in us && us[t].of.Some? && us[t].of.value in os {
      WithUsersKept(os[us[t].of.value], []);
      HandlelessNoFurther(hs, h, us[t].of.value);
    }
  }

  lemma FollowedWithUsers(os: Objects, next: nat, o: ObjectId, users: seq<UserId>)
    requires o in os && forall x :: x in users ==> x in os[o].users || x >= next
    ensures Followed(os, next, os[o := WithUsers(os[o], users)])
  {
  }

  lemma DropKept(os: Objects, us: Users, hs: Handles, next: nat, t: Option<UserId>, o: ObjectId, u: UserId)
    requires o in os && u in us && u in os[o].users && NoDup(os[o].users) && t != Some(u)
    ensures Kept(os, us, hs, next, os[o := WithUsers(os[o], Without(os[o].users, u))], us - {u},
                 Handleless(hs, us[u].handle), next, t)
  {
    hide NoDup;
    hide Without;
    hide TargetKept;
    hide Followed;
    if t.Some? {
      DropKeepsTarget(os, us, hs, next, t.value, o, u, us[u].handle);
    }
    FollowedWithUsers(os, next, o, Without(os[o].users, u));
  }

  lemma QueueKept(os: Objects, us: Users, hs: Handles, next: nat, t: Option<UserId>, u: UserId)
    requires u in us
    ensures Kept(os, us, hs, next, os, us[u := us[u].(queued := true)], hs, next, t)
  {
    hide After;
  }

  lemma TargetMarked(os: Objects, us: Users, hs: Handles, cached: seq<ObjectId>, uncached: seq<ObjectId>, rules: Rules,
                     t: Option<UserId>)
    requires Inv(os, us, hs, cached, uncached, rules, t)
    ensures t.Some? ==> t.value in us && us[t.value].target
  {
    hide Linked;
    hide Placed;
    hide Delivered;
    hide ObjectsOk;
    hide Counted;
    hide Listed;
  }

  lemma ReleaseKeeps(os: Objects, us: Users, hs: Handles, next: nat, cached: seq<ObjectId>, uncached: seq<ObjectId>,
                     rules: Rules, t: Option<UserId>, os': Objects, us': Users, hs': Handles, h: HandleId)
    requires Inv(os, us, hs, cached, uncached, rules, t) && Numbered(os, us, hs, next) && h in hs
    requires Released(os, us, hs, os', us', hs', h)
    ensures Inv(os', us', hs', cached, uncached, rules, t) && Numbered(os', us', hs', next)
    ensures Kept(os, us, hs, next, os', us', hs', next, t)
  {
    HandleKnown(os, us, hs, cached, uncached, rules, t, h);
    TargetMarked(os, us, hs, cached, uncached, rules, t);
    hide Inv;
    hide Kept;
    hide Numbered;
    hide NoDup;
    hide DeliveredTo;
    hide ObjectOk;
    hide Without;
    var o, u := hs[h].object_, hs[h].user;
    NumberedOn(os, us, hs, next, os', us', hs');
    if us[u].target {
      UserQueued(os, us, hs, cached, uncached, rules, t, u);
      QueueKept(os, us, hs, next, t, u);
    } else {
      UserDropped(os, us, hs, cached, uncached, rules, t, o, u);
      DropKept(os, us, hs, next, t, o, u);
    }
  }

  // ----- clone and retrieve -----

  /** A new client joins an object, in the given state and owed the source from the first byte. */
  ghost predicate Joined(os: Objects, us: Users, hs: Handles, next: nat, os': Objects, us': Users, hs': Handles, next': nat,
                         o: ObjectId, state: FetchState, past: Standing, h: HandleId)
  {
    && o in os && h == next && next' == next + 1
    && os' == os[o := WithUsers(os[o], [next] + os[o].users)]
    && us' == us[next := User(Some(o), Some(next), false, false)]
    && hs' == hs[next := NewHandle(o, next, state, past)]
  }

  /** Somebody on the object has got as far as a state. */
  ghost predicate Attained(hs: Handles, o: ObjectId, state: FetchState) {
    state == Init || exists h :: h in hs && hs[h].object_ == o && hs[h].state == state
  }

  lemma JoinGoesNoFurther(hs: Handles, h: HandleId, o: ObjectId, u: UserId, state: FetchState, past: Standing)
    requires Attained(hs, o, state)
    ensures NoFurther(hs, hs[h := NewHandle(o, u, state, past)], o)
  {
  }

  lemma JoinKeepsTarget(os: Objects, us: Users, hs: Handles, next: nat, t: UserId, o: ObjectId, state: FetchState, past: Standing)
    requires o in os && t < next && Attained(hs, o, state)
    ensures TargetKept(os, us, hs, next, os[o := WithUsers(os[o], [next] + os[o].users)],
                       us[next := User(Some(o), Some(next), false, false)], hs[next := NewHandle(o, next, state, past)], t)
  {
    hide After;
    AfterHead(os[o].users, next, t);
    JoinGoesNoFurther(hs, next, o, next, state, past);
  }

  lemma JoinNumbered(os: Objects, us: Users, hs: Handles, next: nat, os': Objects, us': Users, hs': Handles, next': nat,
                     o: ObjectId, state: FetchState, past: Standing, h: HandleId)
    requires Numbered(os, us, hs, next) && Joined(os, us, hs, next, os', us', hs', next', o, state, past, h)
    ensures Numbered(os', us', hs', next') && next !in us && next !in hs
  {
  }

  lemma JoinKept(os: Objects, us: Users, hs: Handles, next: nat, t: Option<UserId>, os': Objects, us': Users, hs': Handles,
                 next': nat, o: ObjectId, state: FetchState, past: Standing, h: HandleId)
    requires Joined(os, us, hs, next, os', us', hs', next', o, state, past, h) && next !in us && next !in hs
    requires t.Some? ==> TargetKept(os, us, hs, next, os', us', hs', t.value)
    ensures Kept(os, us, hs, next, os', us', hs', next', t)
  {
    hide TargetKept;
    hide WithUsers;
    hide Followed;
    FollowedWithUsers(os, next, o, [next] + os[o].users);
  }

  lemma JoinKeeps(os: Objects, us: Users, hs: Handles, next: nat, cached: seq<ObjectId>, uncached: seq<ObjectId>, rules: Rules,
                  t: Option<UserId>, os': Objects, us': Users, hs': Handles, next': nat,
                  o: ObjectId, state: FetchState, past: Standing, h: HandleId)
    requires Inv(os, us, hs, cached, uncached, rules, t) && Numbered(os, us, hs, next)
    requires Joined(os, us, hs, next, os', us', hs', next', o, state, past, h)
    requires DeliveredTo(NewHandle(o, next, state, past), os[o]) && (Single(rules) ==> past == Steady)
    requires os[o].users != [] || (os[o].onDisc ==> os[o].hasData)
    requires Attained(hs, o, state)
    ensures Inv(os', us', hs', cached, uncached, rules, t) && Numbered(os', us', hs', next')
    ensures Kept(os, us, hs, next, os', us', hs', next', t)
  {
    hide Inv;
    hide Numbered;
    hide DeliveredTo;
    hide TargetKept;
    hide Kept;
    hide WithUsers;
    hide Attained;
    TargetMarked(os, us, hs, cached, uncached, rules, t);
    JoinNumbered(os, us, hs, next, os', us', hs', next', o, state, past, h);
    UserAttached(os, us, hs, cached, uncached, rules, t, o, next, next, NewHandle(o, next, state, past));
    if t.Some? {
      UserIsNumbered(os, us, hs, next, t.value);
      JoinKeepsTarget(os, us, hs, next, t.value, o, state, past);
    }
    JoinKept(os, us, hs, next, t, os', us', hs', next', o, state, past, h);
  }

  lemma UserIsNumbered(os: Objects, us: Users, hs: Handles, next: nat, u: UserId)
    requires Numbered(os, us, hs, next) && u in us
    ensures u < next
  {
  }

  // ----- abort -----

  /** Nothing more will be fetched, and what was fetched will not be used again. */
  function Stopped(o: Object): Object {
    o.(state := Complete, fetching := false, answered := true, reqTime := 0, expiry := 0, noCache := Fresh)
  }

  /** A copy of what the object holds, finished, uncacheable and nobody's candidate. */
  function Snapshot(o: Object): Object {
    Object(o.url, o.source, o.source != [], false, false, [], Complete, false, None, 0, o.certs, 0, 0, Fresh, 0, 0,
           false, false, false, 0, true)
  }

  ghost predicate AbortedAlone(os: Objects, us: Users, hs: Handles, os': Objects, us': Users, hs': Handles, h: HandleId) {
    && h in hs && hs[h].object_ in os && os[hs[h].object_].users == [hs[h].user]
    && os' == os[hs[h].object_ := Stopped(os[hs[h].object_])] && us' == us && hs' == hs
  }

  function WithStopped(os: Objects, o: ObjectId): Objects {
    if o in os then os[o := Stopped(os[o])] else os
  }

  lemma StopKeeps(os: Objects, us: Users, hs: Handles, next: nat, cached: seq<ObjectId>, uncached: seq<ObjectId>, rules: Rules,
                  t: Option<UserId>, o: ObjectId)
    requires Inv(os, us, hs, cached, uncached, rules, t) && o in os
    ensures Inv(WithStopped(os, o), us, hs, cached, uncached, rules, t)
    ensures Numbered(os, us, hs, next) ==> Numbered(WithStopped(os, o), us, hs, next)
    ensures Kept(os, us, hs, next, WithStopped(os, o), us, hs, next, t)
  {
    hide Inv;
    hide Kept;
    hide ObjectOk;
    hide DeliveredTo;
    hide Numbered;
    hide Tame;
    hide Stopped;
    ObjectKnown(os, us, hs, cached, uncached, rules, t, o);
    AllStopHarmless(os, hs, o);
    ObjectStopped(os[o], rules);
    StopKept(os, us, hs, next, t, o);
    StoppedIsTame(os[o]);
    ObjectChanged(os, us, hs, cached, uncached, rules, t, o, Stopped(os[o]));
    if Numbered(os, us, hs, next) {
      NumberedOn(os, us, hs, next, os[o := Stopped(os[o])], us, hs);
    }
  }

  lemma AllStopHarmless(os: Objects, hs: Handles, o: ObjectId)
    requires o in os && forall h :: h in hs && hs[h].object_ == o ==> DeliveredTo(hs[h], os[o])
    ensures forall h :: h in hs && hs[h].object_ == o ==> DeliveredTo(hs[h], Stopped(os[o]))
  {
    hide Stopped;
    hide DeliveredTo;
    forall h | h in hs && hs[h].object_ == o ensures DeliveredTo(hs[h], Stopped(os[o])) {
      StopIsHarmless(hs[h], os[o]);
    }
  }

  lemma StoppedIsTame(o: Object)
    ensures Tame(o, Stopped(o))
  {
  }

  lemma ObjectStopped(o: Object, rules: Rules)
    requires ObjectOk(o, rules)
    ensures ObjectOk(Stopped(o), rules)
  {
  }

  lemma StopIsHarmless(h: Handle, o: Object)
    requires DeliveredTo(h, o)
    ensures DeliveredTo(h, Stopped(o))
  {
    hide Sound;
  }

  lemma StopKept(os: Objects, us: Users, hs: Handles, next: nat, t: Option<UserId>, o: ObjectId)
    requires o in os
    ensures Kept(os, us, hs, next, os[o := Stopped(os[o])], us, hs, next, t)
  {
    hide After;
    hide NoFurther;
    if t.Some? && t.value in us && us[t.value].of.Some? {
      NoFurtherItself(hs, us[t.value].of.value);
    }
  }

  /** A shared object is left to its other clients; the one that aborts takes a snapshot of it away. */
  ghost predicate AbortedShared(os: Objects, us: Users, hs: Handles, next: nat, os': Objects, us': Users, hs': Handles, next': nat,
                                h: HandleId)
  {
    && h in hs && hs[h].object_ in os && hs[h].user in us && next !in os && next' == next + 1
    && var o, u := hs[h].object_, hs[h].user;
       var more := os[next := Snapshot(os[o])];
       if us[u].target then
         && os' == more[next := WithUsers(more[next], [next] + more[next].users)]
         && us' == CarriedUsers(us, u, next, h, next) && hs' == CarriedHandles(hs, next, h, next)
       else
         && os' == Moved(more, o, u, next)
         && us' == us[u := us[u].(of := Some(next))] && hs' == hs[h := hs[h].(object_ := next)]
  }

  lemma SnapshotIsOk(h: Handle, o: Object, rules: Rules)
    requires DeliveredTo(h, o)
    ensures ObjectOk(Snapshot(o), rules) && Snapshot(o).users == [] && !Snapshot(o).cached && Snapshot(o).candidate == None
    ensures forall n: ObjectId, v: UserId :: DeliveredTo(h.(object_ := n, user := v), Snapshot(o))
    ensures forall n: ObjectId :: DeliveredTo(h.(object_ := n), Snapshot(o))
  {
    hide InOrder;
    forall n: ObjectId, v: UserId ensures DeliveredTo(h.(object_ := n, user := v), Snapshot(o)) {
      SnapshotHasIt(h, h.(object_ := n, user := v), o);
    }
    forall n: ObjectId ensures DeliveredTo(h.(object_ := n), Snapshot(o)) {
      SnapshotHasIt(h, h.(object_ := n), o);
    }
  }

  lemma SnapshotHasIt(h: Handle, now: Handle, o: Object)
    requires DeliveredTo(h, o) && SameProgress(h, now)
    ensures DeliveredTo(now, Snapshot(o))
  {
    hide InOrder;
  }

  lemma SnapshotAdded(os: Objects, us: Users, hs: Handles, cached: seq<ObjectId>, uncached: seq<ObjectId>, rules: Rules,
                      t: Option<UserId>, o: ObjectId, n: ObjectId, h: HandleId)
    requires Inv(os, us, hs, cached, uncached, rules, t) && o in os && (forall x :: x in os ==> x < n) && h in hs && hs[h].object_ == o
    ensures Inv(os[n := Snapshot(os[o])], us, hs, cached, [n] + uncached, rules, t)
    ensures forall v: UserId :: DeliveredTo(hs[h].(object_ := n, user := v), Snapshot(os[o]))
    ensures DeliveredTo(hs[h].(object_ := n), Snapshot(os[o]))
  {
    hide Linked;
    hide Delivered;
    hide ObjectsOk;
    hide Counted;
    hide Placed;
    hide Marked;
    hide Listed;
    hide ObjectOk;
    hide DeliveredTo;
    hide Snapshot;
    ObjectKnown(os, us, hs, cached, uncached, rules, t, o);
    SnapshotIsOk(hs[h], os[o], rules);
    CandidatesAdded(os, n, Snapshot(os[o]));
    ObjectAdded(os, us, hs, cached, uncached, rules, t, n, Snapshot(os[o]));
  }

  lemma CarriedNoFurther(hs: Handles, h: HandleId, next: nat, o: ObjectId)
    requires h in hs && o != next
    ensures NoFurther(hs, CarriedHandles(hs, next, h, next), o) && NoFurther(hs, hs[h := hs[h].(object_ := next)], o)
  {
  }

  lemma AbortKeepsTarget(os: Objects, us: Users, hs: Handles, next: nat, os': Objects, us': Users, hs': Handles, next': nat,
                         h: HandleId, t: UserId, rules: Rules)
    requires Known(os, us, hs, rules, Some(t), h) && AbortedShared(os, us, hs, next, os', us', hs', next', h)
    requires Numbered(os, us, hs, next) && t in us && us[t].target
    ensures TargetKept(os, us, hs, next, os', us', hs', t)
  {
    hide Numbered;
    hide NoDup;
    hide DeliveredTo;
    hide ObjectOk;
    hide Without;
    hide After;
    hide Snapshot;
    hide ObjectKept;
    hide NoFurther;
    hide WithUsers;
    var o, u := hs[h].object_, hs[h].user;
    FreshKey(os, us, hs, next);
    OnlyUsersChange(os[o]);
    WithUsersKept(os[o], Without(os[o].users, u));
    if us[t].of.Some? && us[t].of.value in os {
      WithUsersKept(os[us[t].of.value], []);
      CarriedNoFurther(hs, h, next, us[t].of.value);
    }
    if u != t {
      AfterWithout(os[o].users, u, t);
    }
  }

  lemma AbortKept(os: Objects, us: Users, hs: Handles, next: nat, os': Objects, us': Users, hs': Handles, next': nat,
                  h: HandleId, t: Option<UserId>)
    requires AbortedShared(os, us, hs, next, os', us', hs', next', h) && next !in us
    requires us[hs[h].user].target ==> t == Some(hs[h].user)
    requires t.Some? ==> TargetKept(os, us, hs, next, os', us', hs', t.value)
    ensures Kept(os, us, hs, next, os', us', hs', next', t)
  {
    hide TargetKept;
    hide Moved;
    hide WithUsers;
    hide Snapshot;
    hide Followed;
    AbortFollowed(os, us, hs, next, os', us', hs', next', h);
  }

  lemma AbortFollowed(os: Objects, us: Users, hs: Handles, next: nat, os': Objects, us': Users, hs': Handles, next': nat, h: HandleId)
    requires AbortedShared(os, us, hs, next, os', us', hs', next', h)
    ensures Followed(os, next, os')
  {
    hide Without;
  }

  lemma AbortNumbered(os: Objects, us: Users, hs: Handles, next: nat, os': Objects, us': Users, hs': Handles, next': nat, h: HandleId)
    requires AbortedShared(os, us, hs, next, os', us', hs', next', h) && Numbered(os, us, hs, next)
    ensures Numbered(os', us', hs', next')
  {
    hide WithUsers;
    hide Snapshot;
    hide Without;
  }

  lemma AbortKeeps(os: Objects, us: Users, hs: Handles, next: nat, cached: seq<ObjectId>, uncached: seq<ObjectId>, rules: Rules,
                   t: Option<UserId>, os': Objects, us': Users, hs': Handles, next': nat, h: HandleId)
    requires Inv(os, us, hs, cached, uncached, rules, t) && Numbered(os, us, hs, next)
    requires AbortedShared(os, us, hs, next, os', us', hs', next', h)
    ensures Inv(os', us', hs', cached, [next] + uncached, rules, t) && Numbered(os', us', hs', next')
    ensures Kept(os, us, hs, next, os', us', hs', next', t)
  {
    HandleKnown(os, us, hs, cached, uncached, rules, t, h);
    TargetMarked(os, us, hs, cached, uncached, rules, t);
    hide Inv;
    hide Kept;
    hide TargetKept;
    hide NoDup;
    hide DeliveredTo;
    hide ObjectOk;
    hide Without;
    AbortNumbered(os, us, hs, next, os', us', hs', next', h);
    if t.Some? {
      AbortKeepsTarget(os, us, hs, next, os', us', hs', next', h, t.value, rules);
    }
    assert next !in us by { FreshKey(os, us, hs, next); }
    assert forall x :: x in os ==> x < next;
    hide Numbered;
    AbortKept(os, us, hs, next, os', us', hs', next', h, t);
    var o, u := hs[h].object_, hs[h].user;
    SnapshotAdded(os, us, hs, cached, uncached, rules, t, o, next, h);
    var more := os[next := Snapshot(os[o])];
    if us[u].target {
      HandleCarried(more, us, hs, cached, [next] + uncached, rules, u, next, h, next);
    } else {
      UserMoved(more, us, hs, cached, [next] + uncached, rules, t, o, u, h, next, hs[h].(object_ := next));
    }
  }

  lemma FreshKey(os: Objects, us: Users, hs: Handles, next: nat)
    requires Numbered(os, us, hs, next)
    ensures next !in os && next !in us && next !in hs
  {
  }

  // ----- retrieving an object -----

  /** The object of the user being notified, if one is, with its list as it was. */
  ghost predicate TargetsObjectKept(os: Objects, us: Users, os': Objects, t: Option<UserId>) {
    t.Some? && t.value in us && us[t.value].of.Some? && us[t.value].of.value in os ==>
      var o := us[t.value].of.value;
      o in os' && ObjectKept(os[o], os'[o]) && os'[o].users == os[o].users
  }

  lemma ObjectsKept(os: Objects, us: Users, hs: Handles, next: nat, os': Objects, next': nat, t: Option<UserId>)
    requires TargetsObjectKept(os, us, os', t) && next <= next' && Followed(os, next, os')
    ensures Kept(os, us, hs, next, os', us, hs, next', t)
  {
    hide After;
    hide ObjectKept;
    hide NoFurther;
    if t.Some? && t.value in us && us[t.value].of.Some? {
      NoFurtherItself(hs, us[t.value].of.value);
    }
  }

  /** An object without users is not the one whose user is being notified. */
  lemma UnusedIsNotTheTargets(os: Objects, us: Users, hs: Handles, t: Option<UserId>, x: ObjectId)
    requires AttachedAreListed(os, us) && x in os && os[x].users == []
    ensures t.Some? && t.value in us && us[t.value].of.Some? ==> us[t.value].of.value != x
  {
  }

  /** Whether what is cached may be handed out without asking the server. */
  predicate IsFresh(o: Object, now: int) {
    o.noCache == Fresh && (o.expiry - now > 0 || o.state != Complete)
  }

  lemma DataRetrieved(os: Objects, us: Users, hs: Handles, next: nat, cached: seq<ObjectId>, uncached: seq<ObjectId>,
                      rules: Rules, t: Option<UserId>, x: ObjectId, data: seq<Byte>)
    requires Inv(os, us, hs, cached, uncached, rules, t) && Numbered(os, us, hs, next) && x in os
    requires os[x].onDisc && !os[x].hasData
    ensures var os' := os[x := os[x].(source := data, hasData := true)];
            && Inv(os', us, hs, cached, uncached, rules, t) && Numbered(os', us, hs, next)
            && Kept(os, us, hs, next, os', us, hs, next, t)
  {
    hide Counted;
    hide Listed;
    hide Delivered;
    hide ObjectsOk;
    hide Placed;
    hide Marked;
    hide NoRepeats;
    hide ListsAttach;
    hide AttachedAreListed;
    hide HandlesNamed;
    hide UsersNamed;
    var now := os[x].(source := data, hasData := true);
    ObjectKnown(os, us, hs, cached, uncached, rules, t, x);
    assert ObjectOk(now, rules);
    UnusedIsNotTheTargets(os, us, hs, t, x);
    ObjectsKept(os, us, hs, next, os[x := now], next, t);
    hide ObjectOk;
    hide DeliveredTo;
    hide Kept;
    ObjectChanged(os, us, hs, cached, uncached, rules, t, x, now);
  }

  lemma ObjectDiscarded(os: Objects, us: Users, hs: Handles, next: nat, cached: seq<ObjectId>, uncached: seq<ObjectId>,
                        rules: Rules, t: Option<UserId>, x: ObjectId)
    requires Inv(os, us, hs, cached, uncached, rules, t) && Numbered(os, us, hs, next) && x in os
    requires os[x].users == [] && os[x].candidateCount == 0
    ensures Inv(os - {x}, us, hs, if os[x].cached then Without(cached, x) else cached,
                if os[x].cached then uncached else Without(uncached, x), rules, t)
    ensures Numbered(os - {x}, us, hs, next) && Kept(os, us, hs, next, os - {x}, us, hs, next, t)
  {
    hide Counted;
    hide Listed;
    hide Delivered;
    hide ObjectsOk;
    hide Placed;
    hide Marked;
    hide NoRepeats;
    hide ListsAttach;
    hide AttachedAreListed;
    hide HandlesNamed;
    hide UsersNamed;
    UnusedIsNotTheTargets(os, us, hs, t, x);
    ObjectsKept(os, us, hs, next, os - {x}, next, t);
    hide Kept;
    ObjectRemoved(os, us, hs, cached, uncached, rules, t, x);
  }

  lemma ObjectPublished(os: Objects, us: Users, hs: Handles, next: nat, cached: seq<ObjectId>, uncached: seq<ObjectId>,
                        rules: Rules, t: Option<UserId>, obj: Object)
    requires Inv(os, us, hs, cached, uncached, rules, t) && Numbered(os, us, hs, next)
    requires obj.users == [] && ObjectOk(obj, rules)
    requires obj.candidate.Some? ==>
      var c := obj.candidate.value; c in os && os[c].cached && |Referrers(os, c)| < os[c].candidateCount
    ensures Inv(os[next := obj], us, hs, Consed(obj.cached, next, cached), Consed(!obj.cached, next, uncached), rules, t)
    ensures next !in os && Numbered(os[next := obj], us, hs, next + 1)
    ensures Kept(os, us, hs, next, os[next := obj], us, hs, next + 1, t)
  {
    hide Listed;
    hide Delivered;
    hide ObjectsOk;
    hide Placed;
    hide Marked;
    hide Linked;
    hide Counted;
    hide ObjectOk;
    FreshKey(os, us, hs, next);
    assert Numbered(os[next := obj], us, hs, next + 1);
    hide Numbered;
    ObjectsKept(os, us, hs, next, os[next := obj], next + 1, t);
    hide Kept;
    if obj.candidate.Some? {
      CandidateNamed(os, next, obj, obj.candidate.value);
    } else {
      CandidatesAdded(os, next, obj);
    }
    ObjectAdded(os, us, hs, cached, uncached, rules, t, next, obj);
  }

  /** A candidate is counted once more before the object that names it is made. */
  lemma CountRaised(os: Objects, us: Users, hs: Handles, next: nat, cached: seq<ObjectId>, uncached: seq<ObjectId>,
                    rules: Rules, t: Option<UserId>, c: ObjectId)
    requires Inv(os, us, hs, cached, uncached, rules, t) && Numbered(os, us, hs, next) && c in os
    requires os[c].cached && (os[c].onDisc ==> os[c].hasData)
    ensures var os' := os[c := Recounted(os[c], os[c].candidateCount + 1)];
            && Inv(os', us, hs, cached, uncached, rules, t) && Numbered(os', us, hs, next)
            && |Referrers(os', c)| < os'[c].candidateCount
            && Kept(os, us, hs, next, os', us, hs, next, t)
  {
    hide Listed;
    hide Delivered;
    hide ObjectsOk;
    hide Placed;
    hide Marked;
    hide Linked;
    hide Counted;
    ObjectKnown(os, us, hs, cached, uncached, rules, t, c);
    RaisingIsHarmless(os, hs, rules, c);
    hide ObjectOk;
    hide DeliveredTo;
    var now := Recounted(os[c], os[c].candidateCount + 1);
    ObjectsKept(os, us, hs, next, os[c := now], next, t);
    hide Kept;
    CountChanged(os, c, os[c].candidateCount + 1);
    CountsChanged(os, us, hs, cached, uncached, rules, t, c, now);
  }

  lemma RaisingIsHarmless(os: Objects, hs: Handles, rules: Rules, c: ObjectId)
    requires c in os && ObjectOk(os[c], rules) && os[c].cached && (os[c].onDisc ==> os[c].hasData)
    requires forall h :: h in hs && hs[h].object_ == c ==> DeliveredTo(hs[h], os[c])
    ensures var now := Recounted(os[c], os[c].candidateCount + 1);
            && ObjectOk(now, rules)
            && (forall h :: h in hs && hs[h].object_ == c ==> DeliveredTo(hs[h], now))
            && Referrers(os[c := now], c) == Referrers(os, c)
  {
  }

  // ----- the same, of the cache as a whole -----

  datatype Cache = Cache(
    os: Objects,
    us: Users,
    hs: Handles,
    cached: seq<ObjectId>,
    uncached: seq<ObjectId>,
    next: nat)

  /** The cache between calls; `t` is the user being notified, if one is. */
  ghost predicate Sane(c: Cache, rules: Rules, t: Option<UserId>) {
    Inv(c.os, c.us, c.hs, c.cached, c.uncached, rules, t) && Numbered(c.os, c.us, c.hs, c.next)
  }

  /** What every client call keeps: what clients have been given, and the user being notified. */
  ghost predicate Keeps(a: Cache, b: Cache, t: Option<UserId>) {
    Kept(a.os, a.us, a.hs, a.next, b.os, b.us, b.hs, b.next, t)
  }

  lemma KeepsOn(a: Cache, b: Cache, c: Cache, rules: Rules, t: Option<UserId>)
    requires Sane(a, rules, t) && Sane(b, rules, t) && Keeps(a, b, t) && Keeps(b, c, t)
    ensures Keeps(a, c, t)
  {
    if t.Some? {
      ListsAreNumbered(a, rules, t, t.value);
    }
    hide ListNumbered;
    hide Inv;
    hide Kept;
    hide Numbered;
    KeptOn(a.os, a.us, a.hs, a.next, b.os, b.us, b.hs, b.next, c.os, c.us, c.hs, c.next, t);
  }

  lemma ListsAreNumbered(a: Cache, rules: Rules, t: Option<UserId>, u: UserId)
    requires Sane(a, rules, t)
    ensures ListNumbered(a.os, a.us, a.next, u)
  {
    hide Placed;
    hide Marked;
    hide Delivered;
    hide ObjectsOk;
    hide Counted;
    hide Listed;
    hide HandlesNamed;
    hide UsersNamed;
    hide NoRepeats;
    hide AttachedAreListed;
    forall o, x | o in a.os && x in a.os[o].users ensures x < a.next {
      assert x in a.us;
    }
  }

  lemma KeepsItself(a: Cache, t: Option<UserId>)
    ensures Keeps(a, a, t)
  {
    ObjectsKept(a.os, a.us, a.hs, a.next, a.os, a.next, t);
    hide Kept;
  }

  ghost predicate KnownIn(c: Cache, rules: Rules, t: Option<UserId>, h: HandleId) {
    Known(c.os, c.us, c.hs, rules, t, h)
  }

  lemma SaneHandle(c: Cache, rules: Rules, t: Option<UserId>, h: HandleId)
    requires Sane(c, rules, t) && h in c.hs
    ensures KnownIn(c, rules, t, h) && c.next !in c.os && c.next !in c.us && c.next !in c.hs
  {
    hide Inv;
    hide Known;
    HandleKnown(c.os, c.us, c.hs, c.cached, c.uncached, rules, t, h);
  }

  ghost predicate Releases(a: Cache, b: Cache, h: HandleId) {
    Released(a.os, a.us, a.hs, b.os, b.us, b.hs, h) && b.cached == a.cached && b.uncached == a.uncached && b.next == a.next
  }

  lemma ReleasesKeeps(a: Cache, b: Cache, rules: Rules, t: Option<UserId>, h: HandleId)
    requires Sane(a, rules, t) && h in a.hs && Releases(a, b, h)
    ensures Sane(b, rules, t) && Keeps(a, b, t)
  {
    hide Inv;
    hide Kept;
    hide Numbered;
    hide Released;
    ReleaseKeeps(a.os, a.us, a.hs, a.next, a.cached, a.uncached, rules, t, b.os, b.us, b.hs, h);
  }

  ghost predicate Joins(a: Cache, b: Cache, o: ObjectId, state: FetchState, past: Standing, h: HandleId) {
    Joined(a.os, a.us, a.hs, a.next, b.os, b.us, b.hs, b.next, o, state, past, h) && b.cached == a.cached && b.uncached == a.uncached
  }

  /** A clone has been given no data, so none of another object's. */
  function ClonePast(p: Standing): Standing {
    if p == Steady then Steady else Warned
  }

  /** A clone is in the state of its original, but is owed all of the source. */
  ghost predicate Clones(a: Cache, b: Cache, h: HandleId, r: HandleId) {
    h in a.hs && Joins(a, b, a.hs[h].object_, a.hs[h].state, ClonePast(a.hs[h].past), r)
  }

  lemma ClonesKeeps(a: Cache, b: Cache, rules: Rules, t: Option<UserId>, h: HandleId, r: HandleId)
    requires Sane(a, rules, t) && Clones(a, b, h, r)
    ensures Sane(b, rules, t) && Keeps(a, b, t)
  {
    hide Inv;
    hide Kept;
    hide Numbered;
    hide Joined;
    hide ObjectOk;
    hide NoDup;
    hide DeliveredTo;
    hide ClonePast;
    HandleKnown(a.os, a.us, a.hs, a.cached, a.uncached, rules, t, h);
    var o, state, past := a.hs[h].object_, a.hs[h].state, ClonePast(a.hs[h].past);
    assert Attained(a.hs, o, state);
    CloneDelivered(a.hs[h], a.os[o], a.next);
    if Single(rules) {
      CloneIsSteadfast(a, rules, t, h);
    }
    assert a.os[o].users != [];
    JoinKeeps(a.os, a.us, a.hs, a.next, a.cached, a.uncached, rules, t, b.os, b.us, b.hs, b.next, o, state, past, r);
  }

  lemma CloneIsSteadfast(a: Cache, rules: Rules, t: Option<UserId>, h: HandleId)
    requires Sane(a, rules, t) && h in a.hs && Single(rules)
    ensures ClonePast(a.hs[h].past) == Steady && a.hs[h].past == Steady
  {
    hide Linked;
    hide Placed;
    hide Marked;
    hide Delivered;
    hide ObjectsOk;
    hide Counted;
    hide Listed;
    hide Numbered;
  }

  lemma CloneDelivered(h: Handle, o: Object, user: UserId)
    requires DeliveredTo(h, o)
    ensures DeliveredTo(NewHandle(h.object_, user, h.state, ClonePast(h.past)), o)
  {
    CloneIsSound(h.object_, user, h.state, ClonePast(h.past), o.source);
  }

  ghost predicate Aborts(a: Cache, b: Cache, h: HandleId) {
    && h in a.hs && a.hs[h].object_ in a.os
    && if |a.os[a.hs[h].object_].users| > 1
       then AbortedShared(a.os, a.us, a.hs, a.next, b.os, b.us, b.hs, b.next, h) && b.cached == a.cached && b.uncached == [a.next] + a.uncached
       else AbortedAlone(a.os, a.us, a.hs, b.os, b.us, b.hs, h) && b.cached == a.cached && b.uncached == a.uncached && b.next == a.next
  }

  lemma AbortsKeeps(a: Cache, b: Cache, rules: Rules, t: Option<UserId>, h: HandleId)
    requires Sane(a, rules, t) && Aborts(a, b, h)
    ensures Sane(b, rules, t) && Keeps(a, b, t)
  {
    hide Inv;
    hide Kept;
    hide Numbered;
    hide AbortedShared;
    if |a.os[a.hs[h].object_].users| > 1 {
      AbortKeeps(a.os, a.us, a.hs, a.next, a.cached, a.uncached, rules, t, b.os, b.us, b.hs, b.next, h);
    } else {
      StopKeeps(a.os, a.us, a.hs, a.next, a.cached, a.uncached, rules, t, a.hs[h].object_);
    }
  }

  /**
   A client that aborts has what it had, of an object that is finished. Alone on its
   object it stays there, and the object is not fresh any more; else it has a new object
   of its own, in no list of the cache and nobody's candidate, and the others stay.
   */
  ghost predicate TakenAway(a: Cache, b: Cache, h: HandleId) {
    && h in a.hs && h in b.hs && a.hs[h].object_ in a.os && a.hs[h].object_ in b.os && b.hs[h].object_ in b.os
    && SameProgress(a.hs[h], b.hs[h])
    && var o, n := a.hs[h].object_, b.hs[h].object_;
       && b.os[n].source == a.os[o].source && b.os[n].state == Complete && !b.os[n].fetching
       && if |a.os[o].users| > 1 then
            && n !in a.os && b.os[n].users == [b.hs[h].user] && !b.os[n].cached && b.os[n].candidate == None
            && b.os[o] == WithUsers(a.os[o], b.os[o].users)
          else
            n == o && b.os[o].users == a.os[o].users && b.os[o].expiry == 0 && b.os[o].reqTime == 0 && b.os[o].noCache == Fresh
  }

  lemma AbortTakesAway(a: Cache, b: Cache, rules: Rules, t: Option<UserId>, h: HandleId)
    requires KnownIn(a, rules, t, h) && Aborts(a, b, h) && a.next !in a.os
    ensures TakenAway(a, b, h)
  {
    hide DeliveredTo;
    hide ObjectOk;
    hide NoDup;
    hide Without;
    hide WithUsers;
    hide Snapshot;
    hide Stopped;
    var o := a.os[a.hs[h].object_];
    StoppedMeans(o);
    SnapshotMeans(o);
    OnlyUsersChange(o);
    OnlyUsersChange(Snapshot(o));
  }

  predicate ButForUsers(o: Object, now: Object, list: seq<UserId>) {
    && now.users == list && now.source == o.source && now.state == o.state && now.fetching == o.fetching
    && now.cached == o.cached && now.candidate == o.candidate
  }

  lemma OnlyUsersChange(o: Object)
    ensures forall list: seq<UserId> {:trigger WithUsers(o, list)} :: ButForUsers(o, WithUsers(o, list), list)
    ensures WithUsers(o, o.users) == o
  {
  }

  lemma StoppedMeans(o: Object)
    ensures var now := Stopped(o);
      && now.users == o.users && now.source == o.source && now.state == Complete && !now.fetching
      && now.expiry == 0 && now.reqTime == 0 && now.noCache == Fresh
  {
  }

  lemma SnapshotMeans(o: Object)
    ensures var now := Snapshot(o);
      now.users == [] && now.source == o.source && now.state == Complete && !now.fetching && !now.cached && now.candidate == None
  {
  }

  /** An object with its source read back into memory. */
  function ReadBack(o: Object, data: seq<Byte>): Object {
    o.(source := data, hasData := true)
  }

  lemma ReadBackIs(o: Object, data: seq<Byte>)
    ensures var now := ReadBack(o, data); now == o.(source := now.source, hasData := now.hasData) && now.hasData
  {
  }

  lemma SameSource(o: Object)
    ensures o == o.(source := o.source, hasData := o.hasData)
  {
  }

  lemma ObjectItself(os: Objects, x: ObjectId)
    requires x in os
    ensures os == os[x := os[x]]
  {
  }

  ghost function WithData(a: Cache, x: ObjectId, data: seq<Byte>): Cache
    requires x in a.os
  {
    a.(os := a.os[x := ReadBack(a.os[x], data)])
  }

  lemma WithDataSane(a: Cache, rules: Rules, t: Option<UserId>, x: ObjectId, data: seq<Byte>)
    requires Sane(a, rules, t) && x in a.os && a.os[x].onDisc && !a.os[x].hasData
    ensures Sane(WithData(a, x, data), rules, t) && Keeps(a, WithData(a, x, data), t) && !Needed(a.os[x])
    ensures a.os[x].users == [] && a.os[x].candidateCount == 0
  {
    hide Inv;
    hide Numbered;
    hide Kept;
    ObjectKnown(a.os, a.us, a.hs, a.cached, a.uncached, rules, t, x);
    DataRetrieved(a.os, a.us, a.hs, a.next, a.cached, a.uncached, rules, t, x, data);
  }

  /** The object is taken off its list and destroyed. */
  ghost function Discarded(a: Cache, x: ObjectId): Cache
    requires x in a.os
  {
    a.(os := a.os - {x},
       cached := if a.os[x].cached then Without(a.cached, x) else a.cached,
       uncached := if a.os[x].cached then a.uncached else Without(a.uncached, x))
  }

  lemma DiscardedSane(a: Cache, rules: Rules, t: Option<UserId>, x: ObjectId)
    requires Sane(a, rules, t) && x in a.os && a.os[x].users == [] && a.os[x].candidateCount == 0
    ensures Sane(Discarded(a, x), rules, t) && Keeps(a, Discarded(a, x), t)
  {
    hide Inv;
    hide Numbered;
    hide Kept;
    ObjectDiscarded(a.os, a.us, a.hs, a.next, a.cached, a.uncached, rules, t, x);
  }

  /** A new object is put at the head of its list. */
  ghost function Published(a: Cache, obj: Object): Cache {
    a.(os := a.os[a.next := obj], cached := Consed(obj.cached, a.next, a.cached),
       uncached := Consed(!obj.cached, a.next, a.uncached), next := a.next + 1)
  }

  lemma PublishedSane(a: Cache, rules: Rules, t: Option<UserId>, obj: Object)
    requires Sane(a, rules, t) && obj.users == [] && ObjectOk(obj, rules)
    requires obj.candidate.Some? ==>
      var c := obj.candidate.value; c in a.os && a.os[c].cached && |Referrers(a.os, c)| < a.os[c].candidateCount
    ensures a.next !in a.os && Sane(Published(a, obj), rules, t) && Keeps(a, Published(a, obj), t)
  {
    hide Inv;
    hide Numbered;
    hide Kept;
    hide ObjectOk;
    ObjectPublished(a.os, a.us, a.hs, a.next, a.cached, a.uncached, rules, t, obj);
  }

  ghost function Counting(a: Cache, c: ObjectId, n: nat): Cache
    requires c in a.os
  {
    a.(os := a.os[c := Recounted(a.os[c], n)])
  }

  lemma RaisedSane(a: Cache, rules: Rules, t: Option<UserId>, c: ObjectId)
    requires Sane(a, rules, t) && c in a.os && a.os[c].cached && (a.os[c].onDisc ==> a.os[c].hasData)
    ensures var b := Counting(a, c, a.os[c].candidateCount + 1);
            Sane(b, rules, t) && Keeps(a, b, t) && |Referrers(b.os, c)| < b.os[c].candidateCount
  {
    hide Inv;
    hide Numbered;
    hide Kept;
    CountRaised(a.os, a.us, a.hs, a.next, a.cached, a.uncached, rules, t, c);
  }

  lemma SaneObject(a: Cache, rules: Rules, t: Option<UserId>, x: ObjectId)
    requires Sane(a, rules, t) && x in a.os
    ensures ObjectOk(a.os[x], rules) && |Referrers(a.os, x)| <= a.os[x].candidateCount
    ensures forall h :: h in a.hs && a.hs[h].object_ == x ==> DeliveredTo(a.hs[h], a.os[x])
    ensures a.os[x].users == [] ==> forall h :: h in a.hs ==> a.hs[h].object_ != x
  {
    hide Inv;
    hide Numbered;
    ObjectKnown(a.os, a.us, a.hs, a.cached, a.uncached, rules, t, x);
  }

  lemma SaneOrder(a: Cache, rules: Rules, t: Option<UserId>)
    requires Sane(a, rules, t)
    ensures forall o :: o in a.os ==> o in ListOf(a, a.os[o].cached)
    ensures forall c: bool :: NewestFirst(ListOf(a, c)) && forall o :: o in ListOf(a, c) ==> o in a.os && a.os[o].cached == c
  {
    hide NewestFirst;
    hide Linked;
    hide Placed;
    hide Marked;
    hide Delivered;
    hide ObjectsOk;
    hide Counted;
    hide NoDup;
  }

  ghost function ListOf(a: Cache, cached: bool): seq<ObjectId> {
    if cached then a.cached else a.uncached
  }

  lemma SaneLists(a: Cache, rules: Rules, t: Option<UserId>)
    requires Sane(a, rules, t)
    ensures forall o :: o in a.cached ==> o in a.os && a.os[o].cached
    ensures forall o :: o in a.uncached ==> o in a.os && !a.os[o].cached
    ensures forall o :: o in a.os && a.os[o].cached ==> o in a.cached
    ensures NoDup(a.cached) && NoDup(a.uncached)
  {
    hide NewestFirst;
    hide Linked;
    hide Placed;
    hide Marked;
    hide Delivered;
    hide ObjectsOk;
    hide Counted;
    hide NoDup;
  }

  /** The most recently requested cached object for a URL, the first in the list of several such, if there is one. */
  ghost predicate IsNewest(os: Objects, cached: seq<ObjectId>, url: int, newest: Option<ObjectId>) {
    match newest
    case Some(n) =>
      && n in os && n in cached && os[n].url == url
      && (forall o :: o in cached && o in os && os[o].url == url && o != n ==>
            os[o].reqTime < os[n].reqTime || (os[o].reqTime == os[n].reqTime && o < n))
    case None => forall o :: o in cached && o in os ==> os[o].url != url
  }

  lemma NewestIsThere(os: Objects, cached: seq<ObjectId>, url: int, n: Option<ObjectId>)
    requires IsNewest(os, cached, url, n)
    ensures n.Some? ==> n.value in os && n.value in cached && os[n.value].url == url && !IsNewest(os, cached, url, None)
  {
  }

  lemma NewestIsOne(os: Objects, cached: seq<ObjectId>, url: int, n: ObjectId, m: Option<ObjectId>)
    requires IsNewest(os, cached, url, Some(n)) && IsNewest(os, cached, url, m)
    ensures m == Some(n)
  {
  }

  lemma {:induction false} LaterIsOlder(list: seq<ObjectId>, i: nat, j: nat)
    requires NewestFirst(list) && i < j < |list|
    ensures list[j] < list[i]
  {
    if i == 0 {
      assert list[1..][j - 1] == list[j] && list[j] in list[1..];
    } else {
      LaterIsOlder(list[1..], i - 1, j - 1);
    }
  }

  /** What the newest object for a URL is good for: it is what is retrieved, if it is fresh, or what a new object falls back on. */
  ghost predicate UsesNewest(a: Objects, n: ObjectId, now: int, r: Option<ObjectId>, b: Objects) {
    n in a &&
    if a[n].noCache == Fresh && (a[n].expiry > now || a[n].state != Complete) then r == Some(n) && n in b
    else r.Some? ==> r.value !in a && r.value in b && b[r.value].candidate == Some(n) && b[r.value].fetching
  }

  /** And that is all that happens: it is counted once more, if a new object names it. */
  ghost predicate OnlyNewest(a: Objects, n: ObjectId, r: Option<ObjectId>, b: Objects) {
    n in a &&
    if r.Some? && r.value !in a then
      && r.value in b && b == a[n := a[n].(candidateCount := a[n].candidateCount + 1)][r.value := b[r.value]]
      && b[r.value].users == [] && b[r.value].source == [] && b[r.value].state == Init && b[r.value].url == a[n].url
      && b[r.value].starts == 1 && b[r.value].cached
    else b == a
  }

  /**
   What becomes of the newest object for a URL, and of the request for it. Only
   if its source has to be brought back, and cannot be, does it go, and is the URL
   fetched without a candidate.
   */
  ghost predicate Served(a: Objects, n: ObjectId, now: int, r: Option<ObjectId>, b: Objects) {
    n in a &&
    if Readable(a[n]) then UsesNewest(a, n, now, r, b) && OnlyNewest(a, n, r, b)
    else if n in b then b[n].hasData && UsesNewest(a, n, now, r, b)
    else r.Some? ==> r.value !in a && r.value in b && b[r.value].candidate == None && b[r.value].fetching
  }

  lemma ServedFresh(a: Objects, b: Objects, n: ObjectId, now: int)
    requires n in a && n in b && IsFresh(a[n], now) && (Readable(a[n]) ==> b == a) && (!Readable(a[n]) ==> b[n].hasData)
    ensures Served(a, n, now, Some(n), b)
  {
    hide IsFresh;
    hide UsesNewest;
    hide OnlyNewest;
    FreshUsed(a, b, n, now);
  }

  lemma ServedStale(a: Objects, b: Objects, n: ObjectId, now: int)
    requires n in a && n in b && !IsFresh(a[n], now) && (Readable(a[n]) ==> b == a) && (!Readable(a[n]) ==> b[n].hasData)
    ensures Served(a, n, now, None, b)
  {
    hide IsFresh;
    hide UsesNewest;
    hide OnlyNewest;
    StaleUnused(a, b, n, now);
  }

  lemma ServedAnew(a: Objects, b: Objects, c: Objects, n: ObjectId, now: int, x: ObjectId, redirects: nat, hsts: bool, rules: Rules)
    requires n in a && n in b && x !in a && x in c && !IsFresh(a[n], now)
    requires (Readable(a[n]) ==> b == a) && (!Readable(a[n]) ==> b[n].hasData)
    requires c[x] == FirstFetch(a[n].url, true, Some(n), redirects, hsts, rules, now)
    requires x != n && c == b[n := Recounted(b[n], b[n].candidateCount + 1)][x := c[x]]
    ensures Served(a, n, now, Some(x), c)
  {
    hide IsFresh;
    hide FirstFetch;
    hide UsesNewest;
    hide OnlyNewest;
    StaleUsed(a, c, n, now, x, redirects, hsts, rules);
  }

  lemma ServedWithout(a: Objects, c: Objects, n: ObjectId, now: int, r: Option<ObjectId>, url: int, redirects: nat, hsts: bool, rules: Rules)
    requires n in a && n !in c && !Readable(a[n])
    requires r.Some? ==> r.value !in a && r.value in c && c[r.value] == FirstFetch(url, true, None, redirects, hsts, rules, now)
    ensures Served(a, n, now, r, c)
  {
  }

  /** Whether an object is fresh does not depend on where its source is. */
  lemma FreshUsed(a: Objects, b: Objects, n: ObjectId, now: int)
    requires n in a && n in b && IsFresh(a[n], now)
    ensures UsesNewest(a, n, now, Some(n), b) && OnlyNewest(a, n, Some(n), a)
  {
  }

  lemma StaleUnused(a: Objects, b: Objects, n: ObjectId, now: int)
    requires n in a && !IsFresh(a[n], now)
    ensures UsesNewest(a, n, now, None, b) && OnlyNewest(a, n, None, a)
  {
  }

  lemma StaleUsed(a: Objects, c: Objects, n: ObjectId, now: int, x: ObjectId, redirects: nat, hsts: bool, rules: Rules)
    requires n in a && !IsFresh(a[n], now) && x !in a && x in c
    requires c[x] == FirstFetch(a[n].url, true, Some(n), redirects, hsts, rules, now)
    ensures UsesNewest(a, n, now, Some(x), c)
    ensures c == a[n := Recounted(a[n], a[n].candidateCount + 1)][x := c[x]] ==> OnlyNewest(a, n, Some(x), c)
  {
  }

  lemma OnlySeen(a: Cache, b: Cache, rules: Rules, t: Option<UserId>, n: ObjectId)
    requires Sane(a, rules, t) && n in a.os && Keeps(a, b, t)
    ensures n < a.next <= b.next
  {
    hide Inv;
  }

  /** A source that can be read without the backing store. */
  predicate Readable(o: Object) {
    o.hasData || !o.onDisc
  }

  /** What is retrieved and was not there: it counts the redirects that led to it. */
  ghost predicate CountsRedirects(a: Objects, r: Option<ObjectId>, b: Objects, redirects: nat, hsts: bool, rules: Rules, now: int) {
    r.Some? && r.value !in a ==>
      r.value in b && b[r.value].redirects == redirects && (b[r.value].fetching ==> Anew(b[r.value], redirects, hsts, rules, now))
  }

  lemma NewestCounts(a: Objects, mid: Objects, n: ObjectId, r: Option<ObjectId>, b: Objects, redirects: nat, hsts: bool, rules: Rules,
                     now: int)
    requires n in mid && (n !in a ==> mid[n].redirects == redirects && !mid[n].fetching)
    requires if r == Some(n) then n in b && b[n].redirects == mid[n].redirects && b[n].fetching == mid[n].fetching
             else r.Some? ==> r.value in b && Anew(b[r.value], redirects, hsts, rules, now)
    ensures CountsRedirects(a, r, b, redirects, hsts, rules, now)
  {
  }

  lemma AnewCounts(a: Objects, r: Option<ObjectId>, b: Objects, redirects: nat, hsts: bool, rules: Rules, now: int)
    requires r.Some? ==> r.value in b && Anew(b[r.value], redirects, hsts, rules, now)
    ensures CountsRedirects(a, r, b, redirects, hsts, rules, now)
  {
  }

  /** A new object, not yet fetched. */
  function NewObject(url: int, cached: bool, redirects: nat): Object {
    Object(url, [], false, false, cached, [], Init, false, None, 0, false, 0, 0, Fresh, redirects, 0, false, false, false, 0, false)
  }

  /** An object whose fetch has been started (again): what was known of its freshness is forgotten. */
  function Started(o: Object, now: int): Object {
    o.(state := Init, fetching := true, starts := o.starts + 1, reqTime := now, expiry := 0, noCache := Fresh)
  }

  /** A new object with its first fetch started. */
  function FirstFetch(url: int, cached: bool, candidate: Option<ObjectId>, redirects: nat, hsts: bool, rules: Rules, now: int): Object {
    Started(NewObject(url, cached, redirects).(candidate := candidate, retries := rules.attempts, hsts := hsts), now)
  }

  /** Fetched for the first time just now, with all attempts still to come, after so many redirects. */
  predicate Anew(o: Object, redirects: nat, hsts: bool, rules: Rules, now: int) {
    && o.fetching && o.state == Init && o.source == [] && o.starts == 1 && o.retries == rules.attempts && o.redirects == redirects
    && o.hsts == hsts && o.reqTime == now && !o.triedAuth && !o.triedTls && !o.onDisc
  }

  lemma FirstFetchIs(url: int, cached: bool, candidate: Option<ObjectId>, redirects: nat, hsts: bool, rules: Rules, now: int)
    ensures var o := FirstFetch(url, cached, candidate, redirects, hsts, rules, now);
            && o.url == url && o.cached == cached && o.candidate == candidate && o.fetching && o.state == Init && o.users == []
            && o.source == [] && o.starts == 1 && o.noCache == Fresh && !o.onDisc && Anew(o, redirects, hsts, rules, now)
  {
  }

  lemma FirstFetchOk(url: int, cached: bool, candidate: Option<ObjectId>, redirects: nat, hsts: bool, rules: Rules, now: int)
    requires redirects <= 11
    ensures ObjectOk(FirstFetch(url, cached, candidate, redirects, hsts, rules, now), rules)
  {
  }

  /** An object known from the backing store only: finished, its source not yet in memory. */
  function FromStore(url: int, redirects: nat, reqTime: int, expiry: int): Object {
    NewObject(url, true, redirects).(onDisc := true, state := Complete, answered := true, reqTime := reqTime, expiry := expiry)
  }

  /** What a retrieval gives: an object that is fresh or being fetched, and whose source can be read. */
  ghost predicate Retrieved(os: Objects, r: ObjectId, url: int, cached: bool, now: int) {
    r in os && os[r].url == url && os[r].cached == cached && (os[r].onDisc ==> os[r].hasData) && IsFresh(os[r], now)
  }

  /** An object in use, or whose source can be read without the backing store. */
  predicate Needed(o: Object) {
    InUse(o) || o.hasData || !o.onDisc
  }

  /** Objects that are needed survive, changed at most in how often they are counted as candidates. */
  ghost predicate UsedSurvive(os: Objects, os': Objects) {
    forall o :: o in os && Needed(os[o]) ==>
      o in os' && os'[o].candidateCount >= os[o].candidateCount && os'[o] == Recounted(os[o], os'[o].candidateCount)
  }

  lemma SurviveOn(a: Objects, b: Objects, c: Objects)
    requires UsedSurvive(a, b) && UsedSurvive(b, c)
    ensures UsedSurvive(a, c)
  {
  }

  lemma CountedUpSurvives(os: Objects, c: ObjectId)
    requires c in os
    ensures UsedSurvive(os, os[c := Recounted(os[c], os[c].candidateCount + 1)])
  {
    RecountedItself();
  }

  lemma CountedDownIsSame(o: Object, n: nat)
    requires n == o.candidateCount
    ensures Recounted(Recounted(o, n + 1), n) == o
  {
  }

  lemma RecountedItself()
    ensures forall o: Object :: Recounted(o, o.candidateCount) == o
  {
  }

  lemma CountedUpAndDown(os: Objects, c: ObjectId)
    requires c in os
    ensures var n := os[c].candidateCount;
            && UsedSurvive(os, os) && UsedSurvive(os, os[c := Recounted(os[c], n + 1)])
            && (var up := os[c := Recounted(os[c], n + 1)]; up[c := Recounted(up[c], n)] == os)
  {
    hide Recounted;
    hide UsedSurvive;
    SurvivesItself(os);
    CountedUpSurvives(os, c);
    CountedDownIsSame(os[c], os[c].candidateCount);
  }

  lemma SurvivesItself(os: Objects)
    ensures UsedSurvive(os, os)
  {
    assert forall o: Object :: Recounted(o, o.candidateCount) == o;
  }

  lemma RecountedIs(o: Object, n: nat)
    ensures Recounted(o, n) == o.(candidateCount := n)
  {
  }

  lemma WithDataSurvives(os: Objects, x: ObjectId, now: Object)
    requires x in os ==> !Needed(os[x])
    ensures UsedSurvive(os, os[x := now]) && UsedSurvive(os, os) && UsedSurvive(os, os - {x})
  {
  }

  /** A client that asked for a URL: it has been told nothing, and its object is fresh or being fetched. */
  ghost predicate JoinedFresh(a: Cache, b: Cache, url: int, cacheable: bool, now: int, r: HandleId) {
    && r in b.hs && r !in a.hs && b.hs[r].state == Init && b.hs[r].bytes == 0 && b.hs[r].log == []
    && b.hs[r].object_ in b.os && Retrieved(b.os, b.hs[r].object_, url, cacheable, now)
  }

  /**
   A client that asked for a URL whose newest object is `n` is on that object, if it is fresh; else on a new one,
   which falls back on it unless its source was lost.
   */
  ghost predicate OnNewest(a: Objects, n: ObjectId, now: int, x: ObjectId, b: Objects) {
    n in a && x in b &&
    if a[n].noCache == Fresh && (a[n].expiry > now || a[n].state != Complete) && (Readable(a[n]) || n in b) then x == n
    else x !in a && b[x].fetching && b[x].candidate == if Readable(a[n]) || n in b then Some(n) else None
  }

  lemma ServedIsOn(a: Objects, n: ObjectId, now: int, x: ObjectId, mid: Objects, b: Objects)
    requires Served(a, n, now, Some(x), mid) && x in mid && b.Keys == mid.Keys
    requires b[x].fetching == mid[x].fetching && b[x].candidate == mid[x].candidate
    ensures OnNewest(a, n, now, x, b)
  {
  }

  lemma UncachedRetrieved(os: Objects, r: ObjectId, url: int, hsts: bool, rules: Rules, now: int)
    requires r in os && os[r] == FirstFetch(url, false, None, 0, hsts, rules, now)
    ensures Retrieved(os, r, url, false, now)
  {
  }

  /** With one user more it is what was retrieved. */
  lemma StillThere(a: Objects, b: Objects, x: ObjectId, url: int, cached: bool, now: int)
    requires Retrieved(a, x, url, cached, now) && x in b && b[x] == WithUsers(a[x], b[x].users)
    ensures Retrieved(b, x, url, cached, now) && b[x].fetching == a[x].fetching && b[x].candidate == a[x].candidate
  {
  }

  lemma NewlyRetrieved(os: Objects, r: ObjectId, url: int, c: Option<ObjectId>, redirects: nat, hsts: bool, rules: Rules, now: int)
    requires r in os && os[r] == FirstFetch(url, true, c, redirects, hsts, rules, now)
    ensures Retrieved(os, r, url, true, now) && Anew(os[r], redirects, hsts, rules, now)
  {
  }

  /** What bringing back the source of an object leaves. */
  lemma BroughtBack(a: Objects, b: Objects, n: ObjectId, url: int, now: int)
    requires n in a && n in b && b[n] == a[n].(source := b[n].source, hasData := b[n].hasData)
    requires (b[n].onDisc ==> b[n].hasData) && (Readable(a[n]) ==> b == a) && a[n].url == url && a[n].cached
    ensures b[n].url == url && b[n].cached && (!Readable(a[n]) ==> b[n].hasData)
    ensures b[n].redirects == a[n].redirects && b[n].fetching == a[n].fetching
    ensures IsFresh(a[n], now) ==> Retrieved(b, n, url, true, now)
  {
  }

  lemma SaneNext(a: Cache, rules: Rules, t: Option<UserId>)
    requires Sane(a, rules, t)
    ensures a.next !in a.os && a.next !in a.us && a.next !in a.hs
    ensures Numbered(a.os, a.us, a.hs, a.next)
  {
    hide Inv;
  }

  lemma JoiningKeeps(a: Cache, b: Cache, rules: Rules, t: Option<UserId>, o: ObjectId, h: HandleId)
    requires Sane(a, rules, t) && Joins(a, b, o, Init, Steady, h) && (a.os[o].onDisc ==> a.os[o].hasData)
    ensures Sane(b, rules, t) && Keeps(a, b, t)
  {
    hide Inv;
    hide Kept;
    hide Numbered;
    CloneIsSound(o, a.next, Init, Steady, a.os[o].source);
    assert DeliveredTo(NewHandle(o, a.next, Init, Steady), a.os[o]);
    JoinKeeps(a.os, a.us, a.hs, a.next, a.cached, a.uncached, rules, t, b.os, b.us, b.hs, b.next, o, Init, Steady, h);
  }

  lemma StoppingKeeps(a: Cache, rules: Rules, t: Option<UserId>, o: ObjectId)
    requires Sane(a, rules, t) && o in a.os
    ensures Sane(a.(os := a.os[o := Stopped(a.os[o])]), rules, t)
  {
    hide Inv;
    hide Kept;
    hide Numbered;
    StopKeeps(a.os, a.us, a.hs, a.next, a.cached, a.uncached, rules, t, o);
  }
}
