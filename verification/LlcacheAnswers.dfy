/**
 What is decided outside the cache, and that the cache goes by it: a handle stays
 what it is unless its client lets go of it or takes it elsewhere, and a client is
 passed over only for what it has answered itself, or for an error of another's.
 */
module LlcacheAnswers {
  import opened Common
  import opened LlcacheCalls
  import opened LlcacheFetch
  import opened LlcacheNotify
  import opened LlcacheState

  datatype Reply = Ok | NeedData | Failed

  datatype Answer = Answer(who: HandleId, reply: Reply)

  /**
   A record of it: the handles that clients have released or aborted and the objects
   that aborts have stopped, one after another; the answers clients have given when
   called; and how often the rest of the world has failed: a fetch was not started,
   the backing store did not know a URL, could not give a source back or take one.
   */
  datatype Outside = Outside(
    left: seq<HandleId>,
    stopped: seq<ObjectId>,
    answers: seq<Answer>,
    unstarted: nat,
    unknown: nat,
    unread: nat,
    unwritten: nat)

  function LeftBy(s: Outside, h: HandleId): Outside {
    s.(left := s.left + [h])
  }

  function AbortedBy(s: Outside, h: HandleId, o: ObjectId, alone: bool): Outside {
    LeftBy(s, h).(stopped := s.stopped + if alone then [o] else [])
  }

  /** More has been decided. */
  ghost predicate Since(s: Outside, t: Outside) {
    && s.left <= t.left && s.stopped <= t.stopped && s.answers <= t.answers
    && s.unstarted <= t.unstarted && s.unknown <= t.unknown && s.unread <= t.unread && s.unwritten <= t.unwritten
  }

  /** More has been decided, but nothing by clients. */
  ghost predicate Tried(s: Outside, t: Outside) {
    Since(s, t) && t.left == s.left && t.stopped == s.stopped && t.answers == s.answers
  }

  /** The client of a handle has since let go of it, or taken it elsewhere. */
  predicate HasLeft(s: Outside, t: Outside, h: HandleId) {
    |s.left| <= |t.left| && h in t.left[|s.left|..]
  }

  lemma SinceOn(s: Outside, t: Outside, u: Outside)
    requires Since(s, t) && Since(t, u)
    ensures Since(s, u)
    ensures forall h :: HasLeft(s, u, h) <==> HasLeft(s, t, h) || HasLeft(t, u, h)
    ensures u.stopped[|s.stopped|..] == t.stopped[|s.stopped|..] + u.stopped[|t.stopped|..]
  {
    assert u.left[|s.left|..] == t.left[|s.left|..] + u.left[|t.left|..];
  }

  // ----- objects and handles stay -----

  /** Objects still there are in the state they were in, but for some that have been stopped. */
  ghost predicate Undisturbed(a: Objects, next: nat, b: Objects, next': nat, stopped: seq<ObjectId>) {
    && next <= next' && (forall o :: o in b ==> o in a || o >= next)
    && forall o :: o in a && o < next && o in b && o !in stopped ==> SameState(a[o], b[o])
  }

  predicate SameState(a: Object, b: Object) {
    b.state == a.state && b.fetching == a.fetching && b.expiry == a.expiry
  }

  lemma UndisturbedOn(a: Objects, next: nat, b: Objects, next1: nat, stopped: seq<ObjectId>, c: Objects, next2: nat, more: seq<ObjectId>)
    requires Undisturbed(a, next, b, next1, stopped) && Undisturbed(b, next1, c, next2, more)
    ensures Undisturbed(a, next, c, next2, stopped + more)
  {
  }

  lemma UndisturbedBoth(a: Objects, next: nat, b: Objects, next1: nat, c: Objects, next2: nat)
    requires Undisturbed(a, next, b, next1, []) && Undisturbed(b, next1, c, next2, [])
    ensures Undisturbed(a, next, c, next2, [])
  {
  }

  lemma UndisturbedItself(a: Objects, next: nat)
    ensures Undisturbed(a, next, a, next, [])
  {
  }

  lemma UndisturbedByOne(a: Objects, next: nat, o: ObjectId, now: Object)
    requires o in a && SameState(a[o], now)
    ensures Undisturbed(a, next, a[o := now], next, [])
  {
  }

  lemma UndisturbedByNew(a: Objects, next: nat, now: Object)
    ensures Undisturbed(a, next, a[next := now], next + 1, [])
  {
  }

  lemma UndisturbedByLess(a: Objects, next: nat, o: ObjectId)
    ensures Undisturbed(a, next, a - {o}, next, [])
  {
  }

  lemma RecountedState(o: Object, count: nat)
    ensures SameState(o, Recounted(o, count))
  {
  }

  lemma ReadState(o: Object, source: seq<Byte>, hasData: bool)
    ensures SameState(o, o.(source := source, hasData := hasData))
  {
  }

  /**
   Every handle is there, on its object, unless its client has let go of it or taken
   it elsewhere; every object is in the state it was in, unless a client has stopped it.
   */
  ghost predicate Stayed(a: Cache, s: Outside, b: Cache, t: Outside) {
    && Since(s, t) && Undisturbed(a.os, a.next, b.os, b.next, t.stopped[|s.stopped|..])
    && forall h :: h in a.hs && !HasLeft(s, t, h) ==> h in b.hs && b.hs[h].object_ == a.hs[h].object_ && b.hs[h].user == a.hs[h].user
  }

  /** Every handle is there unless its client has let go of it; its object may be another. */
  ghost predicate Remained(a: Handles, s: Outside, b: Handles, t: Outside) {
    Since(s, t) && forall h :: h in a && !HasLeft(s, t, h) ==> h in b
  }

  lemma StayedOn(a: Cache, s: Outside, b: Cache, t: Outside, c: Cache, u: Outside)
    requires Stayed(a, s, b, t) && Stayed(b, t, c, u)
    ensures Stayed(a, s, c, u)
  {
    hide Undisturbed;
    SinceOn(s, t, u);
    UndisturbedOn(a.os, a.next, b.os, b.next, t.stopped[|s.stopped|..], c.os, c.next, u.stopped[|t.stopped|..]);
    hide HasLeft;
    hide Since;
  }

  lemma StayedSince(a: Cache, s: Outside, b: Cache, t: Outside)
    requires Stayed(a, s, b, t)
    ensures Since(s, t)
  {
  }

  lemma StayedItself(a: Cache, s: Outside, t: Outside)
    requires Tried(s, t)
    ensures Stayed(a, s, a, t)
  {
  }

  /** Nothing has been added to it that matters. */
  lemma StayedAlike(a: Cache, s: Outside, b: Cache, t: Outside, c: Cache)
    requires Stayed(a, s, b, t) && c.os == b.os && c.hs == b.hs && c.next == b.next
    ensures Stayed(a, s, c, t)
  {
  }

  lemma StayedFrom(a: Cache, s: Outside, b: Cache, t: Outside, c: Cache)
    requires Stayed(a, s, b, t) && c.os == a.os && c.hs == a.hs && c.next == a.next
    ensures Stayed(c, s, b, t)
  {
  }

  /** A handle changed, but not in where it belongs. */
  lemma StayedTold(a: Cache, s: Outside, h: HandleId, now: Handle)
    requires h in a.hs && now.object_ == a.hs[h].object_ && now.user == a.hs[h].user
    ensures Stayed(a, s, WithHandle(a, h, now), s)
  {
  }

  lemma StayedAnswered(a: Cache, s: Outside, b: Cache, t: Outside, answer: Answer)
    requires Stayed(a, s, b, t)
    ensures Stayed(a, s, b, t.(answers := t.answers + [answer]))
  {
  }

  lemma DroppedStayed(a: Cache, s: Outside, b: Cache, t: Outside, o: ObjectId, u: UserId)
    requires Stayed(a, s, b, t) && o in b.os && u in b.us && (b.us[u].handle.Some? ==> HasLeft(s, t, b.us[u].handle.value))
    ensures Stayed(a, s, Dropped(b, o, u), t)
  {
    hide HasLeft;
    hide Since;
    hide Without;
  }

  /** Those queued to go have been let go of. */
  ghost predicate QueuedHaveLeft(us: Users, s: Outside, t: Outside) {
    forall u :: u in us && us[u].queued && us[u].handle.Some? ==> HasLeft(s, t, us[u].handle.value)
  }

  lemma NobodyQueued(a: Cache, rules: Rules, u: UserId, s: Outside)
    requires Sane(a, rules, Some(u)) && u in a.us && !a.us[u].queued
    ensures QueuedHaveLeft(a.us, s, s)
  {
    hide Linked;
    hide Placed;
    hide Delivered;
    hide ObjectsOk;
    hide Counted;
    hide Listed;
    hide Numbered;
    hide HasLeft;
    assert Marked(a.us, Some(u));
  }

  lemma NotQueuedYet(a: Cache, b: Cache, rules: Rules, o: ObjectId, u: UserId, h: HandleId, s: Outside)
    requires Telling1(a, b, rules, o, u, h)
    ensures QueuedHaveLeft(b.us, s, s)
  {
    hide Sane;
    hide BehindKept;
    hide OnlyTold;
    hide KeysKept;
    hide Followed;
    hide ObjectKept;
    hide DeliveredTo;
    hide ObjectOk;
    hide ListNumbered;
    hide Numbered;
    hide QueuedHaveLeft;
    NobodyQueued(b, rules, u, s);
  }

  lemma ReleasedStayed(a: Cache, b: Cache, h: HandleId, s: Outside)
    requires Releases(a, b, h)
    ensures Stayed(a, s, b, LeftBy(s, h))
  {
    hide Without;
    assert LeftBy(s, h).left[|s.left|] == h;
  }

  /** Nobody has been queued but for having been let go of. */
  ghost predicate Queues(us: Users, s: Outside, us': Users, t: Outside) {
    forall r: Outside :: Since(r, s) && QueuedHaveLeft(us, r, s) ==> QueuedHaveLeft(us', r, t)
  }

  lemma ReleasedQueues(a: Cache, b: Cache, rules: Rules, k: Option<UserId>, h: HandleId, s: Outside)
    requires KnownIn(a, rules, k, h) && Releases(a, b, h)
    ensures Queues(a.us, s, b.us, LeftBy(s, h))
  {
    hide QueuedHaveLeft;
    hide Since;
    forall r: Outside | Since(r, s) && QueuedHaveLeft(a.us, r, s) ensures QueuedHaveLeft(b.us, r, LeftBy(s, h)) {
      ReleasedQueued(a, b, rules, k, h, r, s);
    }
  }

  lemma ReleasedQueued(a: Cache, b: Cache, rules: Rules, k: Option<UserId>, h: HandleId, s: Outside, t: Outside)
    requires KnownIn(a, rules, k, h) && Releases(a, b, h) && QueuedHaveLeft(a.us, s, t) && Since(s, t)
    ensures QueuedHaveLeft(b.us, s, LeftBy(t, h))
  {
    hide DeliveredTo;
    hide ObjectOk;
    hide NoDup;
    hide Without;
    hide WithUsers;
    hide HasLeft;
    LeavingIsLeft(s, t, h);
  }

  lemma LeavingIsLeft(s: Outside, t: Outside, h: HandleId)
    requires Since(s, t)
    ensures HasLeft(s, LeftBy(t, h), h) && forall g :: HasLeft(s, t, g) ==> HasLeft(s, LeftBy(t, h), g)
  {
    assert LeftBy(t, h).left[|s.left|..] == t.left[|s.left|..] + [h];
  }

  lemma JoinedStayed(a: Cache, b: Cache, o: ObjectId, state: FetchState, past: Standing, h: HandleId, s: Outside)
    requires Joins(a, b, o, state, past, h) && a.next !in a.hs && a.next !in a.us
    ensures Stayed(a, s, b, s)
    ensures Queues(a.us, s, b.us, s)
  {
    hide HasLeft;
  }

  /** The client of a handle is the only one its object has. */
  ghost predicate AloneOn(a: Cache, h: HandleId) {
    h in a.hs && a.hs[h].object_ in a.os && |a.os[a.hs[h].object_].users| <= 1
  }

  lemma AbortedStayed(a: Cache, b: Cache, h: HandleId, s: Outside)
    requires Aborts(a, b, h) && a.next !in a.os
    ensures Stayed(a, s, b, AbortedBy(s, h, a.hs[h].object_, AloneOn(a, h)))
  {
    var o := a.hs[h].object_;
    assert LeftBy(s, h).left[|s.left|] == h;
    assert (s.stopped + [o])[|s.stopped|..] == [o] && (s.stopped + [])[|s.stopped|..] == [];
    AbortedUndisturbed(a, b, h);
    AbortedHandles(a, b, h);
    hide Aborts;
    hide Undisturbed;
  }

  lemma AbortedUndisturbed(a: Cache, b: Cache, h: HandleId)
    requires Aborts(a, b, h) && a.next !in a.os
    ensures Undisturbed(a.os, a.next, b.os, b.next, if AloneOn(a, h) then [a.hs[h].object_] else [])
  {
    hide Snapshot;
    hide Stopped;
    hide Without;
    hide CarriedUsers;
    hide CarriedHandles;
  }

  lemma AbortedHandles(a: Cache, b: Cache, h: HandleId)
    requires Aborts(a, b, h)
    ensures forall g :: g in a.hs && g != h ==> g in b.hs && b.hs[g] == a.hs[g]
  {
    hide Snapshot;
    hide Stopped;
    hide Moved;
    hide WithUsers;
    hide CarriedUsers;
  }

  lemma AbortedQueues(a: Cache, b: Cache, h: HandleId, s: Outside, alone: bool)
    requires Aborts(a, b, h)
    ensures Queues(a.us, s, b.us, AbortedBy(s, h, a.hs[h].object_, alone))
  {
    hide QueuedHaveLeft;
    hide Since;
    forall r: Outside | Since(r, s) && QueuedHaveLeft(a.us, r, s) ensures QueuedHaveLeft(b.us, r, AbortedBy(s, h, a.hs[h].object_, alone)) {
      AbortedQueued(a, b, h, r, s, alone);
    }
  }

  lemma AbortedQueued(a: Cache, b: Cache, h: HandleId, s: Outside, t: Outside, alone: bool)
    requires Aborts(a, b, h) && QueuedHaveLeft(a.us, s, t) && Since(s, t)
    ensures QueuedHaveLeft(b.us, s, AbortedBy(t, h, a.hs[h].object_, alone))
  {
    hide WithUsers;
    hide Moved;
    hide Snapshot;
    hide Stopped;
    LeavingIsLeft(s, t, h);
    assert forall g :: HasLeft(s, AbortedBy(t, h, a.hs[h].object_, alone), g) <==> HasLeft(s, LeftBy(t, h), g);
    hide HasLeft;
  }

  /** A client that has not let go of its handle has not had its user queued. */
  lemma NotQueued(a: Cache, rules: Rules, u: UserId, h: HandleId, s: Outside, t: Outside)
    requires Sane(a, rules, Some(u)) && QueuedHaveLeft(a.us, s, t) && h in a.hs && a.hs[h].user == u && !HasLeft(s, t, h)
    ensures u in a.us && !a.us[u].queued
  {
    SaneHandle(a, rules, Some(u), h);
    hide Sane;
    hide DeliveredTo;
    hide ObjectOk;
    hide NoDup;
  }

  lemma QueuesTried(us: Users, s: Outside, us': Users, t: Outside, u: Outside)
    requires Tried(s, t) && Queues(us, t, us', u)
    ensures Queues(us, s, us', u)
  {
    forall r: Outside | Since(r, s) && QueuedHaveLeft(us, r, s) ensures QueuedHaveLeft(us', r, u) {
      assert Since(r, t) && QueuedHaveLeft(us, r, t);
    }
  }

  lemma QueuesOn(us: Users, s: Outside, t: Outside, us': Users, u: Outside)
    requires Since(s, t) && QueuedHaveLeft(us, s, t) && Queues(us, t, us', u)
    ensures QueuedHaveLeft(us', s, u)
  {
  }

  lemma AnswerIsNoLeaving(us: Users, s: Outside, t: Outside, answer: Answer)
    requires QueuedHaveLeft(us, s, t)
    ensures QueuedHaveLeft(us, s, t.(answers := t.answers + [answer]))
  {
  }

  lemma RetrievedStayed(a: Cache, s: Outside, b: Cache, t: Outside)
    requires Tried(s, t) && b.hs == a.hs && Undisturbed(a.os, a.next, b.os, b.next, [])
    ensures Stayed(a, s, b, t)
  {
  }

  lemma QueuesNone(us: Users, s: Outside, t: Outside)
    requires Tried(s, t)
    ensures Queues(us, s, us, t)
  {
  }

  // ----- what clients answer -----

  datatype Verdict = Go | NextUser | Stop

  /** All clients called since have accepted what they were told. */
  ghost predicate AllOk(s: Outside, t: Outside) {
    |s.answers| <= |t.answers| && forall i :: |s.answers| <= i < |t.answers| ==> t.answers[i].reply == Ok
  }

  /** What an answer leads to, from a client that still holds on to its handle. */
  function Consequence(r: Reply): Verdict {
    match r case Ok => Go case NeedData => NextUser case Failed => Stop
  }

  /**
   Only the client of one handle has been called, again as long as it accepted, and
   its last answer has decided, if it was another or the handle has not been let go of.
   */
  ghost predicate Heard(s: Outside, t: Outside, h: HandleId, v: Verdict) {
    && s.answers <= t.answers
    && (forall i :: |s.answers| <= i < |t.answers| ==> t.answers[i].who == h && (v.Go? || i < |t.answers| - 1 ==> t.answers[i].reply == Ok))
    && (!v.Go? ==> |s.answers| < |t.answers| && Decided(t.answers[|t.answers| - 1].reply, v, HasLeft(s, t, h)))
  }

  predicate Decided(r: Reply, v: Verdict, left: bool) {
    if left then (r == Failed ==> v == Stop) && (v == Stop ==> r != Ok) else v == Consequence(r)
  }

  lemma HeardNothing(s: Outside, h: HandleId)
    ensures Heard(s, s, h, Go)
  {
  }

  lemma HeardOnce(s: Outside, t: Outside, h: HandleId, r: Reply, v: Verdict)
    requires t.answers == s.answers + [Answer(h, r)] && Decided(r, v, HasLeft(s, t, h)) && (v == Go ==> r == Ok)
    ensures Heard(s, t, h, v)
  {
  }

  lemma HeardOn(s: Outside, t: Outside, u: Outside, h: HandleId, v: Verdict)
    requires Since(s, t) && Since(t, u) && Heard(s, t, h, Go) && Heard(t, u, h, v)
    ensures Heard(s, u, h, v)
  {
    SinceOn(s, t, u);
    forall i | |s.answers| <= i < |t.answers| ensures u.answers[i] == t.answers[i] {
    }
  }

  /** One thing more has been told, or is not owed. */
  lemma HeardFurther(a: Cache, s: Outside, b: Cache, t: Outside, c: Cache, u: Outside, h: HandleId, v: Verdict)
    requires Stayed(a, s, b, t) && Stayed(b, t, c, u) && Heard(s, t, h, Go) && Heard(t, u, h, v)
    ensures Stayed(a, s, c, u) && Heard(s, u, h, v)
    ensures HasLeft(t, u, h) ==> HasLeft(s, u, h)
    ensures AllOk(s, u) ==> AllOk(t, u)
  {
    StayedSince(a, s, b, t);
    StayedSince(b, t, c, u);
    StayedOn(a, s, b, t, c, u);
    SinceOn(s, t, u);
    HeardOn(s, t, u, h, v);
    AllOkOn(s, t, u);
    hide Stayed;
    hide Heard;
    hide HasLeft;
    hide AllOk;
  }

  lemma TellingMeans(a: Cache, b: Cache, rules: Rules, o: ObjectId, u: UserId, h: HandleId)
    requires Telling1(a, b, rules, o, u, h)
    ensures o in a.os && u in a.us && a.us[u].handle == Some(h) && h in a.hs && h in b.hs && o in b.os
  {
    hide Sane;
    hide BehindKept;
    hide Followed;
    hide DeliveredTo;
    hide ObjectOk;
    hide ListNumbered;
    hide Numbered;
  }

  lemma PastNone(b: Cache, o: ObjectId, h: HandleId, s: FetchState)
    requires h in b.hs && o in b.os
    ensures Past(0, b, o, h, s)
  {
  }

  /** All four things told, the user can be let go. */
  lemma AllTold(a: Cache, b: Cache, rules: Rules, o: ObjectId, u: UserId, h: HandleId)
    requires Telling1(a, b, rules, o, u, h) && o in a.os && Past(4, b, o, h, a.os[o].state)
    ensures o in b.os && u in b.us && u in b.os[o].users && b.us[u].handle == Some(h)
    ensures var now := WithUser(b, u, b.us[u].(target := false));
            && Sane(now, rules, None) && UserCaughtUp(now, o, u, a.os[o].state)
            && Notified(a, now, o, u, First(After(b.os[o].users, u)))
  {
    hide Sane;
    hide DeliveredTo;
    hide ObjectOk;
    hide CaughtUp;
    hide Notified;
    hide BehindKept;
    hide Followed;
    hide NoDup;
    hide After;
    PastAll(a, b, rules, o, u, h);
    GoneOn(a, b, rules, o, u);
    Unmarking(b, rules, u);
  }

  /** A handle that asked to be told again is still owed what it had been told last; of certificates there is no second showing. */
  ghost predicate PutBack(c: Cache, o: ObjectId, h: HandleId, s: FetchState) {
    h in c.hs && o in c.os && (Rank(s) > 1 ==> Owed(c.hs[h], s, c.os[o]))
  }

  lemma WithItself(hs: Handles, h: HandleId)
    requires h in hs
    ensures hs[h := hs[h]] == hs
  {
  }

  /** After a call: one that is queued has let go of its handle, if it has still got one; one that has not let go is as it was. */
  lemma CallDecided(b: Cache, c: Cache, rules: Rules, u: UserId, h: HandleId, was: Cache, s: Outside, t: Outside)
    requires h in b.hs && b.hs[h].user == u && h in was.hs && was.hs[h].user == u && u in c.us && Sane(c, rules, Some(u))
    requires Stayed(was, s, c, t) && QueuedHaveLeft(c.us, s, t)
    ensures c.us[u].queued ==> HasLeft(s, t, h) && (c.us[u].handle.Some? ==> HasLeft(s, t, c.us[u].handle.value))
  {
    hide Sane;
    if !HasLeft(s, t, h) {
      NotQueued(c, rules, u, h, s, t);
    }
  }

  // ----- events that change nothing -----

  /** One user has been asked and has answered. */
  ghost predicate AskedOne(a: Cache, s: Outside, t: Outside, u: UserId, r: Reply) {
    u in a.us && a.us[u].handle.Some? && t.answers == s.answers + [Answer(a.us[u].handle.value, r)]
  }

  ghost predicate HasAnswered(s: Outside, t: Outside, h: HandleId) {
    exists i :: |s.answers| <= i < |t.answers| && t.answers[i].who == h
  }

  /** All users an object had, but for those to come, have been asked and have accepted, unless they have let go. */
  ghost predicate AskedSoFar(a: Cache, s: Outside, b: Cache, t: Outside, o: ObjectId, rest: seq<UserId>) {
    && o in a.os && Stayed(a, s, b, t) && AllOk(s, t)
    && forall x :: x in a.os[o].users && x !in rest && x in a.us && a.us[x].handle.Some? && !HasLeft(s, t, a.us[x].handle.value) ==>
         HasAnswered(s, t, a.us[x].handle.value)
  }

  /** Every client of an object has been asked, unless it has let go of its handle, up to the first that did not accept. */
  ghost predicate Consulted(hs: Handles, s: Outside, t: Outside, o: ObjectId, ok: bool) {
    if ok then
      AllOk(s, t) && forall h :: h in hs && hs[h].object_ == o && !HasLeft(s, t, h) ==> HasAnswered(s, t, h)
    else |s.answers| < |t.answers| && t.answers[|t.answers| - 1].reply != Ok && AllOk(s, t.(answers := t.answers[..|t.answers| - 1]))
  }

  ghost predicate AllAsked(a: Cache, s: Outside, b: Cache, t: Outside, o: ObjectId, ok: bool) {
    Stayed(a, s, b, t) && Consulted(a.hs, s, t, o, ok)
  }

  /** A user whose client has not let go is where it was. */
  lemma StillListed(a: Cache, b: Cache, rules: Rules, s: Outside, t: Outside, o: ObjectId, x: UserId, h: HandleId)
    requires Sane(a, rules, None) && Sane(b, rules, None) && o in a.os && x in a.os[o].users && x in a.us && a.us[x].handle == Some(h)
    requires Stayed(a, s, b, t) && !HasLeft(s, t, h)
    ensures h in b.hs && o in b.os && x in b.os[o].users && x in b.us && b.us[x].handle == Some(h)
  {
    hide Sane;
    hide HasLeft;
    hide Since;
    hide Undisturbed;
    hide DeliveredTo;
    hide ObjectOk;
    hide NoDup;
    ListedFacts(a, rules, None, o, x);
    SaneHandle(b, rules, None, h);
  }

  /** One that is not the one just called was not to come before, if it is not to come now. */
  lemma NotToCome(was: seq<UserId>, now: seq<UserId>, u: UserId, n: Option<UserId>, next: nat, x: UserId)
    requires RestKept(was, u, now, n, next) && x in now && x !in Rest(now, n) && x != u
    ensures x !in Rest(was, Some(u))
  {
    hide After;
  }

  lemma AskedStarts(a: Cache, s: Outside, o: ObjectId)
    requires o in a.os
    ensures AskedSoFar(a, s, a, s, o, a.os[o].users)
  {
  }

  lemma AskedOn(a: Cache, b: Cache, c: Cache, rules: Rules, s: Outside, t: Outside, w: Outside, o: ObjectId, u: UserId, n: Option<UserId>)
    requires Sane(a, rules, None) && Sane(b, rules, None) && Sane(c, rules, None)
    requires o in a.os && o in b.os && o in c.os && u in b.os[o].users
    requires AskedSoFar(a, s, b, t, o, Rest(b.os[o].users, Some(u))) && Stayed(b, t, c, w) && AskedOne(b, t, w, u, Ok)
    requires RestKept(b.os[o].users, u, c.os[o].users, n, b.next)
    ensures AskedSoFar(a, s, c, w, o, Rest(c.os[o].users, n))
  {
    hide Sane;
    hide Stayed;
    hide RestKept;
    hide Rest;
    hide DeliveredTo;
    hide ObjectOk;
    hide NoDup;
    hide HasLeft;
    hide Since;
    StayedOn(a, s, b, t, c, w);
    StayedSince(a, s, b, t);
    StayedSince(b, t, c, w);
    SinceOn(s, t, w);
    forall x | x in a.os[o].users && x !in Rest(c.os[o].users, n) && x in a.us && a.us[x].handle.Some? && !HasLeft(s, w, a.us[x].handle.value)
      ensures HasAnswered(s, w, a.us[x].handle.value)
    {
      var h := a.us[x].handle.value;
      StillListed(a, b, rules, s, t, o, x, h);
      if x == u {
        assert w.answers[|t.answers|].who == h;
      } else {
        StillListed(a, c, rules, s, w, o, x, h);
        NotToCome(b.os[o].users, c.os[o].users, u, n, b.next, x);
        AnsweredOn(s, t, w, h);
      }
    }
  }

  lemma AnsweredOn(s: Outside, t: Outside, w: Outside, h: HandleId)
    requires HasAnswered(s, t, h) && t.answers <= w.answers
    ensures HasAnswered(s, w, h)
  {
    var i :| |s.answers| <= i < |t.answers| && t.answers[i].who == h;
    assert w.answers[i].who == h;
  }

  lemma AskedAll(a: Cache, b: Cache, rules: Rules, s: Outside, t: Outside, o: ObjectId)
    requires Sane(a, rules, None) && AskedSoFar(a, s, b, t, o, [])
    ensures AllAsked(a, s, b, t, o, true)
  {
    hide Sane;
    hide Stayed;
    hide HasAnswered;
    hide DeliveredTo;
    hide ObjectOk;
    hide NoDup;
    forall h | h in a.hs && a.hs[h].object_ == o && !HasLeft(s, t, h) ensures HasAnswered(s, t, h) {
      SaneHandle(a, rules, None, h);
    }
  }

  lemma AskedUntil(a: Cache, b: Cache, c: Cache, s: Outside, t: Outside, w: Outside, o: ObjectId, rest: seq<UserId>, u: UserId, r: Reply)
    requires AskedSoFar(a, s, b, t, o, rest) && Stayed(b, t, c, w) && AskedOne(b, t, w, u, r) && r != Ok
    ensures AllAsked(a, s, c, w, o, false)
  {
    hide HasAnswered;
    StayedOn(a, s, b, t, c, w);
    StayedSince(a, s, b, t);
    assert w.answers[..|w.answers| - 1] == t.answers;
  }

  // ----- every user told -----

  ghost predicate Deferred(s: Outside, t: Outside, h: HandleId) {
    exists i :: |s.answers| <= i < |t.answers| && t.answers[i] == Answer(h, NeedData)
  }

  ghost predicate NoneFailed(s: Outside, t: Outside) {
    |s.answers| <= |t.answers| && forall i :: |s.answers| <= i < |t.answers| ==> t.answers[i].reply != Failed
  }

  /** A handle has been told all an object in a state has to tell, or its client asked for it to be put back. */
  ghost predicate ToldOrDeferred(b: Cache, s: Outside, t: Outside, o: ObjectId, h: HandleId, state: FetchState) {
    h in b.hs && o in b.os && (CaughtUp(b.hs[h], state, b.os[o].source) || Deferred(s, t, h))
  }

  /** The notification has been stopped by the last answer. */
  ghost predicate StoppedBy(s: Outside, t: Outside) {
    && |s.answers| < |t.answers|
    && var last := t.answers[|t.answers| - 1];
       last.reply != Ok && (!HasLeft(s, t, last.who) ==> last.reply == Failed)
  }

  /** One user has been brought up to date, unless its client has deferred, failed or let go; nobody else has been called. */
  ghost predicate HasBeenTold(a: Cache, s: Outside, b: Cache, t: Outside, o: ObjectId, u: UserId, v: Verdict) {
    && o in a.os && o in b.os && u in a.us && a.us[u].handle.Some? && Stayed(a, s, b, t)
    && var h := a.us[u].handle.value;
       && (forall i :: |s.answers| <= i < |t.answers| ==> t.answers[i].who == h)
       && if v == Stop then StoppedBy(s, t)
          else NoneFailed(s, t) && (!HasLeft(s, t, h) ==>
              ToldOrDeferred(b, s, t, o, h, a.os[o].state) && (Deferred(s, t, h) ==> PutBack(b, o, h, a.os[o].state)))
  }

  lemma ToldSince(a: Cache, s: Outside, b: Cache, t: Outside, o: ObjectId, u: UserId, v: Verdict)
    requires HasBeenTold(a, s, b, t, o, u, v)
    ensures Since(s, t)
  {
    hide ToldOrDeferred;
    hide PutBack;
  }

  lemma ToldAll(a: Cache, b: Cache, s: Outside, t: Outside, o: ObjectId, u: UserId, h: HandleId)
    requires o in a.os && u in a.us && a.us[u].handle == Some(h) && Stayed(a, s, b, t) && Heard(s, t, h, Go)
    requires u in b.us && b.us[u].handle == Some(h) && UserCaughtUp(b, o, u, a.os[o].state)
    ensures HasBeenTold(a, s, b, t, o, u, NextUser) && AllOk(s, t)
  {
    hide CaughtUp;
    hide PutBack;
  }

  lemma ToldUntil(a: Cache, b: Cache, s: Outside, t: Outside, o: ObjectId, u: UserId, h: HandleId, v: Verdict)
    requires o in a.os && o in b.os && u in a.us && a.us[u].handle == Some(h) && h in a.hs
    requires Stayed(a, s, b, t) && Heard(s, t, h, v) && v != Go
    requires v == NextUser && !HasLeft(s, t, h) ==> PutBack(b, o, h, a.os[o].state)
    ensures HasBeenTold(a, s, b, t, o, u, v)
  {
    hide CaughtUp;
    hide PutBack;
    if v == NextUser && !HasLeft(s, t, h) {
      assert t.answers[|t.answers| - 1] == Answer(h, NeedData);
    }
  }

  /** The users an object had, but for those to come, have been told or have deferred, unless they have let go. */
  ghost predicate EachTold(a: Cache, s: Outside, b: Cache, t: Outside, o: ObjectId, rest: seq<UserId>) {
    && o in a.os && Stayed(a, s, b, t) && NoneFailed(s, t)
    && forall x :: x in a.os[o].users && x !in rest && x in a.us && a.us[x].handle.Some? && !HasLeft(s, t, a.us[x].handle.value) ==>
         ToldOrDeferred(b, s, t, o, a.us[x].handle.value, a.os[o].state)
  }

  lemma EachToldStarts(a: Cache, s: Outside, o: ObjectId)
    requires o in a.os
    ensures EachTold(a, s, a, s, o, a.os[o].users)
  {
  }

  lemma DeferredOn(r: Outside, s: Outside, t: Outside, w: Outside, h: HandleId)
    requires Deferred(s, t, h) && |r.answers| <= |s.answers| && t.answers <= w.answers
    ensures Deferred(r, w, h)
  {
    var i :| |s.answers| <= i < |t.answers| && t.answers[i] == Answer(h, NeedData);
    assert w.answers[i] == Answer(h, NeedData);
  }

  /** A handle told before and not called now is told still. */
  lemma ToldStill(b: Cache, c: Cache, s: Outside, t: Outside, w: Outside, o: ObjectId, u: UserId, h: HandleId, state: FetchState)
    requires ToldOrDeferred(b, s, t, o, h, state) && h in c.hs && o in c.os
    requires SameProgress(b.hs[h], c.hs[h]) && ObjectKept(b.os[o], c.os[o])
    requires t.answers <= w.answers
    ensures ToldOrDeferred(c, s, w, o, h, state)
  {
    if Deferred(s, t, h) {
      DeferredOn(s, s, t, w, h);
    }
    hide Deferred;
  }

  lemma ToldNow(c: Cache, r: Outside, s: Outside, t: Outside, o: ObjectId, h: HandleId, was: Object, state: FetchState)
    requires ToldOrDeferred(c, s, t, o, h, state) && r.answers <= s.answers && s.answers <= t.answers
    requires ObjectKept(was, was.(state := state))
    ensures ToldOrDeferred(c, r, t, o, h, was.state)
  {
    if Deferred(s, t, h) {
      DeferredOn(r, s, t, t, h);
    }
    hide Deferred;
  }

  lemma NoneFailedOn(s: Outside, t: Outside, w: Outside)
    requires NoneFailed(s, t) && NoneFailed(t, w) && t.answers <= w.answers
    ensures NoneFailed(s, w)
  {
    forall i | |s.answers| <= i < |t.answers| ensures w.answers[i] == t.answers[i] {
    }
  }

  lemma OnlyOneTold(b: Cache, c: Cache, o: ObjectId, u: UserId, n: Option<UserId>, h: HandleId)
    requires Notified(b, c, o, u, n) && h in b.hs && h in c.hs && b.us[u].handle != Some(h)
    ensures SameProgress(b.hs[h], c.hs[h]) && o in b.os && o in c.os && ObjectKept(b.os[o], c.os[o])
    ensures RestKept(b.os[o].users, u, c.os[o].users, n, b.next)
  {
    hide RestKept;
    hide Followed;
  }

  lemma NotifiedFacts(b: Cache, c: Cache, o: ObjectId, u: UserId, n: Option<UserId>)
    requires Notified(b, c, o, u, n)
    ensures o in b.os && o in c.os && ObjectKept(b.os[o], c.os[o]) && RestKept(b.os[o].users, u, c.os[o].users, n, b.next)
  {
    hide RestKept;
    hide Followed;
    hide OnlyTold;
  }

  lemma SourceAndState(a: Object, b: Object)
    requires ObjectKept(a, b)
    ensures ObjectKept(a, a.(state := b.state))
  {
  }

  lemma EachToldOn(a: Cache, b: Cache, c: Cache, rules: Rules, s: Outside, t: Outside, w: Outside, o: ObjectId, u: UserId,
                   n: Option<UserId>)
    requires Sane(a, rules, None) && Sane(b, rules, None) && Sane(c, rules, None) && o in a.os && o in b.os && u in b.os[o].users
    requires EachTold(a, s, b, t, o, Rest(b.os[o].users, Some(u))) && HasBeenTold(b, t, c, w, o, u, NextUser)
    requires Notified(b, c, o, u, n) && ObjectKept(a.os[o], b.os[o])
    ensures o in c.os && EachTold(a, s, c, w, o, Rest(c.os[o].users, n))
  {
    hide Sane;
    hide Stayed;
    hide RestKept;
    hide Rest;
    hide Notified;
    hide ToldOrDeferred;
    hide Deferred;
    hide PutBack;
    hide NoneFailed;
    hide ObjectKept;
    NotifiedFacts(b, c, o, u, n);
    StayedOn(a, s, b, t, c, w);
    StayedSince(a, s, b, t);
    StayedSince(b, t, c, w);
    SinceOn(s, t, w);
    NoneFailedOn(s, t, w);
    SourceAndState(a.os[o], b.os[o]);
    forall x | x in a.os[o].users && x !in Rest(c.os[o].users, n) && x in a.us && a.us[x].handle.Some? && !HasLeft(s, w, a.us[x].handle.value)
      ensures ToldOrDeferred(c, s, w, o, a.us[x].handle.value, a.os[o].state)
    {
      var h := a.us[x].handle.value;
      StillListed(a, b, rules, s, t, o, x, h);
      if x == u {
        ToldNow(c, s, t, w, o, h, a.os[o], b.os[o].state);
      } else {
        StillListed(a, c, rules, s, w, o, x, h);
        NotToCome(b.os[o].users, c.os[o].users, u, n, b.next, x);
        TwoHandles(b, rules, o, u, x, h);
        OnlyOneTold(b, c, o, u, n, h);
        ToldStill(b, c, s, t, w, o, u, h, a.os[o].state);
      }
    }
  }

  lemma TwoHandles(b: Cache, rules: Rules, o: ObjectId, u: UserId, x: UserId, h: HandleId)
    requires Sane(b, rules, None) && o in b.os && u in b.os[o].users && x in b.os[o].users
    requires x in b.us && b.us[x].handle == Some(h) && x != u
    ensures u in b.us && b.us[u].handle != Some(h)
  {
    hide Sane;
    hide DeliveredTo;
    hide ObjectOk;
    hide NoDup;
    ListedFacts(b, rules, None, o, u);
    ListedFacts(b, rules, None, o, x);
  }

  /**
   Every client of an object has been told all there was to tell, or has asked to be
   put back, unless it has let go of its handle; or a client has answered with an error.
   */
  ghost predicate UsersTold(a: Cache, s: Outside, b: Cache, t: Outside, o: ObjectId, ok: bool) {
    && o in a.os && Stayed(a, s, b, t)
    && if ok then
         NoneFailed(s, t)
         && forall h :: h in a.hs && a.hs[h].object_ == o && !HasLeft(s, t, h) ==> ToldOrDeferred(b, s, t, o, h, a.os[o].state)
       else StoppedBy(s, t)
  }

  lemma ToldEverybody(a: Cache, b: Cache, rules: Rules, s: Outside, t: Outside, o: ObjectId)
    requires Sane(a, rules, None) && EachTold(a, s, b, t, o, [])
    ensures UsersTold(a, s, b, t, o, true)
  {
    hide Sane;
    hide Stayed;
    hide ToldOrDeferred;
    hide DeliveredTo;
    hide ObjectOk;
    hide NoDup;
    forall h | h in a.hs && a.hs[h].object_ == o && !HasLeft(s, t, h) ensures ToldOrDeferred(b, s, t, o, h, a.os[o].state) {
      SaneHandle(a, rules, None, h);
    }
  }

  lemma ToldUntilStopped(a: Cache, b: Cache, c: Cache, s: Outside, t: Outside, w: Outside, o: ObjectId, rest: seq<UserId>, u: UserId)
    requires EachTold(a, s, b, t, o, rest) && HasBeenTold(b, t, c, w, o, u, Stop)
    ensures UsersTold(a, s, c, w, o, false)
  {
    StayedOn(a, s, b, t, c, w);
    StayedSince(a, s, b, t);
    hide Stayed;
    hide ToldOrDeferred;
  }

  // ----- everybody told -----

  /** A handle is still on the object it was on, and has been told all that had to tell. */
  ghost predicate ToldEverything(a: Cache, b: Cache, h: HandleId) {
    && h in a.hs && h in b.hs && b.hs[h].object_ == a.hs[h].object_
    && var o := a.hs[h].object_;
       o in a.os && o in b.os && CaughtUp(b.hs[h], a.os[o].state, b.os[o].source)
  }

  /** If all clients called have accepted, everybody who has not let go has been told all there was to tell. */
  lemma EverybodyTold(a: Cache, b: Cache, rules: Rules, s: Outside, t: Outside, h: HandleId)
    requires Sane(a, rules, None) && Sane(b, rules, None) && EverybodyCaughtUp(a, b) && Stayed(a, s, b, t)
    requires h in a.hs && !HasLeft(s, t, h)
    ensures ToldEverything(a, b, h)
  {
    hide Sane;
    hide CaughtUp;
    hide DeliveredTo;
    hide ObjectOk;
    hide NoDup;
    SaneHandle(a, rules, None, h);
    SaneHandle(b, rules, None, h);
    assert Still(a, b, a.hs[h].object_, a.hs[h].user);
  }

  lemma AllOkOn(s: Outside, t: Outside, w: Outside)
    requires |s.answers| <= |t.answers| && t.answers <= w.answers
    ensures AllOk(s, w) <==> AllOk(s, t) && AllOk(t, w)
  {
    forall i | |s.answers| <= i < |t.answers| ensures w.answers[i] == t.answers[i] {
    }
  }

  lemma ToldStayed(a: Cache, s: Outside, b: Cache, t: Outside, o: ObjectId, ok: bool)
    requires UsersTold(a, s, b, t, o, ok)
    ensures Stayed(a, s, b, t) && Since(s, t) && (AllOk(s, t) ==> ok)
  {
    hide ToldOrDeferred;
  }

  lemma RestIsMore(list: seq<UserId>, u: UserId)
    ensures |Rest(list, Some(u))| == |After(list, u)| + 1
  {
  }

  lemma RestOfNone(list: seq<UserId>)
    ensures Rest(list, None) == []
  {
  }

  // ----- what fetch messages lead to -----

  /** Messages of which the clients of the object are told. */
  predicate Asks(msg: Message, o: Object) {
    match msg
    case TimedOut => o.retries <= 1
    case NeedsAuth(details) => !details || o.triedAuth
    case TlsFailed => o.hsts || o.triedTls
    case Redirected(_) => true
    case FetchError => true
    case BadCertificate => true
    case Progress => true
    case CertsCame => true
    case _ => false
  }

  /** Messages at which the fetch is started again. */
  predicate Retries(msg: Message, o: Object) {
    (msg.TimedOut? || msg.NeedsAuth? || msg.TlsFailed?) && !Asks(msg, o)
  }

  /** Clients have been asked exactly of what they are asked of, and the fetch started again when it is to be, if it could be. */
  ghost predicate SeenTo(msg: Message, o: ObjectId, hs: Handles, s: Outside, was: Object, t: Outside, now: Object) {
    && (if Asks(msg, was) then Consulted(hs, s, t, o, AllOk(s, t)) else t.answers == s.answers)
    && (Retries(msg, was) ==> now.fetching || t.unstarted > s.unstarted)
  }

  lemma QuietSeenTo(msg: Message, o: ObjectId, hs: Handles, s: Outside, was: Object, now: Object)
    requires msg.HeaderCame? || msg.StillGood? || msg.DataCame? || msg.FetchFinished?
    ensures SeenTo(msg, o, hs, s, was, s, now)
  {
  }

  lemma AskedSeenTo(msg: Message, o: ObjectId, hs: Handles, s: Outside, was: Object, t: Outside, now: Object, ok: bool)
    requires Asks(msg, was) && Consulted(hs, s, t, o, ok) && (ok <==> AllOk(s, t))
    ensures SeenTo(msg, o, hs, s, was, t, now)
  {
  }

  lemma AlwaysAsks(msg: Message, o: Object)
    requires msg.Redirected? || msg.FetchError? || msg.BadCertificate? || IsNews(msg)
    ensures Asks(msg, o)
  {
  }

  lemma NewsSeenTo(msg: Message, o: ObjectId, hs: Handles, s: Outside, was: Object, t: Outside, mid: Object, now: Object)
    requires SeenTo(msg, o, hs, s, was, t, mid) && IsNews(msg)
    ensures SeenTo(msg, o, hs, s, was, t, now)
  {
  }

  predicate IsNews(msg: Message) {
    msg.Progress? || msg.CertsCame?
  }

  lemma AskedMeans(a: Cache, s: Outside, b: Cache, t: Outside, o: ObjectId, ok: bool)
    requires AllAsked(a, s, b, t, o, ok)
    ensures Remained(a.hs, s, b.hs, t) && Consulted(a.hs, s, t, o, ok) && Since(s, t) && s.unstarted <= t.unstarted
    ensures ok <==> AllOk(s, t)
  {
    hide HasAnswered;
    hide HasLeft;
  }

  /** An object is in the state it was in, unless a client has stopped it. */
  ghost predicate StoppedOrSame(a: Object, s: Outside, b: Object, t: Outside, o: ObjectId) {
    Since(s, t) && (o in t.stopped[|s.stopped|..] || SameState(a, b))
  }

  lemma AskedStoppedOrSame(a: Cache, rules: Rules, s: Outside, b: Cache, t: Outside, o: ObjectId, ok: bool)
    requires Sane(a, rules, None) && AllAsked(a, s, b, t, o, ok) && o in a.os && o in b.os
    ensures StoppedOrSame(a.os[o], s, b.os[o], t, o)
  {
    hide Sane;
    hide HasAnswered;
    hide HasLeft;
    SaneNext(a, rules, None);
  }

  lemma NothingAsked(hs: Handles, s: Outside, t: Outside)
    requires Tried(s, t)
    ensures Remained(hs, s, hs, t)
  {
  }

  lemma RemainedKeys(a: Handles, s: Outside, b: Handles)
    requires b.Keys == a.Keys
    ensures Remained(a, s, b, s)
  {
  }

  lemma MovedHandlesKeys(a: Handles, b: Handles, o: ObjectId, r: ObjectId)
    requires HandlesMoved(a, b, o, r)
    ensures b.Keys == a.Keys
  {
  }

  /** Failing to get something leaves it so that all have been asked. */
  lemma ConsultedTried(hs: Handles, s: Outside, t: Outside, u: Outside, o: ObjectId, ok: bool)
    requires Consulted(hs, s, t, o, ok) && Since(s, t) && Tried(t, u)
    ensures Consulted(hs, s, u, o, ok) && (AllOk(s, u) <==> AllOk(s, t))
  {
  }

  /** Every handle an object had is on another one now, unless its client has let go of it. */
  ghost predicate AllMovedTo(a: Handles, s: Outside, b: Handles, t: Outside, o: ObjectId, r: ObjectId) {
    forall h :: h in a && a[h].object_ == o && !HasLeft(s, t, h) ==> h in b && b[h].object_ == r
  }

  lemma AskedAndMoved(a: Cache, s: Outside, b: Cache, t: Outside, c: Handles, u: Outside, o: ObjectId, r: ObjectId)
    requires Stayed(a, s, b, t) && HandlesMoved(b.hs, c, o, r) && Tried(t, u)
    ensures AllMovedTo(a.hs, s, c, u, o, r)
  {
    hide Undisturbed;
    forall h | h in a.hs && a.hs[h].object_ == o && !HasLeft(s, u, h) ensures h in c && c[h].object_ == r {
      assert !HasLeft(s, t, h);
      assert h in b.hs && b.hs[h].object_ == o;
    }
  }

  lemma RemainedTried(a: Handles, s: Outside, b: Handles, t: Outside, c: Handles, u: Outside)
    requires Remained(a, s, b, t) && Tried(t, u) && c.Keys == b.Keys
    ensures Remained(a, s, c, u)
  {
  }

  lemma AskedStayed(a: Cache, s: Outside, b: Cache, t: Outside, o: ObjectId, ok: bool)
    requires AllAsked(a, s, b, t, o, ok)
    ensures Stayed(a, s, b, t)
  {
  }

  /** A redirect that is followed takes all the clients an object has to one and the same other. */
  ghost predicate SentOn(os: Objects, a: Handles, s: Outside, b: Handles, t: Outside, o: ObjectId, to: Redirection, now: int, r: ObjectId) {
    r != o && r in os && Retrieved(os, r, to.url, to.cacheable, now) && AllMovedTo(a, s, b, t, o, r)
  }
}
